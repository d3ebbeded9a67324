/**
 * Mail addresses: taking them out of what the user typed, deciding how the
 * message's addresses are to be encoded, and encoding each (sendjob.cpp).
 *
 * A QString is a sequence of characters; toUtf8 is the encoding of RFC 3629.
 * QUrl::toAce is a parameter, `ace`, of everything that uses it.
 */
module Addresses {
  import opened ByteArrays

  // ---------------------------------------------------------------------
  // UTF-8
  // ---------------------------------------------------------------------

  function Octet(n: int): (c: char)
    requires 0 <= n < 256
    ensures c as int == n
  {
    n as char
  }

  function Utf8Char(c: char): (s: Bytes)
    ensures |s| > 0
    ensures if c as int <= 127 then s == [c] else s[0] as int > 127
  {
    var n := c as int;
    if n < 0x80 then [c]
    else if n < 0x800 then [Octet(0xC0 + n / 64), Octet(0x80 + n % 64)]
    else if n < 0x1_0000 then [Octet(0xE0 + n / 4096), Octet(0x80 + n / 64 % 64), Octet(0x80 + n % 64)]
    else [Octet(0xF0 + n / 262144), Octet(0x80 + n / 4096 % 64), Octet(0x80 + n / 64 % 64), Octet(0x80 + n % 64)]
  }

  function ToUtf8(s: string): Bytes {
    if s == [] then [] else Utf8Char(s[0]) + ToUtf8(s[1..])
  }

  /** The value of a continuation octet, or -1. */
  function Continuation(s: Bytes, i: nat): (n: int)
    ensures n == -1 || 0 <= n < 64
  {
    if i < |s| && 0x80 <= s[i] as int < 0xC0 then s[i] as int - 0x80 else -1
  }

  /** The first character of a UTF-8 text (section 3 of RFC 3629), and how many octets it takes. */
  function DecodeChar(s: Bytes): (r: Option<(char, nat)>)
    requires s != []
    ensures r.Some? ==> 0 < r.value.1 <= |s|
  {
    var n, a, b, c := s[0] as int, Continuation(s, 1), Continuation(s, 2), Continuation(s, 3);
    if n < 0x80 then Some((s[0], 1))
    else if 0xC0 <= n < 0xE0 && a >= 0 then Scalar((n - 0xC0) * 64 + a, 2)
    else if 0xE0 <= n < 0xF0 && a >= 0 && b >= 0 then Scalar((n - 0xE0) * 4096 + a * 64 + b, 3)
    else if 0xF0 <= n < 0xF8 && a >= 0 && b >= 0 && c >= 0 then
      Scalar((n - 0xF0) * 262144 + a * 4096 + b * 64 + c, 4)
    else None
  }

  function Scalar(n: nat, length: nat): Option<(char, nat)> {
    if n < 0xD800 || 0xE000 <= n < 0x11_0000 then Some((n as char, length)) else None
  }

  function DecodeUtf8(s: Bytes): Option<string>
    decreases |s|
  {
    if s == [] then Some([])
    else
      match DecodeChar(s)
      case None => None
      case Some((c, length)) =>
        match DecodeUtf8(s[length..])
        case None => None
        case Some(rest) => Some([c] + rest)
  }

  lemma TwoOctets(n: nat)
    ensures n == n / 64 * 64 + n % 64
  {
  }

  /** A character is decoded from its octets, whatever follows them. */
  lemma CharIsDecoded(c: char, rest: Bytes)
    ensures DecodeChar(Utf8Char(c) + rest) == Some((c, |Utf8Char(c)|))
  {
    var n := c as int;
    if n < 0x80 {
      assert (Utf8Char(c) + rest)[0] == c;
    } else if n < 0x800 {
      ShortCharIsDecoded(c, rest);
    } else if n < 0x1_0000 {
      LongCharIsDecoded(c, rest);
    } else {
      LongestCharIsDecoded(c, rest);
    }
  }

  lemma ShortCharIsDecoded(c: char, rest: Bytes)
    requires 0x80 <= c as int < 0x800
    ensures DecodeChar(Utf8Char(c) + rest) == Some((c, 2))
  {
    var n, s := c as int, Utf8Char(c) + rest;
    TwoOctets(n);
    assert s[0] as int == 0xC0 + n / 64 && s[1] as int == 0x80 + n % 64;
  }

  lemma LongCharIsDecoded(c: char, rest: Bytes)
    requires 0x800 <= c as int < 0x1_0000
    ensures DecodeChar(Utf8Char(c) + rest) == Some((c, 3))
  {
    var n, s := c as int, Utf8Char(c) + rest;
    TwoOctets(n);
    TwoOctets(n / 64);
    assert n / 64 / 64 == n / 4096;
    assert s[0] as int == 0xE0 + n / 4096 && s[1] as int == 0x80 + n / 64 % 64 && s[2] as int == 0x80 + n % 64;
  }

  lemma LongestCharIsDecoded(c: char, rest: Bytes)
    requires 0x1_0000 <= c as int
    ensures DecodeChar(Utf8Char(c) + rest) == Some((c, 4))
  {
    var n, s := c as int, Utf8Char(c) + rest;
    TwoOctets(n);
    TwoOctets(n / 64);
    TwoOctets(n / 4096);
    assert n / 64 / 64 == n / 4096 && n / 4096 / 64 == n / 262144;
    assert s[0] as int == 0xF0 + n / 262144 && s[1] as int == 0x80 + n / 4096 % 64;
    assert s[2] as int == 0x80 + n / 64 % 64 && s[3] as int == 0x80 + n % 64;
  }

  /** Every string comes back from its encoding. */
  lemma {:induction false} Utf8IsDecoded(s: string)
    ensures DecodeUtf8(ToUtf8(s)) == Some(s)
  {
    if s != [] {
      var head, tail := Utf8Char(s[0]), ToUtf8(s[1..]);
      CharIsDecoded(s[0], tail);
      assert (head + tail)[|head|..] == tail;
      Utf8IsDecoded(s[1..]);
      assert [s[0]] + s[1..] == s;
    }
  }

  /** ASCII strings, and only they, are their own encoding. */
  lemma {:induction false} Utf8OfAscii(s: string)
    ensures IsAscii(ToUtf8(s)) <==> IsAscii(s)
    ensures IsAscii(s) ==> ToUtf8(s) == s
  {
    if s != [] {
      Utf8OfAscii(s[1..]);
      var head, tail := Utf8Char(s[0]), ToUtf8(s[1..]);
      assert IsAscii(head) <==> s[0] as int <= 127;
      AsciiAppend(head, tail);
      AsciiAppend([s[0]], s[1..]);
      assert s == [s[0]] + s[1..];
    }
  }

  lemma AsciiAppend(a: seq<char>, b: seq<char>)
    ensures IsAscii(a + b) <==> IsAscii(a) && IsAscii(b)
  {
    if IsAscii(a + b) {
      forall i | 0 <= i < |a| ensures a[i] as int <= 127 { assert a[i] == (a + b)[i]; }
      forall i | 0 <= i < |b| ensures b[i] as int <= 127 { assert b[i] == (a + b)[|a| + i]; }
    }
  }

  // ---------------------------------------------------------------------
  // Bare addresses
  // ---------------------------------------------------------------------

  function Max(a: int, b: int): int { if a >= b then a else b }

  /** The address inside "Name <address>", or the whole text when there is no '<'. */
  function BareAddress(text: string): string {
    var start := IndexOf(text, '<', 0);
    if start > -1 then
      var end := Max(start, IndexOf(text, '>', start));
      Mid(text, start + 1, end - start - 1)
    else text
  }

  lemma IndexOfIs(s: seq<char>, c: char, from: nat, i: nat)
    requires from <= i < |s| && s[i] == c
    requires forall k :: from <= k < i ==> s[k] != c
    ensures IndexOf(s, c, from) == i
  {
    assert s[from..][i - from] == c;
  }

  /**
   * What the user means by the angle brackets: the text between the first '<'
   * and the next '>' ...
   */
  lemma BareAddressInBrackets(name: string, address: string, after: string)
    requires '<' !in name && '>' !in address
    ensures BareAddress(name + ['<'] + address + ['>'] + after) == address
  {
    var text := name + ['<'] + address + ['>'] + after;
    var start, end := |name|, |name| + 1 + |address|;
    assert text[start] == '<' && text[end] == '>';
    assert text[..start] == name && text[start + 1..end] == address;
    IndexOfIs(text, '<', 0, start);
    forall k | start <= k < end ensures text[k] != '>' {
      assert k > start ==> text[k] == address[k - start - 1];
    }
    IndexOfIs(text, '>', start, end);
  }

  /** ... or to the end when the bracket is never closed; and all of a text without '<'. */
  lemma BareAddressUnclosed(name: string, address: string)
    requires '<' !in name && '>' !in address
    ensures BareAddress(name + ['<'] + address) == address
    ensures BareAddress(name) == name
  {
    var text := name + ['<'] + address;
    assert text[|name|] == '<' && text[..|name|] == name;
    IndexOfIs(text, '<', 0, |name|);
    assert text[|name|..] == ['<'] + address;
    assert name[0..] == name;
    assert text[|name| + 1..] == address;
  }

  /** setFrom: the return path is kept in angle brackets. */
  function ReturnPath(from: string): string {
    "<" + BareAddress(from) + ">"
  }

  /** addRecipients: empty entries are skipped, the others reduced to their address. */
  function AddedRecipients(list: seq<string>): seq<string> {
    if list == [] then []
    else (if list[0] == "" then [] else [BareAddress(list[0])]) + AddedRecipients(list[1..])
  }

  lemma {:induction false} AddedRecipientsAppend(a: seq<string>, b: seq<string>)
    ensures AddedRecipients(a + b) == AddedRecipients(a) + AddedRecipients(b)
  {
    if a == [] {
      assert a + b == b;
    } else {
      assert (a + b)[1..] == a[1..] + b;
      AddedRecipientsAppend(a[1..], b);
    }
  }

  // ---------------------------------------------------------------------
  // The encoding of a message's addresses
  // ---------------------------------------------------------------------

  function AtSign(address: string): int { IndexOf(address, '@', 0) }

  predicate NonAsciiLocalPart(address: string) {
    AtSign(address) >= 0 && !IsAscii(address[..AtSign(address)])
  }

  predicate NonAsciiDomain(address: string) {
    AtSign(address) >= 0 && !IsAscii(address[AtSign(address) + 1..])
  }

  datatype Encoding = Encoding(smtputf8: bool, punycode: bool)

  /**
   * The flags as analyzeAddresses leaves them: the scan stops at the first
   * non-ASCII local part, so `punycode` only knows the addresses before it.
   */
  function Analysis(addresses: seq<string>): Encoding {
    Encoding(exists a | a in addresses :: NonAsciiLocalPart(a),
             exists i | 0 <= i < |addresses| :: NonAsciiDomain(addresses[i]) && NoLocalUpTo(addresses, i))
  }

  predicate NoLocalUpTo(addresses: seq<string>, i: nat)
    requires i < |addresses|
  {
    forall j | 0 <= j <= i :: !NonAsciiLocalPart(addresses[j])
  }

  /** addressForSmtp. */
  function AddressForSmtp(address: string, encoding: Encoding, ace: string -> Bytes): Bytes {
    if encoding.smtputf8 then ToUtf8(address)
    else if encoding.punycode then
      var at := AtSign(address);
      if at < 0 then ToUtf8(address)
      else ToUtf8(address[..at]) + ['@'] + ace(address[at + 1..])
    else ToUtf8(address)
  }

  /** Without a non-ASCII local part the scan sees every address. */
  lemma AnalysisWithoutLocal(addresses: seq<string>)
    requires !Analysis(addresses).smtputf8
    ensures Analysis(addresses).punycode <==> exists a | a in addresses :: NonAsciiDomain(a)
  {
    forall i | 0 <= i < |addresses| ensures NoLocalUpTo(addresses, i) {
    }
    if a :| a in addresses && NonAsciiDomain(a) {
      var i :| 0 <= i < |addresses| && addresses[i] == a;
      assert NonAsciiDomain(addresses[i]) && NoLocalUpTo(addresses, i);
    }
  }

  /**
   * The bytes sent for an address do not depend on the order of the addresses
   * (nor on repetitions), although the scan stops early.
   */
  lemma EncodingIgnoresOrder(these: seq<string>, those: seq<string>, address: string, ace: string -> Bytes)
    requires forall a :: a in these <==> a in those
    ensures Analysis(these).smtputf8 == Analysis(those).smtputf8
    ensures AddressForSmtp(address, Analysis(these), ace) == AddressForSmtp(address, Analysis(those), ace)
  {
    if !Analysis(these).smtputf8 {
      AnalysisWithoutLocal(these);
      AnalysisWithoutLocal(those);
    }
  }

  lemma AsciiParts(local: string, at: string, domain: string)
    requires IsAscii(at)
    ensures IsAscii(local + at + domain) <==> IsAscii(local) && IsAscii(domain)
  {
    AsciiAppend(local + at, domain);
    AsciiAppend(local, at);
  }

  lemma AsciiAddress(address: string)
    requires AtSign(address) >= 0
    ensures var at := AtSign(address); IsAscii(address) <==> IsAscii(address[..at]) && IsAscii(address[at + 1..])
  {
    var at := AtSign(address);
    assert address == address[..at] + ['@'] + address[at + 1..];
    AsciiParts(address[..at], ['@'], address[at + 1..]);
  }

  /**
   * When SMTPUTF8 is not needed, the address goes out in pure ASCII exactly when
   * it was ASCII or has an '@' (a non-ASCII address without '@' is in neither of
   * the scan's classes and goes out raw).
   */
  lemma AsciiOnTheWire(addresses: seq<string>, address: string, ace: string -> Bytes)
    requires address in addresses && !Analysis(addresses).smtputf8
    requires forall domain :: IsAscii(ace(domain))
    ensures IsAscii(AddressForSmtp(address, Analysis(addresses), ace)) <==> IsAscii(address) || '@' in address
  {
    var at := AtSign(address);
    AnalysisWithoutLocal(addresses);
    Utf8OfAscii(address);
    assert address[0..] == address;
    if at >= 0 {
      assert !NonAsciiLocalPart(address);
      AsciiAddress(address);
      AsciiPunycode(address[..at], address[at + 1..], ace);
    }
  }

  lemma AsciiPunycode(local: string, domain: string, ace: string -> Bytes)
    requires IsAscii(local) && IsAscii(ace(domain))
    ensures IsAscii(ToUtf8(local) + ['@'] + ace(domain))
  {
    Utf8OfAscii(local);
    AsciiParts(ToUtf8(local), ['@'], ace(domain));
  }

  /** When SMTPUTF8 is needed every address goes out as it is, in UTF-8. */
  lemma RawWithSmtpUtf8(addresses: seq<string>, local: string, domain: string, address: string, ace: string -> Bytes)
    requires '@' !in local && !IsAscii(local) && local + ['@'] + domain in addresses
    ensures AddressForSmtp(address, Analysis(addresses), ace) == ToUtf8(address)
  {
    var whole := local + ['@'] + domain;
    IndexOfIs(whole, '@', 0, |local|);
    assert whole[..|local|] == local;
    assert NonAsciiLocalPart(whole);
  }

  // ---------------------------------------------------------------------
  // What is sent
  // ---------------------------------------------------------------------

  /** The local part ends at the first '@'. */
  predicate HasParts(address: string, local: string, domain: string) {
    address == local + ['@'] + domain && '@' !in local
  }

  lemma PartsAre(address: string, local: string, domain: string)
    requires HasParts(address, local, domain)
    ensures AtSign(address) == |local| && address[..|local|] == local && address[|local| + 1..] == domain
  {
    IndexOfIs(address, '@', 0, |local|);
  }

  /** Some address has a local part that is not ASCII. */
  ghost predicate SomeLocal(addresses: seq<string>) {
    exists address, local, domain ::
      address in addresses && HasParts(address, local, domain) && !IsAscii(local)
  }

  ghost predicate SomeDomain(addresses: seq<string>) {
    exists address, local, domain ::
      address in addresses && HasParts(address, local, domain) && !IsAscii(domain)
  }

  lemma SplitAtSign(address: string)
    requires AtSign(address) >= 0
    ensures HasParts(address, address[..AtSign(address)], address[AtSign(address) + 1..])
  {
    var at := AtSign(address);
    assert address == address[..at] + ['@'] + address[at + 1..];
  }

  lemma PartsDecide(address: string, local: string, domain: string)
    requires HasParts(address, local, domain)
    ensures NonAsciiLocalPart(address) <==> !IsAscii(local)
    ensures NonAsciiDomain(address) <==> !IsAscii(domain)
  {
    PartsAre(address, local, domain);
  }

  lemma SomeLocalIs(addresses: seq<string>)
    ensures Analysis(addresses).smtputf8 <==> SomeLocal(addresses)
  {
    if a :| a in addresses && NonAsciiLocalPart(a) {
      SplitAtSign(a);
      assert HasParts(a, a[..AtSign(a)], a[AtSign(a) + 1..]);
    }
    if a, l, d :| a in addresses && HasParts(a, l, d) && !IsAscii(l) {
      PartsDecide(a, l, d);
    }
  }

  lemma SomeDomainIs(addresses: seq<string>)
    requires !Analysis(addresses).smtputf8
    ensures Analysis(addresses).punycode <==> SomeDomain(addresses)
  {
    AnalysisWithoutLocal(addresses);
    if a :| a in addresses && NonAsciiDomain(a) {
      HasSomeDomain(addresses, a);
    }
    if SomeDomain(addresses) {
      var a := HasNonAsciiDomain(addresses);
      assert a in addresses && NonAsciiDomain(a);
    }
  }

  lemma HasSomeDomain(addresses: seq<string>, a: string)
    requires a in addresses && NonAsciiDomain(a)
    ensures SomeDomain(addresses)
  {
    SplitAtSign(a);
    assert HasParts(a, a[..AtSign(a)], a[AtSign(a) + 1..]);
  }

  lemma HasNonAsciiDomain(addresses: seq<string>) returns (a: string)
    requires SomeDomain(addresses)
    ensures a in addresses && NonAsciiDomain(a)
  {
    var address, local, domain :| address in addresses && HasParts(address, local, domain) && !IsAscii(domain);
    PartsDecide(address, local, domain);
    a := address;
  }

  /**
   * What is sent for an address of the message, by its parts: its UTF-8 when some
   * local part is not ASCII; else, when some domain is not, the local part as it is
   * and the domain in its ASCII form; else the address as it is.
   */
  lemma SentAddress(addresses: seq<string>, address: string, local: string, domain: string, ace: string -> Bytes)
    requires address in addresses && HasParts(address, local, domain)
    ensures var sent := AddressForSmtp(address, Analysis(addresses), ace);
      if SomeLocal(addresses) then DecodeUtf8(sent) == Some(address)
      else if SomeDomain(addresses) then sent == local + ['@'] + ace(domain)
      else sent == address
  {
    var sent := AddressForSmtp(address, Analysis(addresses), ace);
    SomeLocalIs(addresses);
    PartsAre(address, local, domain);
    Utf8IsDecoded(address);
    if !SomeLocal(addresses) {
      SomeDomainIs(addresses);
      assert IsAscii(local) by {
        assert !NonAsciiLocalPart(address);
      }
      Utf8OfAscii(local);
      if !SomeDomain(addresses) {
        assert IsAscii(domain);
        AsciiParts(local, ['@'], domain);
        Utf8OfAscii(address);
      }
    }
  }

  /** An address without '@' is sent in UTF-8 whatever the others are, so as it is if it is ASCII. */
  lemma SentWithoutAt(addresses: seq<string>, address: string, ace: string -> Bytes)
    requires '@' !in address
    ensures var sent := AddressForSmtp(address, Analysis(addresses), ace);
      DecodeUtf8(sent) == Some(address) && (IsAscii(address) ==> sent == address)
  {
    Utf8IsDecoded(address);
    Utf8OfAscii(address);
    assert address[0..] == address;
  }

  /** Between ASCII addresses every one is sent as it is. */
  lemma AllAsciiSentAsTheyAre(addresses: seq<string>, address: string, ace: string -> Bytes)
    requires address in addresses && forall a :: a in addresses ==> IsAscii(a)
    ensures AddressForSmtp(address, Analysis(addresses), ace) == address
  {
    if AtSign(address) < 0 {
      assert address[0..] == address;
      SentWithoutAt(addresses, address, ace);
    } else {
      SplitAtSign(address);
      NoParts(addresses);
      SentAddress(addresses, address, address[..AtSign(address)], address[AtSign(address) + 1..], ace);
    }
  }

  lemma NoParts(addresses: seq<string>)
    requires forall a :: a in addresses ==> IsAscii(a)
    ensures !SomeLocal(addresses) && !SomeDomain(addresses)
  {
    forall a, l, d | a in addresses && HasParts(a, l, d) ensures IsAscii(l) && IsAscii(d) {
      AsciiParts(l, ['@'], d);
    }
  }

  /** setFrom and the brackets taken off again leave the address. */
  lemma ReturnPathHolds(from: string)
    ensures var path := ReturnPath(from); Mid(path, 1, |path| - 2) == BareAddress(from)
  {
    var path := ReturnPath(from);
    assert path[1..|path| - 1] == BareAddress(from);
  }
}
