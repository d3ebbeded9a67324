/**
 * Byte arrays and character strings, with the few Qt operations the client
 * uses on them.
 *
 * A byte is written as the character of the same value, so a QByteArray is a
 * sequence of characters. No statement of this project depends on the values
 * stopping at 255: each holds for every alphabet that contains the bytes.
 */
module ByteArrays {

  type Bytes = seq<char>

  datatype Option<+T> = None | Some(value: T)

  const CRLF: Bytes := "\r\n"

  /** The position of the first `c` in `s` at or after `from`, or -1 (indexOf). */
  function IndexOf(s: seq<char>, c: char, from: nat): (i: int)
    requires from <= |s|
    ensures i == -1 || from <= i < |s|
    ensures 0 <= i ==> s[i] == c && forall k :: from <= k < i ==> s[k] != c
    ensures i == -1 <==> c !in s[from..]
    decreases |s| - from
  {
    if from == |s| then -1
    else if s[from] == c then from
    else
      assert s[from..] == [s[from]] + s[from + 1..];
      IndexOf(s, c, from + 1)
  }

  /** QString::mid: `n` characters from `pos`; a negative `n` means "to the end". */
  function Mid(s: seq<char>, pos: nat, n: int): seq<char> {
    if pos > |s| then []
    else if n < 0 || n > |s| - pos then s[pos..]
    else s[pos..pos + n]
  }

  /** QByteArray::truncate: drop everything from position `n` on. */
  function Truncate(s: Bytes, n: nat): Bytes {
    if n < |s| then s[..n] else s
  }

  /** QByteArray::remove(0, n): drop the first `n` bytes. */
  function RemoveFirst(s: Bytes, n: nat): Bytes {
    if n < |s| then s[n..] else []
  }

  /** The concatenation of a list of byte arrays. */
  function Concat(parts: seq<Bytes>): Bytes {
    if parts == [] then [] else parts[0] + Concat(parts[1..])
  }

  lemma {:induction false} ConcatAppend(a: seq<Bytes>, b: seq<Bytes>)
    ensures Concat(a + b) == Concat(a) + Concat(b)
  {
    if a == [] {
      assert a + b == b;
    } else {
      assert (a + b)[1..] == a[1..] + b;
      ConcatAppend(a[1..], b);
    }
  }

  /** QByteArray::replace: left to right, occurrences do not overlap. */
  function Replace(s: Bytes, before: Bytes, after: Bytes): Bytes
    requires before != []
  {
    if s == [] then []
    else if before <= s then after + Replace(s[|before|..], before, after)
    else [s[0]] + Replace(s[1..], before, after)
  }

  /** How many occurrences `Replace` replaces. */
  function Occurrences(s: Bytes, pattern: Bytes): nat
    requires pattern != []
  {
    if s == [] then 0
    else if pattern <= s then 1 + Occurrences(s[|pattern|..], pattern)
    else Occurrences(s[1..], pattern)
  }

  /** QByteArray::split(' '). */
  function Split(s: Bytes): seq<Bytes>
    decreases |s|
  {
    var i := IndexOf(s, ' ', 0);
    if i < 0 then [s] else [s[..i]] + Split(s[i + 1..])
  }

  predicate IsAscii(s: seq<char>) {
    forall i :: 0 <= i < |s| ==> s[i] as int <= 127
  }
}
