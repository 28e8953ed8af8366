/** Octets and the two searches the whole library is built on: the first
    occurrence of one octet (`std::find`, `memchr`) and the first CRLF (`std::search`). */
module Bytes {

  type byte = c: char | c as int < 256 witness '\0'

  type bytes = seq<byte>

  const CRLF: bytes := "\r\n"

  datatype Option<+T> = None | Some(value: T)

  function Max(a: int, b: int): int {
    if a < b then b else a
  }

  /** The index of the first `c` in `s`, or `|s|`, as `std::find` returns its end iterator. */
  function Find(s: bytes, c: byte): (i: nat)
    ensures i <= |s|
    ensures i < |s| ==> s[i] == c
    ensures forall j :: 0 <= j < i ==> s[j] != c
  {
    FindFrom(s, c, 0)
  }

  function FindFrom(s: bytes, c: byte, from: nat): (i: nat)
    requires from <= |s|
    ensures from <= i <= |s|
    ensures i < |s| ==> s[i] == c
    ensures forall j :: from <= j < i ==> s[j] != c
    decreases |s| - from
  {
    if from == |s| || s[from] == c then from else FindFrom(s, c, from + 1)
  }

  predicate CRLFAt(s: bytes, i: int) {
    0 <= i && i + 1 < |s| && s[i] == '\r' && s[i + 1] == '\n'
  }

  predicate NoCRLF(s: bytes) {
    forall i :: 0 <= i < |s| ==> !CRLFAt(s, i)
  }

  /** The offset of the first CRLF of `s`. */
  function FindCRLF(s: bytes): (r: Option<nat>)
    ensures r.Some? ==> CRLFAt(s, r.value) && forall j :: 0 <= j < r.value ==> !CRLFAt(s, j)
    ensures r.None? ==> forall j :: 0 <= j < |s| ==> !CRLFAt(s, j)
  {
    FindCRLFFrom(s, 0)
  }

  function FindCRLFFrom(s: bytes, from: nat): (r: Option<nat>)
    requires from <= |s|
    ensures r.Some? ==> from <= r.value && CRLFAt(s, r.value) && forall j :: from <= j < r.value ==> !CRLFAt(s, j)
    ensures r.None? ==> forall j :: from <= j < |s| ==> !CRLFAt(s, j)
    decreases |s| - from
  {
    if from == |s| then None
    else if CRLFAt(s, from) then Some(from)
    else FindCRLFFrom(s, from + 1)
  }

  /** What is found in a prefix of the input is still found, at the same place, once more input arrives. */
  lemma FindCRLFStable(s: bytes, more: bytes)
    requires FindCRLF(s).Some?
    ensures FindCRLF(s + more) == FindCRLF(s)
  {
    var i := FindCRLF(s).value;
    assert CRLFAt(s + more, i);
    assert forall j :: 0 <= j < i ==> (CRLFAt(s + more, j) <==> CRLFAt(s, j));
  }

  lemma FindCRLFInPrefix(s: bytes, n: nat)
    requires n <= |s| && FindCRLF(s).Some? && FindCRLF(s).value + 2 <= n
    ensures FindCRLF(s[..n]) == FindCRLF(s)
  {
    var i := FindCRLF(s).value;
    assert CRLFAt(s[..n], i);
    assert forall j :: 0 <= j < i ==> (CRLFAt(s[..n], j) <==> CRLFAt(s, j));
  }

  /** A CRLF-free line ends at the CRLF written after it, whatever follows. */
  lemma FindCRLFAfterLine(line: bytes, rest: bytes)
    requires NoCRLF(line)
    ensures FindCRLF(line + CRLF + rest) == Some(|line|)
  {
    var s := line + CRLF + rest;
    assert CRLFAt(s, |line|);
    forall j | 0 <= j < |line| ensures !CRLFAt(s, j) {
      assert !CRLFAt(line, j);
      assert s[j] == line[j];
      assert j + 1 < |line| ==> s[j + 1] == line[j + 1];
    }
  }

  lemma NothingMore(a: bytes)
    ensures a + [] == a && [] + a == a
  {
  }

  lemma Assoc(a: bytes, b: bytes, c: bytes)
    ensures a + (b + c) == (a + b) + c
  {
  }

  lemma Join(o: bytes, a: bytes, b: bytes, c: bytes, d: bytes)
    ensures o + a + b + c + d == o + (a + b + c + d)
  {
  }

  /** What `Buffer::append(StringPiece)` appends: `StringPiece` keeps the length in a
      32-bit `int`, so only the length modulo 2^32 survives. */
  const INT_RANGE: nat := 0x1_0000_0000

  predicate PieceLengthValid(n: nat) {
    n % INT_RANGE < INT_RANGE / 2
  }

  function Piece(s: bytes): (r: bytes)
    ensures PieceLengthValid(|s|) ==> (r == s <==> |s| < 0x8000_0000)
    ensures |s| < 0x8000_0000 ==> r == s && PieceLengthValid(|s|)
  {
    s[..|s| % INT_RANGE]
  }
}
