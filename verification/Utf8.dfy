/** Byte positions in text: the widths of characters in UTF-8, as in section 3 of RFC 3629. */
module Utf8 {
  import opened Wrappers

  /** Slicing a text at a byte that begins no character, or behind its end, stops the program. */
  datatype Outcome<T> = Done(value: T) | Panic

  function Width(c: char): (w: nat)
    ensures 1 <= w <= 4
  {
    var n := c as int;
    if n < 0x80 then 1 else if n < 0x800 then 2 else if n < 0x1_0000 then 3 else 4
  }

  /** The bytes of a character: a lead byte that tells their number, and six bits in each of the others. */
  function Encoded(c: char): seq<nat> {
    var n := c as int;
    if n <= 0x7F then [n]
    else if n <= 0x7FF then [0xC0 + n / 0x40, 0x80 + n % 0x40]
    else if n <= 0xFFFF then [0xE0 + n / 0x1000, 0x80 + n / 0x40 % 0x40, 0x80 + n % 0x40]
    else [0xF0 + n / 0x4_0000, 0x80 + n / 0x1000 % 0x40, 0x80 + n / 0x40 % 0x40, 0x80 + n % 0x40]
  }

  lemma WidthIsEncodedLength(c: char)
    ensures Width(c) == |Encoded(c)|
    ensures forall b | b in Encoded(c) :: b < 0x100
  {
  }

  function ByteLength(s: string): nat {
    if s == "" then 0 else Width(s[0]) + ByteLength(s[1..])
  }

  predicate IsAscii(s: string) {
    forall c | c in s :: Width(c) == 1
  }

  /** The number of characters in the first `n` bytes, if these end at the end of one. */
  function Boundary(s: string, n: nat): (k: Option<nat>)
    ensures k.Some? ==> k.value <= |s| && k.value <= n && (n > 0 ==> k.value > 0)
  {
    if n == 0 then Some(0)
    else if s == "" || Width(s[0]) > n then None
    else match Boundary(s[1..], n - Width(s[0]))
      case None => None
      case Some(k) => Some(k + 1)
  }

  function TakeBytes(s: string, n: nat): Outcome<string> {
    match Boundary(s, n)
    case None => Panic
    case Some(k) => Done(s[..k])
  }

  lemma TakeNext(s: string, k: nat)
    requires s != "" && k < |s|
    ensures s[..k + 1] == [s[0]] + s[1..][..k]
  {
  }

  /** A boundary is where it should be: so many bytes, in so many characters. */
  lemma {:induction false} BoundaryIff(s: string, n: nat, k: nat)
    requires k <= |s|
    ensures Boundary(s, n) == Some(k) <==> ByteLength(s[..k]) == n
  {
    if k > 0 {
      TakeNext(s, k - 1);
      assert ByteLength(s[..k]) == Width(s[0]) + ByteLength(s[1..][..k - 1]);
      if Width(s[0]) <= n {
        BoundaryIff(s[1..], n - Width(s[0]), k - 1);
      }
    }
  }

  lemma {:induction false} ByteLengthAppend(s: string, t: string)
    ensures ByteLength(s + t) == ByteLength(s) + ByteLength(t)
  {
    if s == "" {
      assert s + t == t;
    } else {
      ByteLengthAppend(s[1..], t);
      assert (s + t)[1..] == s[1..] + t;
    }
  }

  /** A text has as many bytes as characters exactly when it is ASCII. */
  lemma {:induction false} AsciiIff(s: string)
    ensures ByteLength(s) >= |s|
    ensures ByteLength(s) == |s| <==> IsAscii(s)
  {
    if s != "" {
      AsciiIff(s[1..]);
      assert s == [s[0]] + s[1..];
    }
  }

  /** The first `n` bytes are the first `n` characters exactly when these are ASCII. */
  lemma TakeBytesIff(s: string, n: nat)
    requires n <= |s|
    ensures TakeBytes(s, n) == Done(s[..n]) <==> IsAscii(s[..n])
    ensures Boundary(s, n) == Some(n) <==> IsAscii(s[..n])
  {
    BoundaryIff(s, n, n);
    AsciiIff(s[..n]);
    var b := Boundary(s, n);
    if b.Some? && s[..b.value] == s[..n] {
      assert b.value == |s[..b.value]| == |s[..n]| == n;
    }
  }
}
