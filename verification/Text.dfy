/** Byte strings as Rust's `String` holds them: UTF-8 code units, so that every
    length and every offset below is a number of bytes. */
module Text {
  newtype byte = b: int | 0 <= b < 256

  type Text = seq<byte>

  datatype Option<+T> = None | Some(value: T) {
    predicate IsFailure() { None? }

    function PropagateFailure<U>(): Option<U>
      requires None?
    {
      None
    }

    function Extract(): T
      requires Some?
    {
      value
    }
  }

  /** The bytes of an ASCII literal. */
  function Ascii(s: string): (t: Text)
    requires forall i | 0 <= i < |s| :: s[i] < 128 as char
    ensures |t| == |s|
  {
    seq(|s|, i requires 0 <= i < |s| => s[i] as int as byte)
  }

  /** Decimal rendering of a natural number. */
  function Decimal(n: nat): (t: Text)
    ensures |t| >= 1
    ensures forall i | 0 <= i < |t| :: 48 <= t[i] <= 57
  {
    if n < 10 then [(48 + n) as byte] else Decimal(n / 10) + [(48 + n % 10) as byte]
  }

  function Pow10(k: nat): nat {
    if k == 0 then 1 else 10 * Pow10(k - 1)
  }

  lemma {:induction false} DecimalWidth(n: nat, k: nat)
    requires k >= 1 && n < Pow10(k)
    ensures |Decimal(n)| <= k
  {
    if n >= 10 {
      assert k > 1;
      DecimalWidth(n / 10, k - 1);
    }
  }

  lemma {:induction false} DecimalWide(n: nat, k: nat)
    requires n >= Pow10(k)
    ensures |Decimal(n)| > k
  {
    if k > 0 {
      DecimalWide(n / 10, k - 1);
    }
  }

  lemma {:induction false} DecimalInjective(m: nat, n: nat)
    requires Decimal(m) == Decimal(n)
    ensures m == n
  {
    var s, t := Decimal(m), Decimal(n);
    assert s[|s| - 1] == t[|t| - 1];
    if m >= 10 && n >= 10 {
      assert s[..|s| - 1] == Decimal(m / 10) && t[..|t| - 1] == Decimal(n / 10);
      DecimalInjective(m / 10, n / 10);
    }
  }

  lemma {:induction false} Associative<T>(a: seq<T>, b: seq<T>, c: seq<T>)
    ensures a + (b + c) == a + b + c
  {
  }

  // ---------------------------------------------------------------- UTF-8

  predicate Continuation(b: byte) { 0x80 <= b < 0xC0 }

  /** Length of the character at the front of `s`, or 0 when no well-formed
      character stands there (the table of section 4 of RFC 3629). */
  function CharLen(s: Text): (n: nat)
    requires s != []
    ensures n <= |s|
  {
    var a := s[0];
    if a < 0x80 then 1
    else if 0xC2 <= a < 0xE0 then
      if |s| >= 2 && Continuation(s[1]) then 2 else 0
    else if 0xE0 <= a < 0xF0 then
      if |s| >= 3 && Continuation(s[1]) && Continuation(s[2])
         && (a == 0xE0 ==> s[1] >= 0xA0) && (a == 0xED ==> s[1] < 0xA0) then 3 else 0
    else if 0xF0 <= a < 0xF5 then
      if |s| >= 4 && Continuation(s[1]) && Continuation(s[2]) && Continuation(s[3])
         && (a == 0xF0 ==> s[1] >= 0x90) && (a == 0xF4 ==> s[1] < 0x90) then 4 else 0
    else 0
  }

  predicate Utf8(s: Text) {
    s == [] || (CharLen(s) > 0 && Utf8(s[CharLen(s)..]))
  }

  /** `str::is_char_boundary`. */
  predicate Boundary(s: Text, i: nat) {
    i == 0 || i == |s| || (i < |s| && !Continuation(s[i]))
  }

  lemma {:induction false} Utf8Concat(a: Text, b: Text)
    requires Utf8(a) && Utf8(b)
    ensures Utf8(a + b)
  {
    hide CharLen;
    if a == [] {
      assert a + b == b;
    } else {
      var n := CharLen(a);
      CharLenConcat(a, b);
      Utf8Concat(a[n..], b);
      assert (a + b)[n..] == a[n..] + b;
    }
  }

  lemma {:induction false} CharLenConcat(a: Text, b: Text)
    requires a != [] && CharLen(a) > 0
    ensures CharLen(a + b) == CharLen(a)
  {
    assert forall i | 0 <= i < |a| :: (a + b)[i] == a[i];
  }

  /** Only continuation bytes stand inside a character, and a cut behind it leaves it whole. */
  lemma {:induction false} CharKept(s: Text, i: nat)
    requires s != [] && CharLen(s) > 0 && 0 < i <= |s|
    ensures i < CharLen(s) ==> Continuation(s[i])
    ensures CharLen(s) <= i ==> CharLen(s[..i]) == CharLen(s)
  {
  }

  /** Cutting a well-formed string at a character boundary leaves two well-formed strings. */
  lemma {:induction false} Utf8Cut(s: Text, i: nat)
    requires Utf8(s) && i <= |s| && Boundary(s, i)
    ensures Utf8(s[..i]) && Utf8(s[i..])
  {
    hide CharLen;
    if i == 0 {
      assert s[..0] == [] && s[0..] == s;
    } else {
      var n := CharLen(s);
      CharKept(s, i);
      Utf8Cut(s[n..], i - n);
      assert s[n..][i - n..] == s[i..];
      assert s[n..][..i - n] == s[..i][n..];
    }
  }

  /** The greatest boundary at or below `i`. */
  function FloorBoundary(s: Text, i: nat): (k: nat)
    requires i <= |s|
    ensures k <= i && Boundary(s, k)
  {
    if Boundary(s, i) then i else FloorBoundary(s, i - 1)
  }

  /** The least boundary at or above `i`. */
  function CeilBoundary(s: Text, i: nat): (k: nat)
    requires i <= |s|
    ensures i <= k <= |s| && Boundary(s, k)
    decreases |s| - i
  {
    if Boundary(s, i) then i else CeilBoundary(s, i + 1)
  }

  lemma {:induction false} FloorIsGreatest(s: Text, i: nat, j: nat)
    requires j <= i <= |s| && Boundary(s, j)
    ensures j <= FloorBoundary(s, i)
  {
    if !Boundary(s, i) {
      FloorIsGreatest(s, i - 1, j);
    }
  }

  lemma {:induction false} CeilIsLeast(s: Text, i: nat, j: nat)
    requires i <= j <= |s| && Boundary(s, j)
    ensures CeilBoundary(s, i) <= j
    decreases |s| - i
  {
    if !Boundary(s, i) {
      CeilIsLeast(s, i + 1, j);
    }
  }

  method FloorCharBoundary(s: Text, start: nat) returns (i: nat)
    requires start <= |s|
    ensures i == FloorBoundary(s, start)
  {
    i := start;
    while i > 0 && !Boundary(s, i)
      invariant i <= start && FloorBoundary(s, i) == FloorBoundary(s, start)
    {
      i := i - 1;
    }
  }

  method CeilCharBoundary(s: Text, start: nat) returns (i: nat)
    requires start <= |s|
    ensures i == CeilBoundary(s, start)
  {
    i := start;
    while i < |s| && !Boundary(s, i)
      invariant start <= i <= |s| && CeilBoundary(s, i) == CeilBoundary(s, start)
    {
      i := i + 1;
    }
  }

  /** Every window of four consecutive offsets of a well-formed string holds a boundary. */
  lemma {:induction false} BoundaryWithinFour(s: Text, i: nat)
    requires Utf8(s) && i + 3 <= |s|
    ensures Boundary(s, i) || Boundary(s, i + 1) || Boundary(s, i + 2) || Boundary(s, i + 3)
  {
    if i != 0 {
      var n := CharLen(s);
      if i >= n {
        BoundaryWithinFour(s[n..], i - n);
      }
    }
  }
}
