/** Bytes, machine integers and the result types shared by every module. */
module Basics {

  datatype Option<+T> = None | Some(value: T)

  /** The outcome of reading at a position: a value and the position after it, or an error. */
  datatype Parsed<+T, +E> = Got(value: T, next: nat) | Bad(error: E) {
    predicate IsFailure() { Bad? }

    function PropagateFailure<U>(): Parsed<U, E>
      requires Bad?
    {
      Bad(error)
    }

    function Extract(): (T, nat)
      requires Got?
    {
      (value, next)
    }
  }

  type byte = b: int | 0 <= b < 256

  /** A byte buffer. A Rust `String` is a buffer for which `Utf8.Valid` holds. */
  type Bytes = seq<byte>

  const I64_MIN := -0x8000_0000_0000_0000
  const I64_MAX := 0x7fff_ffff_ffff_ffff
  const U64_MAX := 0xffff_ffff_ffff_ffff
  type i64 = n: int | I64_MIN <= n <= I64_MAX

  const CR: byte := 13
  const LF: byte := 10
  const CRLF: Bytes := [13, 10]

  /** The bytes of an ASCII literal. */
  function Ascii(s: string): Bytes {
    seq(|s|, i requires 0 <= i < |s| => if s[i] < 128 as char then s[i] as int else 63)
  }

  /** `str::replace` with a one-character pattern. */
  function Replace<T(==)>(s: seq<T>, c: T, with: seq<T>): seq<T> {
    if s == [] then [] else (if s[0] == c then with else [s[0]]) + Replace(s[1..], c, with)
  }

  lemma {:induction false} ReplaceConcat<T>(s: seq<T>, t: seq<T>, c: T, with: seq<T>)
    ensures Replace(s + t, c, with) == Replace(s, c, with) + Replace(t, c, with)
  {
    if s == [] {
      assert s + t == t;
    } else {
      ReplaceConcat(s[1..], t, c, with);
      assert (s + t)[1..] == s[1..] + t;
      var head := if s[0] == c then with else [s[0]];
      assert head + (Replace(s[1..], c, with) + Replace(t, c, with)) == head + Replace(s[1..], c, with) + Replace(t, c, with);
    }
  }

  function SetOf<T>(s: seq<T>): set<T> { set x | x in s }

  /** The items read so far and whatever the rest of the reading gives. */
  function Continued<T, E>(items: seq<T>, rest: Parsed<seq<T>, E>): Parsed<seq<T>, E> {
    match rest
    case Got(more, n) => Got(items + more, n)
    case Bad(e) => Bad(e)
  }

  lemma ContinuedStart<T, E>(r: Parsed<seq<T>, E>)
    ensures Continued([], r) == r
  {
    if r.Got? {
      assert [] + r.value == r.value;
    }
  }

  lemma ContinuedEnd<T, E>(items: seq<T>, n: nat)
    ensures Continued<T, E>(items, Got([], n)) == Got(items, n)
  {
    assert items + [] == items;
  }

  lemma ContinuedNext<T, E>(items: seq<T>, x: T, rest: Parsed<seq<T>, E>)
    ensures Continued(items, Continued([x], rest)) == Continued(items + [x], rest)
  {
    if rest.Got? {
      assert items + ([x] + rest.value) == items + [x] + rest.value;
    }
  }

  /** `e` lies in `b` at position `i`. */
  predicate At(b: Bytes, i: nat, e: Bytes) {
    i + |e| <= |b| && b[i..i + |e|] == e
  }

  lemma AtSplit(b: Bytes, i: nat, x: Bytes, y: Bytes)
    requires At(b, i, x + y)
    ensures At(b, i, x) && At(b, i + |x|, y)
  {
    var xy := b[i..i + |x + y|];
    assert b[i..i + |x|] == xy[..|x|] == x;
    assert b[i + |x|..i + |x| + |y|] == xy[|x|..] == y;
  }

  lemma AtHead(b: Bytes, i: nat, x: byte, y: Bytes)
    requires At(b, i, [x] + y)
    ensures i < |b| && b[i] == x && At(b, i + 1, y)
  {
    AtSplit(b, i, [x], y);
    assert b[i] == b[i..i + 1][0];
  }

  lemma PayloadAt(b: Bytes, i: nat, s: Bytes)
    requires At(b, i, s + CRLF)
    ensures i + |s| + 2 <= |b| && b[i..i + |s|] == s && b[i + |s|] == CR && b[i + |s| + 1] == LF
  {
    AtSplit(b, i, s, CRLF);
    assert CRLF == [CR] + ([LF] + []);
    AtHead(b, i + |s|, CR, [LF] + []);
    AtHead(b, i + |s| + 1, LF, []);
  }

  /** The `n` bytes of `b` from `i` and of `c` from `j` agree. */
  predicate Same(b: Bytes, i: nat, c: Bytes, j: nat, n: nat) {
    i + n <= |b| && j + n <= |c| && b[i..i + n] == c[j..j + n]
  }

  lemma SameByte(b: Bytes, i: nat, c: Bytes, j: nat, n: nat, off: nat)
    requires Same(b, i, c, j, n) && off < n
    ensures i + off < |b| && j + off < |c| && b[i + off] == c[j + off]
  {
    assert b[i + off] == b[i..i + n][off] && c[j + off] == c[j..j + n][off];
  }

  lemma SamePart(b: Bytes, i: nat, c: Bytes, j: nat, n: nat, off: nat, m: nat)
    requires Same(b, i, c, j, n) && off + m <= n
    ensures i + n <= |b| && j + n <= |c|
    ensures Same(b, i + off, c, j + off, m)
    ensures b[i + off..i + off + m] == c[j + off..j + off + m]
  {
    var x, y := b[i + off..i + off + m], c[j + off..j + off + m];
    forall p | 0 <= p < m
      ensures x[p] == y[p]
    {
      SameByte(b, i, c, j, n, off + p);
    }
    assert x == y;
  }

  /** The first line feed at or after `i`, or the end of the buffer. */
  function FindLf(b: Bytes, i: nat): (j: nat)
    requires i <= |b|
    ensures i <= j <= |b|
    ensures j < |b| ==> b[j] == LF
    ensures forall k :: i <= k < j ==> b[k] != LF
    decreases |b| - i
  {
    if i == |b| || b[i] == LF then i else FindLf(b, i + 1)
  }

  lemma {:induction false} FindLfSame(b: Bytes, i: nat, c: Bytes, j: nat, n: nat)
    requires i <= |b| && j <= |c| && FindLf(b, i) < i + n && Same(b, i, c, j, n)
    ensures FindLf(c, j) == j + (FindLf(b, i) - i)
    decreases |b| - i
  {
    SameByte(b, i, c, j, n, 0);
    if b[i] != LF {
      SamePart(b, i, c, j, n, 1, n - 1);
      FindLfSame(b, i + 1, c, j + 1, n - 1);
    }
  }
}
