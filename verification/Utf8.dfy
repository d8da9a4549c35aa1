/** Text as the bytes of its UTF-8 encoding, well-formed as section 4 of RFC 3629 has it. */
module Utf8 {

  type byte = b: int | 0 <= b < 256

  predicate IsContinuation(b: byte) {
    0x80 <= b < 0xC0
  }

  /** The length of the character `t` begins with, or 0 if it begins with none. */
  function CharLength(t: seq<byte>): nat {
    if |t| >= 1 && t[0] < 0x80 then 1
    else if |t| >= 2 && 0xC2 <= t[0] < 0xE0 && IsContinuation(t[1]) then 2
    else if |t| >= 3 && 0xE0 <= t[0] < 0xF0 && IsContinuation(t[1]) && IsContinuation(t[2]) &&
            (t[0] == 0xE0 ==> t[1] >= 0xA0) && (t[0] == 0xED ==> t[1] < 0xA0) then 3
    else if |t| >= 4 && 0xF0 <= t[0] < 0xF5 && IsContinuation(t[1]) && IsContinuation(t[2]) && IsContinuation(t[3]) &&
            (t[0] == 0xF0 ==> t[1] >= 0x90) && (t[0] == 0xF4 ==> t[1] < 0x90) then 4
    else 0
  }

  predicate Valid(t: seq<byte>) {
    t == [] || (CharLength(t) > 0 && Valid(t[CharLength(t)..]))
  }

  /** str::is_char_boundary: where a slice of a text may begin or end. */
  predicate Boundary(t: seq<byte>, i: nat) {
    i <= |t| && (i == 0 || i == |t| || !IsContinuation(t[i]))
  }

  /** A character written in one byte ends where the next begins. */
  lemma {:induction false} AsciiEndsAtBoundary(t: seq<byte>, i: nat)
    requires Valid(t) && i < |t| && t[i] < 0x80
    ensures Boundary(t, i) && Boundary(t, i + 1)
  {
    var n := CharLength(t);
    if i >= n {
      AsciiEndsAtBoundary(t[n..], i - n);
    } else {
      assert i == 0 && n == 1;
    }
  }

  /** Cutting a text at a boundary leaves two texts. */
  lemma {:induction false} ValidCut(t: seq<byte>, i: nat)
    requires Valid(t) && Boundary(t, i)
    ensures Valid(t[..i]) && Valid(t[i..])
  {
    if i == 0 {
      assert t[0..] == t;
    } else {
      var n := CharLength(t);
      assert i >= n;
      ValidCut(t[n..], i - n);
      assert t[n..][..i - n] == t[..i][n..] && t[n..][i - n..] == t[i..];
      assert CharLength(t[..i]) == n;
    }
  }

  lemma {:induction false} ValidJoin(a: seq<byte>, b: seq<byte>)
    requires Valid(a) && Valid(b)
    ensures Valid(a + b)
  {
    if a == [] {
      assert a + b == b;
    } else {
      var n := CharLength(a);
      assert (a + b)[n..] == a[n..] + b;
      ValidJoin(a[n..], b);
    }
  }

  lemma BoundaryOfRest(t: seq<byte>, i: nat, j: nat)
    requires Boundary(t, i) && i <= j && Boundary(t, j)
    ensures Boundary(t[i..], j - i)
  {
  }

  /** A slice of a text is a text, if it is cut at boundaries: taking it at any other place panics. */
  function Slice(t: seq<byte>, from: nat, to: nat): (r: seq<byte>)
    requires Valid(t) && from <= to && Boundary(t, from) && Boundary(t, to)
    ensures Valid(r)
  {
    ValidCut(t, from);
    BoundaryOfRest(t, from, to);
    ValidCut(t[from..], to - from);
    assert t[from..][..to - from] == t[from..to];
    t[from..to]
  }

  function AsciiByte(c: char): byte
    requires c < 128 as char
  {
    c as int
  }

  /** String::push_str. */
  function Push(out: seq<byte>, more: seq<byte>): (r: seq<byte>)
    requires Valid(out) && Valid(more)
    ensures r == out + more && Valid(r)
  {
    ValidJoin(out, more);
    out + more
  }

  predicate IsLetter(b: byte) {
    'a' as int <= b <= 'z' as int || 'A' as int <= b <= 'Z' as int
  }

  predicate IsDigit(b: byte) {
    '0' as int <= b <= '9' as int
  }

  /** u8::is_ascii_alphanumeric. */
  predicate IsAlphanumeric(b: byte) {
    IsLetter(b) || IsDigit(b)
  }

  /** The bytes of a text of ASCII characters. */
  function Ascii(s: string): (t: seq<byte>)
    requires forall c :: c in s ==> c < 128 as char
    ensures |t| == |s| && forall i :: 0 <= i < |t| ==> t[i] == s[i] as int
  {
    seq(|s|, i requires 0 <= i < |s| => assert s[i] in s; AsciiByte(s[i]))
  }
}
