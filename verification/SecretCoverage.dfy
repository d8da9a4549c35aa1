/** Which values of a text are masked, said of the text itself. */
module SecretCoverage {
  import opened Wrappers
  import opened Utf8
  import opened SecretMask

  type Range = (nat, nat)

  /** Key `k` stands in the text from `f` to `e`. */
  predicate KeyAt(t: seq<byte>, k: nat, f: nat, e: nat) {
    k < |SECRET_KEYS| && f + |SECRET_KEYS[k]| == e && Ends(Lower(t), SECRET_KEYS[k], 0, e)
  }

  predicate Within(i: nat, range: Range) {
    range.0 <= i < range.1
  }

  predicate Covers(outer: Range, inner: Range) {
    outer.0 <= inner.0 && inner.1 <= outer.1
  }

  lemma KeyIsLetters(t: seq<byte>, k: nat, f: nat, e: nat)
    requires KeyAt(t, k, f, e)
    ensures f < e <= |t| && KeyEndsAt(t, e)
    ensures forall i :: f <= i < e ==> IsLetter(t[i]) && IsNamePart(t[i])
  {
    hide SECRET_KEYS;
    KeysAreLetters(k);
    var key := SECRET_KEYS[k];
    forall i | f <= i < e ensures IsLetter(t[i]) && IsNamePart(t[i]) {
      assert Lower(t)[i] == Lower(t)[f..e][i - f];
    }
  }

  lemma KeyIsFoundFrom(t: seq<byte>, from: nat, k: nat, f: nat, e: nat)
    requires KeyAt(t, k, f, e) && from <= f
    ensures OneEnds(Lower(t), SECRET_KEYS, from, e)
    ensures NextSecretKeyEnd(Lower(t), from).Some? && NextSecretKeyEnd(Lower(t), from).value <= e
  {
    hide SECRET_KEYS;
    assert Ends(Lower(t), SECRET_KEYS[k], from, e);
  }

  /** No letter stands right before a value, or right after it. */
  lemma NoLetterAtEdges(t: seq<byte>, e: nat)
    requires e <= |t| && ValueRange(t, e).Some?
    ensures var (start, end) := ValueRange(t, e).value;
      !IsLetter(t[start - 1]) && (end < |t| ==> !IsLetter(t[end]))
  {
    var q := SeparatorAfter(t, e);
    var r := Skip(t, q + 1, IsSpace);
    var start := ValueRange(t, e).value.0;
    assert q < r && (start == r || start == r + 1);
    if start == r && r > q + 1 {
      assert IsSpace(t[start - 1]);
    }
  }

  /** A key that begins before the value of another one, and not before that, is in its name. */
  lemma KeyInName(t: seq<byte>, e: nat, k: nat, f: nat, e': nat)
    requires e <= e' && KeyAt(t, k, f, e') && ValueRange(t, e).Some? && f < ValueRange(t, e).value.0
    ensures e' <= |t| && ValueRange(t, e') == ValueRange(t, e)
  {
    hide SECRET_KEYS, ValueRange;
    KeyIsLetters(t, k, f, e');
    var start := ValueRange(t, e).value.0;
    NoLetterAtEdges(t, e);
    assert e' < start;
    if e < e' {
      NameBeforeValue(t, e, start, e' - 1);
    }
    SameName(t, e, e');
  }

  /** From where the scan is, a key that begins outside the values it masks has no value or has it masked. */
  lemma {:induction false} KeyAheadIsMasked(t: seq<byte>, from: nat, k: nat, f: nat, e: nat)
    requires KeyAt(t, k, f, e) && from <= f <= |t|
    requires forall r :: r in MaskedRanges(t, from) ==> !Within(f, r)
    ensures e <= |t| && (ValueRange(t, e) == None || ValueRange(t, e).value in MaskedRanges(t, from))
    decreases |t| - from
  {
    hide SECRET_KEYS, ValueRange, MaskedRanges, KeyAt;
    KeyIsLetters(t, k, f, e);
    KeyIsFoundFrom(t, from, k, f, e);
    RangesUnfold(t, from);
    var first := NextSecretKeyEnd(Lower(t), from).value;
    if ValueRange(t, first) == None {
      if first <= f {
        KeyAheadIsMasked(t, first, k, f, e);
      } else {
        SameName(t, first, e);
      }
    } else {
      var range := ValueRange(t, first).value;
      assert range in MaskedRanges(t, from);
      if range.1 <= f {
        KeyAheadIsMasked(t, range.1, k, f, e);
      } else {
        assert f < range.0;
        KeyInName(t, first, k, f, e);
      }
    }
  }

  /** A key that does not begin inside a value that is masked has no value, or its value is masked. */
  lemma KeyOutsideIsMasked(t: seq<byte>, k: nat, f: nat, e: nat)
    requires KeyAt(t, k, f, e)
    requires forall r :: r in MaskedRanges(t, 0) ==> !Within(f, r)
    ensures e <= |t| && (ValueRange(t, e) == None || ValueRange(t, e).value in MaskedRanges(t, 0))
  {
    KeyIsLetters(t, k, f, e);
    KeyAheadIsMasked(t, 0, k, f, e);
  }

  // ----- keys inside values -----

  /** What is masked from a place on is the value of a key that begins there or later. */
  ghost predicate IsBehind(t: seq<byte>, from: nat, range: Range) {
    exists k: nat, f: nat, e: nat :: KeyAt(t, k, f, e) && from <= f && e <= |t| && ValueRange(t, e) == Some(range)
  }

  lemma {:induction false} RangesAreBehind(t: seq<byte>, from: nat, range: Range)
    requires from <= |t| && range in MaskedRanges(t, from)
    ensures IsBehind(t, from, range)
    decreases |t| - from
  {
    hide SECRET_KEYS, ValueRange, MaskedRanges, KeyAt;
    RangesUnfold(t, from);
    var e := NextSecretKeyEnd(Lower(t), from).value;
    var k, f := FoundKey(t, from, e);
    if ValueRange(t, e) != Some(range) {
      var next := if ValueRange(t, e) == None then e else ValueRange(t, e).value.1;
      RangesAreBehind(t, next, range);
      var k': nat, f': nat, e': nat :| KeyAt(t, k', f', e') && next <= f' && e' <= |t| && ValueRange(t, e') == Some(range);
    }
  }

  lemma FoundKey(t: seq<byte>, from: nat, e: nat) returns (k: nat, f: nat)
    requires from <= |t| && NextSecretKeyEnd(Lower(t), from) == Some(e)
    ensures KeyAt(t, k, f, e) && from <= f
  {
    hide SECRET_KEYS;
    k :| 0 <= k < |SECRET_KEYS| && Ends(Lower(t), SECRET_KEYS[k], from, e);
    f := e - |SECRET_KEYS[k]|;
  }

  lemma OneMoreInFront(range: Range, rest: seq<Range>)
    ensures ([range] + rest)[1..] == rest
    ensures forall i :: 0 < i <= |rest| ==> ([range] + rest)[i..] == rest[i - 1..]
    ensures forall i :: 0 < i <= |rest| ==> ([range] + rest)[i] == rest[i - 1]
  {
  }

  /** Behind a value that is masked the scan goes on at its end; what was masked before ends before it. */
  lemma {:induction false} ScanGoesOn(t: seq<byte>, from: nat, i: nat)
    requires from <= |t| && i < |MaskedRanges(t, from)|
    ensures var ranges := MaskedRanges(t, from);
      && from < ranges[i].0 < ranges[i].1 <= |t|
      && ranges[i + 1..] == MaskedRanges(t, ranges[i].1)
      && forall j :: 0 <= j < i ==> ranges[j].1 < ranges[i].0
    decreases |t| - from
  {
    hide SECRET_KEYS, ValueRange, MaskedRanges;
    RangesUnfold(t, from);
    var e := NextSecretKeyEnd(Lower(t), from).value;
    if ValueRange(t, e) == None {
      ScanGoesOn(t, e, i);
    } else {
      var range := ValueRange(t, e).value;
      OneMoreInFront(range, MaskedRanges(t, range.1));
      if i > 0 {
        ScanGoesOn(t, range.1, i - 1);
      }
    }
  }

  /** Between a key and its value there is one separator. */
  lemma OneSeparator(t: seq<byte>, e: nat, i: nat)
    requires e <= |t| && ValueRange(t, e).Some? && e <= i < ValueRange(t, e).value.0
    ensures IsSeparator(t[i]) <==> i == SeparatorAfter(t, e)
  {
    hide QuoteEnd;
    var p, q := Skip(t, e, IsNamePart), SeparatorAfter(t, e);
    var r := Skip(t, q + 1, IsSpace);
  }

  lemma SeparatorIsBefore(t: seq<byte>, e: nat)
    requires e <= |t| && ValueRange(t, e).Some?
    ensures e <= SeparatorAfter(t, e) < ValueRange(t, e).value.0 && IsSeparator(t[SeparatorAfter(t, e)])
  {
  }

  /** A key that begins inside a value ends inside it. */
  lemma KeyEndsInside(t: seq<byte>, range: Range, k: nat, f: nat, e: nat)
    requires KeyAt(t, k, f, e) && Within(f, range) && IsBehind(t, 0, range)
    ensures e <= range.1 <= |t|
  {
    hide SECRET_KEYS, ValueRange, KeyAt;
    KeyIsLetters(t, k, f, e);
    var k': nat, f': nat, e': nat :| KeyAt(t, k', f', e') && e' <= |t| && ValueRange(t, e') == Some(range);
    NoLetterAtEdges(t, e');
  }

  /** In the name of the key that ends at `e`, another one begins at `from` or later. */
  ghost predicate NameGoesOn(t: seq<byte>, e: nat, from: nat)
    requires e <= |t|
  {
    exists k: nat, f: nat, e': nat :: KeyAt(t, k, f, e') && from <= f && e' <= SeparatorAfter(t, e)
  }

  ghost predicate IsCovered(t: seq<byte>, range: Range) {
    exists r :: r in MaskedRanges(t, 0) && Covers(r, range)
  }

  lemma NameCoversIt(t: seq<byte>, i: nat, e: nat, value: Range)
    requires i < |MaskedRanges(t, 0)| && e <= MaskedRanges(t, 0)[i].1 <= |t|
    requires ValueRange(t, e) == Some(value) && NameGoesOn(t, e, MaskedRanges(t, 0)[i].1)
    ensures value in MaskedRanges(t, 0)
  {
    hide SECRET_KEYS, ValueRange, MaskedRanges, KeyAt, SeparatorAfter;
    var end := MaskedRanges(t, 0)[i].1;
    var k: nat, f: nat, e': nat :| KeyAt(t, k, f, e') && end <= f && e' <= SeparatorAfter(t, e);
    KeyIsLetters(t, k, f, e');
    SeparatorIsBefore(t, e);
    KeyInName(t, e, k, f, e');
    forall r | r in MaskedRanges(t, end) ensures !Within(f, r) {
      RangesAreBehind(t, end, r);
      var k'': nat, f'': nat, e'': nat :| KeyAt(t, k'', f'', e'') && end <= f'' && e'' <= |t| && ValueRange(t, e'') == Some(r);
      KeyIsLetters(t, k'', f'', e'');
      SeparatorIsBefore(t, e'');
      if r.0 <= f {
        OneSeparator(t, e, SeparatorAfter(t, e''));
      }
    }
    KeyAheadIsMasked(t, end, k, f, e');
    ScanGoesOn(t, 0, i);
    assert value in MaskedRanges(t, 0)[i + 1..];
  }

  lemma CoverIsByName(t: seq<byte>, i: nat, k: nat, f: nat, e: nat, value: Range)
    requires i < |MaskedRanges(t, 0)| && KeyAt(t, k, f, e) && Within(f, MaskedRanges(t, 0)[i])
    requires e <= MaskedRanges(t, 0)[i].1 <= |t| && ValueRange(t, e) == Some(value) && MaskedRanges(t, 0)[i].1 < value.1
    requires IsCovered(t, value)
    ensures NameGoesOn(t, e, MaskedRanges(t, 0)[i].1)
  {
    hide SECRET_KEYS, ValueRange, MaskedRanges, KeyAt, SeparatorAfter;
    KeyIsLetters(t, k, f, e);
    var ranges := MaskedRanges(t, 0);
    var r :| r in ranges && Covers(r, value);
    var j :| 0 <= j < |ranges| && ranges[j] == r;
    SeparatorIsBefore(t, e);
    ScanGoesOn(t, 0, i);
    assert j > i;
    assert r == ranges[i + 1..][j - i - 1];
    RangesAreBehind(t, ranges[i].1, r);
    var k': nat, f': nat, e': nat :| KeyAt(t, k', f', e') && ranges[i].1 <= f' && e' <= |t| && ValueRange(t, e') == Some(r);
    KeyIsLetters(t, k', f', e');
    SeparatorIsBefore(t, e');
    OneSeparator(t, e, SeparatorAfter(t, e'));
  }

  /** A key that begins inside a masked value and whose own value runs past it. */
  predicate RunsPast(t: seq<byte>, range: Range, k: nat, f: nat, e: nat) {
    KeyAt(t, k, f, e) && Within(f, range) && e <= |t| && ValueRange(t, e).Some? && range.1 < ValueRange(t, e).value.1
  }

  /** The value of such a key is masked exactly if its name goes on behind the masked value with another key. */
  lemma PastIsMaskedByName(t: seq<byte>, range: Range, k: nat, f: nat, e: nat)
    requires range in MaskedRanges(t, 0) && RunsPast(t, range, k, f, e)
    ensures IsCovered(t, ValueRange(t, e).value) <==> NameGoesOn(t, e, range.1)
  {
    hide SECRET_KEYS, ValueRange, MaskedRanges, KeyAt;
    RangesAreBehind(t, 0, range);
    KeyEndsInside(t, range, k, f, e);
    var i :| 0 <= i < |MaskedRanges(t, 0)| && MaskedRanges(t, 0)[i] == range;
    var value := ValueRange(t, e).value;
    if NameGoesOn(t, e, range.1) {
      NameCoversIt(t, i, e, value);
    }
    if IsCovered(t, value) {
      CoverIsByName(t, i, k, f, e, value);
    }
  }

  /** Every key of the text has no value, or has it masked whole. */
  ghost predicate AllCovered(t: seq<byte>) {
    forall k: nat, f: nat, e: nat :: KeyAt(t, k, f, e) && e <= |t| && ValueRange(t, e).Some? ==> IsCovered(t, ValueRange(t, e).value)
  }

  /** The value of every key is masked, exactly if behind every masked value the name of a key in it whose own
      value runs past it goes on with another key. */
  lemma EveryKeyIsMasked(t: seq<byte>)
    ensures AllCovered(t) <==>
      forall range, k: nat, f: nat, e: nat :: range in MaskedRanges(t, 0) && RunsPast(t, range, k, f, e) ==> NameGoesOn(t, e, range.1)
  {
    hide SECRET_KEYS, ValueRange, MaskedRanges, KeyAt, NameGoesOn, IsCovered;
    forall range, k: nat, f: nat, e: nat | range in MaskedRanges(t, 0) && RunsPast(t, range, k, f, e)
      ensures IsCovered(t, ValueRange(t, e).value) <==> NameGoesOn(t, e, range.1)
    {
      PastIsMaskedByName(t, range, k, f, e);
    }
    forall k: nat, f: nat, e: nat | KeyAt(t, k, f, e) && e <= |t| && ValueRange(t, e).Some?
      ensures IsCovered(t, ValueRange(t, e).value) ||
              exists range :: range in MaskedRanges(t, 0) && RunsPast(t, range, k, f, e)
    {
      CoveredOrPast(t, k, f, e);
    }
  }

  lemma CoveredOrPast(t: seq<byte>, k: nat, f: nat, e: nat)
    requires KeyAt(t, k, f, e) && e <= |t| && ValueRange(t, e).Some?
    ensures IsCovered(t, ValueRange(t, e).value) ||
            exists range :: range in MaskedRanges(t, 0) && RunsPast(t, range, k, f, e)
  {
    hide SECRET_KEYS, ValueRange, MaskedRanges, KeyAt;
    KeyIsLetters(t, k, f, e);
    var value := ValueRange(t, e).value;
    if range :| range in MaskedRanges(t, 0) && Within(f, range) {
      assert Covers(range, value) || RunsPast(t, range, k, f, e);
    } else {
      KeyOutsideIsMasked(t, k, f, e);
      assert Covers(value, value);
    }
  }

  /** So it is where no key begins in a masked value and has a value that runs past it. */
  lemma NoneRunsPast(t: seq<byte>)
    requires forall range, k: nat, f: nat, e: nat :: range in MaskedRanges(t, 0) ==> !RunsPast(t, range, k, f, e)
    ensures AllCovered(t)
  {
    hide SECRET_KEYS, ValueRange, MaskedRanges, KeyAt;
    EveryKeyIsMasked(t);
  }

  // ----- two texts -----

  /** Only the token key is shorter than six letters. */
  lemma KeyBegins(t: seq<byte>, k: nat, f: nat, e: nat)
    requires KeyAt(t, k, f, e)
    ensures f + 5 <= e <= |t| && (f + 5 == e ==> LowerByte(t[f]) == 't' as int)
    ensures LowerByte(t[f]) == 'p' as int || LowerByte(t[f]) == 's' as int || LowerByte(t[f]) == 't' as int
  {
    KeyIsLetters(t, k, f, e);
    assert LowerByte(t[f]) == Lower(t)[f] == Lower(t)[f..e][0] == SECRET_KEYS[k][0];
  }

  lemma NextIs(t: seq<byte>, from: nat, k: nat, f: nat, e: nat)
    requires KeyAt(t, k, f, e) && from <= f
    requires forall k': nat, f': nat, e': nat :: KeyAt(t, k', f', e') && from <= f' ==> e <= e'
    ensures NextSecretKeyEnd(Lower(t), from) == Some(e)
  {
    hide SECRET_KEYS;
    KeyIsLetters(t, k, f, e);
    KeyIsFoundFrom(t, from, k, f, e);
    var k', f' := FoundKey(t, from, NextSecretKeyEnd(Lower(t), from).value);
  }

  lemma NoneIsNext(t: seq<byte>, from: nat)
    requires from <= |t| < from + 5
    ensures NextSecretKeyEnd(Lower(t), from) == None
  {
    hide SECRET_KEYS;
    if NextSecretKeyEnd(Lower(t), from).Some? {
      var e := NextSecretKeyEnd(Lower(t), from).value;
      var k, f := FoundKey(t, from, e);
      KeyBegins(t, k, f, e);
    }
  }

  lemma IsKey(t: seq<byte>, k: nat, f: nat, e: nat)
    requires k < |SECRET_KEYS| && f + |SECRET_KEYS[k]| == e <= |t| && t[f..e] == SECRET_KEYS[k]
    ensures KeyAt(t, k, f, e)
  {
    hide SECRET_KEYS;
    KeysAreLetters(k);
    forall i | f <= i < e ensures Lower(t)[i] == t[i] {
      assert t[i] == t[f..e][i - f];
    }
    assert Lower(t)[f..e] == t[f..e];
  }

  const PAST := Ascii("secret:token =b")

  /** Not the value of every key is masked: in `secret:token =b` that of `token` stays. */
  lemma ValueCanStay()
    ensures MaskedRanges(PAST, 0) == [(7, 12)]
    ensures KeyAt(PAST, 3, 7, 12) && ValueRange(PAST, 12) == Some((14, 15)) && !AllCovered(PAST)
  {
    var t := PAST;
    assert t[0..6] == SECRET_KEYS[2];
    IsKey(t, 2, 0, 6);
    assert t[7..12] == SECRET_KEYS[3];
    IsKey(t, 3, 7, 12);
    PastValues();
    hide SECRET_KEYS, ValueRange, KeyAt;
    forall k': nat, f': nat, e': nat | KeyAt(t, k', f', e') ensures 6 <= e' {
      KeyBegins(t, k', f', e');
    }
    NextIs(t, 0, 2, 0, 6);
    NoneIsNext(t, 12);
    assert MaskedRanges(t, 12) == [];
    assert MaskedRanges(t, 0) == [(7, 12)];
    assert !IsCovered(t, (14, 15));
  }

  lemma PastValues()
    ensures ValueRange(PAST, 6) == Some((7, 12)) && ValueRange(PAST, 12) == Some((14, 15))
  {
    var t := PAST;
    assert t[6] == ':' as int && t[13] == '=' as int && t[12] == ' ' as int && t[14] == 'b' as int;
    assert forall i :: 7 <= i < 12 ==> IsLetter(t[i]);
    ShapeOfPast(t);
  }

  lemma ShapeOfPast(t: seq<byte>)
    requires |t| == 15 && t[6] == ':' as int && t[13] == '=' as int && t[12] == ' ' as int && t[14] == 'b' as int
    requires forall i :: 7 <= i < 12 ==> IsLetter(t[i])
    ensures ValueRange(t, 6) == Some((7, 12)) && ValueRange(t, 12) == Some((14, 15))
  {
    SkipIs(t, 6, IsNamePart, 6);
    SkipIs(t, 6, IsSpace, 6);
    SkipIs(t, 7, IsSpace, 7);
    SkipIs(t, 7, IsValuePart, 12);
    SkipIs(t, 12, IsNamePart, 12);
    SkipIs(t, 12, IsSpace, 13);
    SkipIs(t, 14, IsSpace, 14);
    SkipIs(t, 14, IsValuePart, 15);
  }

  const NAMED := Ascii("secret=\"token\"secret=b")

  /** A value that runs past a masked one may be masked all the same: in `secret="token"secret=b` that of
      `token` is, by the name it goes on with. */
  lemma NameCanMask()
    ensures RunsPast(NAMED, (8, 13), 3, 8, 13) && (8, 13) in MaskedRanges(NAMED, 0) && AllCovered(NAMED)
  {
    NamedRanges();
    NamedValues();
    NamedKeys();
    hide SECRET_KEYS, NAMED, ValueRange, KeyAt, SeparatorAfter, MaskedRanges, NameGoesOn;
    forall range, k: nat, f: nat, e: nat | range in MaskedRanges(NAMED, 0) && RunsPast(NAMED, range, k, f, e)
      ensures NameGoesOn(NAMED, e, range.1)
    {
      NamePastNamed(range, k, f, e);
    }
    EveryKeyIsMasked(NAMED);
  }

  lemma NamePastNamed(range: Range, k: nat, f: nat, e: nat)
    requires range in MaskedRanges(NAMED, 0) && RunsPast(NAMED, range, k, f, e)
    ensures NameGoesOn(NAMED, e, range.1)
  {
    NamedRanges();
    NamedValues();
    NamedKeys();
    NamedLength();
    hide SECRET_KEYS, NAMED, ValueRange, KeyAt, SeparatorAfter, MaskedRanges;
    KeyBegins(NAMED, k, f, e);
    RangesAreBehind(NAMED, 0, range);
    KeyEndsInside(NAMED, range, k, f, e);
    assert range == (8, 13);
    assert e == 13;
  }

  lemma NamedLength()
    ensures |NAMED| == 22
  {
  }

  lemma NamedRanges()
    ensures MaskedRanges(NAMED, 0) == [(8, 13), (21, 22)]
  {
    var t := NAMED;
    NamedValues();
    NamedKeys();
    hide SECRET_KEYS, ValueRange, KeyAt;
    forall k': nat, f': nat, e': nat | KeyAt(t, k', f', e') ensures 6 <= e' && (13 <= f' ==> 20 <= e') {
      KeyBegins(t, k', f', e');
    }
    NextIs(t, 0, 2, 0, 6);
    NextIs(t, 13, 2, 14, 20);
    NoneIsNext(t, 22);
    assert MaskedRanges(t, 22) == [];
    assert MaskedRanges(t, 13) == [(21, 22)];
  }

  lemma NamedKeys()
    ensures KeyAt(NAMED, 2, 0, 6) && KeyAt(NAMED, 3, 8, 13) && KeyAt(NAMED, 2, 14, 20)
    ensures NAMED[0] == 's' as int && NAMED[13] == '"' as int && NAMED[14] == 's' as int
  {
    var t := NAMED;
    assert t[0..6] == SECRET_KEYS[2];
    assert t[8..13] == SECRET_KEYS[3];
    assert t[14..20] == SECRET_KEYS[2];
    IsKey(t, 2, 0, 6);
    IsKey(t, 3, 8, 13);
    IsKey(t, 2, 14, 20);
  }

  lemma NamedValues()
    ensures ValueRange(NAMED, 6) == Some((8, 13))
    ensures ValueRange(NAMED, 13) == Some((21, 22)) && ValueRange(NAMED, 20) == Some((21, 22))
    ensures SeparatorAfter(NAMED, 13) == 20
  {
    var t := NAMED;
    assert t[6] == t[20] == '=' as int && t[7] == t[13] == '"' as int && t[21] == 'b' as int;
    assert forall i :: 8 <= i < 13 || 14 <= i < 20 ==> IsLetter(t[i]);
    ShapeOfNamed(t);
  }

  lemma ShapeOfNamed(t: seq<byte>)
    requires |t| == 22 && t[6] == t[20] == '=' as int && t[7] == t[13] == '"' as int && t[21] == 'b' as int
    requires forall i :: 8 <= i < 13 || 14 <= i < 20 ==> IsLetter(t[i])
    ensures ValueRange(t, 6) == Some((8, 13))
    ensures ValueRange(t, 13) == Some((21, 22)) && ValueRange(t, 20) == Some((21, 22)) && SeparatorAfter(t, 13) == 20
  {
    SkipIs(t, 6, IsNamePart, 6);
    SkipIs(t, 6, IsSpace, 6);
    SkipIs(t, 7, IsSpace, 7);
    assert forall i :: 8 <= i < 13 ==> t[i] != '"' as int && t[i] != '\\' as int;
    assert QuoteEnd(t, 13, '"' as int) == 13;
    assert QuoteEnd(t, 12, '"' as int) == 13;
    assert QuoteEnd(t, 11, '"' as int) == 13;
    assert QuoteEnd(t, 10, '"' as int) == 13;
    assert QuoteEnd(t, 9, '"' as int) == 13;
    SkipIs(t, 13, IsNamePart, 20);
    SkipIs(t, 20, IsNamePart, 20);
    SkipIs(t, 20, IsSpace, 20);
    SkipIs(t, 21, IsSpace, 21);
    SkipIs(t, 21, IsValuePart, 22);
  }
}
