/** What the value of a key is, said without a cursor, and a text with an escaped quote in a value. */
module SecretValues {
  import opened Wrappers
  import opened Utf8
  import opened SecretMask
  import opened SecretCoverage

  const NAME_SIGNS: seq<byte> := Ascii("_-\"'\\")

  const SEPARATORS: seq<byte> := Ascii(":=")

  predicate InName(b: byte) {
    IsAlphanumeric(b) || b in NAME_SIGNS
  }

  /** From the key's end at `e` the rest of the name goes to `p`, spaces to the separator at `q`, and spaces
      on to `r`. */
  ghost predicate LeadsTo(t: seq<byte>, e: nat, p: nat, q: nat, r: nat) {
    && e <= p <= q < r <= |t|
    && (forall i :: e <= i < p ==> InName(t[i]))
    && (forall i :: p <= i < q ==> t[i] == ' ' as int)
    && t[q] in SEPARATORS
    && (forall i :: q < i < r ==> t[i] == ' ' as int)
    && (r < |t| ==> t[r] != ' ' as int)
  }

  /** The range is a whole literal behind the key: what is quoted there, or what stands there. */
  ghost predicate IsValueOf(t: seq<byte>, e: nat, range: Range) {
    exists p: nat, q: nat, r: nat ::
      && LeadsTo(t, e, p, q, r) && IsWhole(t, range)
      && range.0 == if r < |t| && (t[r] == '"' as int || t[r] == '\'' as int) then r + 1 else r
  }

  lemma NameParts(b: byte)
    ensures IsNamePart(b) <==> InName(b)
    ensures IsSeparator(b) <==> b in SEPARATORS
    ensures IsSeparator(b) ==> !IsNamePart(b) && b != ' ' as int
    ensures b == ' ' as int ==> !IsNamePart(b)
  {
    var signs := "_-\"'\\";
    assert signs[0] == '_' && signs[1] == '-' && signs[2] == '"' && signs[3] == '\'' && signs[4] == '\\';
    assert forall i :: 0 <= i < 5 ==> NAME_SIGNS[i] == signs[i] as int && NAME_SIGNS[i] in NAME_SIGNS;
    var separators := ":=";
    assert separators[0] == ':' && separators[1] == '=';
    assert forall i :: 0 <= i < 2 ==> SEPARATORS[i] == separators[i] as int && SEPARATORS[i] in SEPARATORS;
  }

  lemma LeadsWhere(t: seq<byte>, e: nat, p: nat, q: nat, r: nat)
    requires LeadsTo(t, e, p, q, r)
    ensures Skip(t, e, IsNamePart) == p && SeparatorAfter(t, e) == q && IsSeparator(t[q])
    ensures Skip(t, q + 1, IsSpace) == r && !IsQuote(t[r - 1])
  {
    forall b: byte
      ensures IsNamePart(b) <==> InName(b)
      ensures IsSeparator(b) <==> b in SEPARATORS
      ensures IsSeparator(b) ==> !IsNamePart(b) && b != ' ' as int
      ensures b == ' ' as int ==> !IsNamePart(b)
    {
      NameParts(b);
    }
    hide IsNamePart, InName, SEPARATORS;
    SkipIs(t, e, IsNamePart, p);
    SkipIs(t, p, IsSpace, q);
    SkipIs(t, q + 1, IsSpace, r);
  }

  /** The scan finds the value there is, and one only if there is one. */
  lemma ValueIsExactly(t: seq<byte>, e: nat, range: Range)
    requires e <= |t|
    ensures ValueRange(t, e) == Some(range) <==> IsValueOf(t, e, range)
  {
    if ValueRange(t, e) == Some(range) {
      ValueHasShape(t, e, range);
    }
    if IsValueOf(t, e, range) {
      var p: nat, q: nat, r: nat :|
        && LeadsTo(t, e, p, q, r) && IsWhole(t, range)
        && range.0 == if r < |t| && (t[r] == '"' as int || t[r] == '\'' as int) then r + 1 else r;
      ShapeHasValue(t, e, p, q, r, range);
    }
  }

  lemma ValueHasShape(t: seq<byte>, e: nat, range: Range)
    requires e <= |t| && ValueRange(t, e) == Some(range)
    ensures IsValueOf(t, e, range)
  {
    ValueIsWhole(t, e);
    hide IsWhole, QuoteEnd;
    var p, q := Skip(t, e, IsNamePart), SeparatorAfter(t, e);
    var r := Skip(t, q + 1, IsSpace);
    forall b: byte
      ensures IsNamePart(b) <==> InName(b)
      ensures IsSeparator(b) <==> b in SEPARATORS
    {
      NameParts(b);
    }
    hide InName, SEPARATORS;
    assert LeadsTo(t, e, p, q, r);
  }

  lemma ShapeHasValue(t: seq<byte>, e: nat, p: nat, q: nat, r: nat, range: Range)
    requires LeadsTo(t, e, p, q, r) && IsWhole(t, range)
    requires range.0 == if r < |t| && (t[r] == '"' as int || t[r] == '\'' as int) then r + 1 else r
    ensures e <= |t| && ValueRange(t, e) == Some(range)
  {
    LeadsWhere(t, e, p, q, r);
    hide Skip, QuoteEnd, IsFirstToClose, DELIMITERS;
    if r < |t| && IsQuote(t[r]) {
      QuoteEndIsFirstToClose(t, r + 1, t[r]);
    } else {
      forall b: byte ensures IsValuePart(b) <==> b !in DELIMITERS {
        ValuePartsAreNoDelimiters(b);
      }
      SkipIs(t, r, IsValuePart, range.1);
    }
  }

  // ----- a text -----

  /** A text with one key: what comes before its value, and the value. */
  lemma OneKeyIsMasked(t: seq<byte>, k: nat, f: nat, e: nat, start: nat, end: nat)
    requires KeyAt(t, k, f, e) && ValueRange(t, e) == Some((start, end))
    requires forall k': nat, f': nat, e': nat :: KeyAt(t, k', f', e') ==> e <= e' && f' < end
    ensures Redacted(t) == t[..start] + MASK + t[end..]
  {
    hide SECRET_KEYS, ValueRange, Redacted;
    KeyIsLetters(t, k, f, e);
    NextIs(t, 0, k, f, e);
    hide KeyAt, FirstKeyEnd;
    assert t[0..] == t;
    NextKeyIsFirstOfRest(t, 0);
    NextKeyIsFirstOfRest(t, end);
    if NextSecretKeyEnd(Lower(t), end).Some? {
      var k', f' := FoundKey(t, end, NextSecretKeyEnd(Lower(t), end).value);
    }
    RedactedUnfolds(t);
    RedactedUnfolds(t[end..]);
  }

  const QUOTED := Ascii("\"password\":\"a\\\"b\"")

  /** An escaped quote is in the value: of `"password":"a\"b"` is left `"password":"***"`. */
  lemma EscapedQuoteIsMasked()
    ensures Redacted(QUOTED) == Ascii("\"password\":\"***\"")
  {
    QuotedKey();
    QuotedValue();
    QuotedMasked();
    hide SECRET_KEYS, QUOTED, ValueRange, KeyAt, Redacted;
    forall k: nat, f: nat, e: nat | KeyAt(QUOTED, k, f, e) ensures 9 <= e && f < 16 {
      OneKeyInQuoted(k, f, e);
    }
    OneKeyIsMasked(QUOTED, 0, 1, 9, 12, 16);
  }

  lemma QuotedMasked()
    ensures |QUOTED| == 17 && QUOTED[..12] + MASK + QUOTED[16..] == Ascii("\"password\":\"***\"")
  {
  }

  lemma QuotedKey()
    ensures KeyAt(QUOTED, 0, 1, 9)
  {
    assert QUOTED[1..9] == SECRET_KEYS[0];
    IsKey(QUOTED, 0, 1, 9);
  }

  lemma SixLetters(t: seq<byte>, k: nat, f: nat, e: nat)
    requires KeyAt(t, k, f, e) && e == f + 6 && LowerByte(t[f]) == 'p' as int
    ensures LowerByte(t[f + 5]) == 'd' as int
  {
    KeyIsLetters(t, k, f, e);
    assert LowerByte(t[f]) == Lower(t)[f] == Lower(t)[f..e][0] == SECRET_KEYS[k][0];
    assert LowerByte(t[f + 5]) == Lower(t)[f + 5] == Lower(t)[f..e][5] == SECRET_KEYS[k][5];
  }

  lemma OneKeyInQuoted(k: nat, f: nat, e: nat)
    requires KeyAt(QUOTED, k, f, e)
    ensures e == 9 && f < 9
  {
    KeyIsLetters(QUOTED, k, f, e);
    KeyBegins(QUOTED, k, f, e);
    KeyLength(QUOTED, k, f, e);
    var t := QUOTED;
    assert t[0] == t[9] == t[11] == t[14] == '"' as int && |t| == 17 && t[1] == 'p' as int && t[2] == 'a' as int;
    assert t[6] == 'o' as int;
    hide SECRET_KEYS, QUOTED, KeyAt;
    if f == 1 && e == 7 {
      SixLetters(t, k, f, e);
    }
  }

  lemma KeyLength(t: seq<byte>, k: nat, f: nat, e: nat)
    requires KeyAt(t, k, f, e)
    ensures e - f == 5 || e - f == 6 || e - f == 8
  {
  }

  lemma QuotedValue()
    ensures ValueRange(QUOTED, 9) == Some((12, 16))
  {
    var t := QUOTED;
    assert t[9] == t[11] == t[14] == t[16] == '"' as int && t[10] == ':' as int && t[13] == '\\' as int;
    assert t[12] == 'a' as int && t[15] == 'b' as int;
    assert |t| == 17;
    ShapeOfQuoted(t);
  }

  lemma ShapeOfQuoted(t: seq<byte>)
    requires |t| == 17 && t[9] == t[11] == t[14] == t[16] == '"' as int
    requires t[10] == ':' as int && t[13] == '\\' as int && t[12] == 'a' as int && t[15] == 'b' as int
    ensures ValueRange(t, 9) == Some((12, 16))
  {
    SkipIs(t, 9, IsNamePart, 10);
    SkipIs(t, 10, IsSpace, 10);
    SkipIs(t, 11, IsSpace, 11);
    assert QuoteEnd(t, 16, '"' as int) == 16;
    assert QuoteEnd(t, 15, '"' as int) == 16;
    assert QuoteEnd(t, 13, '"' as int) == 16;
  }
}
