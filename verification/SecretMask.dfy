/** Masking the values of secret keys in what is logged: redact_secrets, src-tauri/src/logging.rs:409-482,
    over the bytes of the text. */
module SecretMask {
  import opened Wrappers
  import opened Utf8

  const MASK: seq<byte> := [42, 42, 42]

  const SECRET_KEYS: seq<seq<byte>> := [Ascii("password"), Ascii("passwd"), Ascii("secret"), Ascii("token")]

  // ----- the classes of bytes -----

  /** The rest of a key's name, and the quotes and escapes around it. */
  predicate IsNamePart(b: byte) {
    IsAlphanumeric(b) || b == '_' as int || b == '-' as int || b == '"' as int || b == '\'' as int || b == '\\' as int
  }

  predicate IsSpace(b: byte) {
    b == ' ' as int
  }

  predicate IsSeparator(b: byte) {
    b == ':' as int || b == '=' as int
  }

  predicate IsQuote(b: byte) {
    b == '"' as int || b == '\'' as int
  }

  predicate IsValuePart(b: byte) {
    !(b == ' ' as int || b == ',' as int || b == ';' as int || b == '&' as int ||
      b == ')' as int || b == '}' as int || b == ']' as int || b == '\n' as int)
  }

  function LowerByte(b: byte): byte {
    if 'A' as int <= b <= 'Z' as int then b + 32 else b
  }

  /** str::to_ascii_lowercase. */
  function Lower(t: seq<byte>): (r: seq<byte>)
    ensures |r| == |t| && forall i :: 0 <= i < |t| ==> r[i] == LowerByte(t[i])
  {
    seq(|t|, i requires 0 <= i < |t| => LowerByte(t[i]))
  }

  // ----- finding the keys -----

  predicate OccursAt(t: seq<byte>, key: seq<byte>, at: nat) {
    at + |key| <= |t| && t[at..at + |key|] == key
  }

  /** str::find in t[from..], as a place in `t`. */
  function Find(t: seq<byte>, key: seq<byte>, from: nat): (at: Option<nat>)
    ensures at.Some? ==> from <= at.value && OccursAt(t, key, at.value)
    ensures forall a :: from <= a && OccursAt(t, key, a) ==> at.Some? && at.value <= a
    decreases |t| - from
  {
    if from + |key| > |t| then None
    else if OccursAt(t, key, from) then Some(from)
    else Find(t, key, from + 1)
  }

  /** `key` ends at `e` and begins at `from` or later. */
  predicate Ends(lower: seq<byte>, key: seq<byte>, from: nat, e: nat) {
    from + |key| <= e && OccursAt(lower, key, e - |key|)
  }

  predicate OneEnds(lower: seq<byte>, keys: seq<seq<byte>>, from: nat, e: nat) {
    exists k :: 0 <= k < |keys| && Ends(lower, keys[k], from, e)
  }

  lemma OneMoreKey(lower: seq<byte>, keys: seq<seq<byte>>, from: nat, e: nat)
    requires keys != []
    ensures OneEnds(lower, keys, from, e) <==>
      Ends(lower, keys[|keys| - 1], from, e) || OneEnds(lower, keys[..|keys| - 1], from, e)
  {
    var front := keys[..|keys| - 1];
    if k :| 0 <= k < |keys| && Ends(lower, keys[k], from, e) {
      assert k < |front| ==> front[k] == keys[k];
    }
    if k :| 0 <= k < |front| && Ends(lower, front[k], from, e) {
      assert front[k] == keys[k];
    }
  }

  function FirstEnd(lower: seq<byte>, keys: seq<seq<byte>>, from: nat): (end: Option<nat>)
    ensures end.Some? ==> OneEnds(lower, keys, from, end.value)
    ensures forall e: nat :: OneEnds(lower, keys, from, e) ==> end.Some? && end.value <= e
    decreases keys
  {
    if keys == [] then None
    else
      var key := keys[|keys| - 1];
      var others := FirstEnd(lower, keys[..|keys| - 1], from);
      var found := Find(lower, key, from);
      var end := if found.None? then others
                 else if others.Some? && others.value <= found.value + |key| then others
                 else Some(found.value + |key|);
      assert forall e: nat :: OneEnds(lower, keys, from, e) ==> end.Some? && end.value <= e by {
        forall e: nat | OneEnds(lower, keys, from, e) ensures end.Some? && end.value <= e {
          OneMoreKey(lower, keys, from, e);
        }
      }
      assert end.Some? ==> OneEnds(lower, keys, from, end.value) by {
        if end.Some? {
          OneMoreKey(lower, keys, from, end.value);
        }
      }
      end
  }

  /** The end of the key that ends first among those that begin at `from` or later. */
  function NextSecretKeyEnd(lower: seq<byte>, from: nat): (end: Option<nat>)
    ensures end.Some? ==> OneEnds(lower, SECRET_KEYS, from, end.value)
    ensures forall e: nat :: OneEnds(lower, SECRET_KEYS, from, e) ==> end.Some? && end.value <= e
  {
    FirstEnd(lower, SECRET_KEYS, from)
  }

  /** A secret key, in any letter case, ends at `e`. */
  predicate KeyEndsAt(t: seq<byte>, e: nat) {
    OneEnds(Lower(t), SECRET_KEYS, 0, e)
  }

  // ----- where a value sits -----

  /** The first place from `i` on whose byte is not of the class. */
  function Skip(t: seq<byte>, i: nat, member: byte -> bool): (r: nat)
    requires i <= |t|
    ensures i <= r <= |t|
    ensures forall k :: i <= k < r ==> member(t[k])
    ensures r < |t| ==> !member(t[r])
    decreases |t| - i
  {
    if i < |t| && member(t[i]) then Skip(t, i + 1, member) else i
  }

  /** Where a quoted value ends: at its quote, a backslash taking the byte after it along. */
  function QuoteEnd(t: seq<byte>, i: nat, quote: byte): (r: nat)
    ensures i <= |t| ==> i <= r <= |t|
    ensures r < |t| ==> t[r] == quote
    decreases if i < |t| then |t| - i else 0
  {
    if i >= |t| then |t|
    else if t[i] == quote then i
    else QuoteEnd(t, if t[i] == '\\' as int then i + 2 else i + 1, quote)
  }

  // ----- what a quote and an escape are -----

  /** How many backslashes in a row stand right before place `i`, none of them before `start`. */
  function Backslashes(t: seq<byte>, start: nat, i: nat): nat
    requires start <= i <= |t|
  {
    if start < i && t[i - 1] == '\\' as int then Backslashes(t, start, i - 1) + 1 else 0
  }

  /** The last of an odd number of backslashes takes this byte along. */
  predicate Escaped(t: seq<byte>, start: nat, i: nat)
    requires start <= i <= |t|
  {
    Backslashes(t, start, i) % 2 == 1
  }

  /** Place `i` is the end of what is quoted from `start` on. */
  predicate Closes(t: seq<byte>, start: nat, quote: byte, i: nat) {
    start <= i < |t| && t[i] == quote && !Escaped(t, start, i)
  }

  /** `end` is the first place from `start` on that closes the quotation, or the end of a text without one. */
  ghost predicate IsFirstToClose(t: seq<byte>, start: nat, quote: byte, end: nat) {
    && start <= end <= |t|
    && (end < |t| ==> Closes(t, start, quote, end))
    && (forall i :: start <= i < end ==> !Closes(t, start, quote, i))
  }

  /** A quotation ends at its own first quote that is not escaped, and only there. */
  lemma QuoteEndIsFirstToClose(t: seq<byte>, start: nat, quote: byte)
    requires start <= |t| && IsQuote(quote)
    ensures IsFirstToClose(t, start, quote, QuoteEnd(t, start, quote))
    ensures forall end: nat :: IsFirstToClose(t, start, quote, end) ==> end == QuoteEnd(t, start, quote)
  {
    ClosesFurtherOn(t, start, start, quote);
  }

  /** The scan for the end is, at any place it comes by, at a byte that is not escaped. */
  lemma {:induction false} ClosesFurtherOn(t: seq<byte>, start: nat, i: nat, quote: byte)
    requires start <= i <= |t| && IsQuote(quote) && !Escaped(t, start, i)
    requires forall k :: start <= k < i ==> !Closes(t, start, quote, k)
    ensures IsFirstToClose(t, start, quote, QuoteEnd(t, i, quote))
    decreases |t| - i
  {
    if i < |t| && t[i] != quote {
      if t[i] == '\\' as int {
        assert Backslashes(t, start, i + 1) == Backslashes(t, start, i) + 1;
        if i + 2 <= |t| {
          ClosesFurtherOn(t, start, i + 2, quote);
        }
      } else {
        ClosesFurtherOn(t, start, i + 1, quote);
      }
    }
  }

  /** What ends a value without quotes. */
  const DELIMITERS: seq<byte> := Ascii(" ,;&)}]\n")

  lemma ValuePartsAreNoDelimiters(b: byte)
    ensures IsValuePart(b) <==> b !in DELIMITERS
  {
    var d := " ,;&)}]\n";
    assert d[0] == ' ' && d[1] == ',' && d[2] == ';' && d[3] == '&' && d[4] == ')' && d[5] == '}' && d[6] == ']' && d[7] == '\n';
    assert forall i :: 0 <= i < 8 ==> DELIMITERS[i] == d[i] as int;
    assert forall i :: 0 <= i < 8 ==> DELIMITERS[i] in DELIMITERS;
  }

  /** The range is a whole literal: of a quotation all up to the quote that closes it, and else all up to
      the next delimiter. */
  ghost predicate IsWhole(t: seq<byte>, range: (nat, nat)) {
    && 0 < range.0 < range.1 <= |t|
    && if IsQuote(t[range.0 - 1]) then IsFirstToClose(t, range.0, t[range.0 - 1], range.1)
       else (forall i :: range.0 <= i < range.1 ==> t[i] !in DELIMITERS) && (range.1 < |t| ==> t[range.1] in DELIMITERS)
  }

  lemma ValueIsWhole(t: seq<byte>, e: nat)
    requires e <= |t| && ValueRange(t, e).Some?
    ensures IsWhole(t, ValueRange(t, e).value)
  {
    hide QuoteEnd, DELIMITERS, IsFirstToClose;
    var range := ValueRange(t, e).value;
    var q := SeparatorAfter(t, e);
    var r := Skip(t, q + 1, IsSpace);
    assert r > q + 1 ==> IsSpace(t[r - 1]);
    if r < |t| && IsQuote(t[r]) {
      QuoteEndIsFirstToClose(t, r + 1, t[r]);
    } else {
      forall b: byte ensures IsValuePart(b) <==> b !in DELIMITERS {
        ValuePartsAreNoDelimiters(b);
      }
    }
  }

  // ----- where the value of a key is -----

  function SeparatorAfter(t: seq<byte>, keyEnd: nat): (q: nat)
    requires keyEnd <= |t|
    ensures keyEnd <= q <= |t|
  {
    Skip(t, Skip(t, keyEnd, IsNamePart), IsSpace)
  }

  /** The value after the separator at `q`. */
  function ValueAfter(t: seq<byte>, q: nat): (range: Option<(nat, nat)>)
    requires q < |t|
    ensures range.Some? ==> q < range.value.0 < range.value.1 <= |t|
  {
    var r := Skip(t, q + 1, IsSpace);
    var quoted := r < |t| && IsQuote(t[r]);
    var start := if quoted then r + 1 else r;
    var end := if quoted then QuoteEnd(t, start, t[r]) else Skip(t, start, IsValuePart);
    if start < end then Some((start, end)) else None
  }

  /** The value of the key that ends at `keyEnd`. */
  function ValueRange(t: seq<byte>, keyEnd: nat): (range: Option<(nat, nat)>)
    requires keyEnd <= |t|
    ensures range.Some? ==> keyEnd < range.value.0 < range.value.1 <= |t|
  {
    var q := SeparatorAfter(t, keyEnd);
    if q < |t| && IsSeparator(t[q]) then ValueAfter(t, q) else None
  }

  /** secret_value_range, a cursor going over the bytes. */
  method SecretValueRange(text: seq<byte>, keyEnd: nat) returns (range: Option<(nat, nat)>)
    requires keyEnd <= |text|
    ensures range == ValueRange(text, keyEnd)
  {
    var i := keyEnd;
    while i < |text| && IsNamePart(text[i])
      invariant keyEnd <= i <= |text|
      invariant Skip(text, i, IsNamePart) == Skip(text, keyEnd, IsNamePart)
    {
      i := i + 1;
    }
    while i < |text| && text[i] == ' ' as int
      invariant keyEnd <= i <= |text|
      invariant Skip(text, i, IsSpace) == SeparatorAfter(text, keyEnd)
    {
      i := i + 1;
    }
    if i >= |text| || !IsSeparator(text[i]) {
      return None;
    }
    range := ValueBehind(text, i);
  }

  method ValueBehind(text: seq<byte>, separator: nat) returns (range: Option<(nat, nat)>)
    requires separator < |text|
    ensures range == ValueAfter(text, separator)
  {
    var i := separator + 1;
    while i < |text| && text[i] == ' ' as int
      invariant separator < i <= |text|
      invariant Skip(text, i, IsSpace) == Skip(text, separator + 1, IsSpace)
    {
      i := i + 1;
    }
    var start, end;
    if i < |text| && IsQuote(text[i]) {
      start := i + 1;
      end := EndOfQuoted(text, start, text[i]);
    } else {
      start := i;
      end := EndOfPlain(text, start);
    }
    if start < end {
      return Some((start, end));
    }
    return None;
  }

  method EndOfQuoted(text: seq<byte>, start: nat, quote: byte) returns (end: nat)
    requires start <= |text|
    ensures end == QuoteEnd(text, start, quote)
  {
    end := start;
    while end < |text| && text[end] != quote
      invariant start <= end
      invariant QuoteEnd(text, end, quote) == QuoteEnd(text, start, quote)
    {
      end := end + if text[end] == '\\' as int then 2 else 1;
    }
    end := if end < |text| then end else |text|;
  }

  method EndOfPlain(text: seq<byte>, start: nat) returns (end: nat)
    requires start <= |text|
    ensures end == Skip(text, start, IsValuePart)
  {
    end := start;
    while end < |text| && IsValuePart(text[end])
      invariant start <= end <= |text|
      invariant Skip(text, end, IsValuePart) == Skip(text, start, IsValuePart)
    {
      end := end + 1;
    }
  }

  // ----- what masking makes of a text -----

  /** Where the first key of a text ends. */
  function FirstKeyEnd(t: seq<byte>): Option<nat> {
    NextSecretKeyEnd(Lower(t), 0)
  }

  /** The text with the values of its keys masked, by the keys in the order they end. */
  function Redacted(t: seq<byte>): seq<byte>
    decreases |t|
  {
    match FirstKeyEnd(t)
    case None => t
    case Some(e) =>
      EndIsPositive(t, e);
      match ValueRange(t, e)
      case None => t[..e] + Redacted(t[e..])
      case Some((start, end)) => t[..start] + MASK + Redacted(t[end..])
  }

  lemma KeysAreLetters(k: nat)
    requires k < |SECRET_KEYS|
    ensures |SECRET_KEYS[k]| > 0
    ensures forall i :: 0 <= i < |SECRET_KEYS[k]| ==> 'a' as int <= SECRET_KEYS[k][i] <= 'z' as int
  {
    var words := ["password", "passwd", "secret", "token"];
    assert SECRET_KEYS[k] == Ascii(words[k]);
    forall i | 0 <= i < |words[k]| ensures 'a' <= words[k][i] <= 'z' {
    }
  }

  lemma EndIsPositive(t: seq<byte>, e: nat)
    requires KeyEndsAt(t, e)
    ensures 0 < e <= |t| && IsLetter(t[e - 1])
  {
    var k := KeyBefore(t, e);
  }

  /** Which key it is that ends at `e`, and that it is made of letters. */
  lemma KeyBefore(t: seq<byte>, e: nat) returns (k: nat)
    requires KeyEndsAt(t, e)
    ensures k < |SECRET_KEYS| && 0 < |SECRET_KEYS[k]| <= e <= |t|
    ensures Ends(Lower(t), SECRET_KEYS[k], 0, e)
    ensures forall i :: e - |SECRET_KEYS[k]| <= i < e ==> IsLetter(t[i])
  {
    hide SECRET_KEYS;
    k :| 0 <= k < |SECRET_KEYS| && Ends(Lower(t), SECRET_KEYS[k], 0, e);
    KeysAreLetters(k);
    var key := SECRET_KEYS[k];
    forall i | e - |key| <= i < e ensures IsLetter(t[i]) {
      assert Lower(t)[i] == Lower(t)[e - |key|..e][i - (e - |key|)];
    }
  }

  // ----- moving along a text -----

  /** A key of a text is one of whatever text the bytes around it stay the same in. */
  lemma SameKey(t: seq<byte>, e: nat, t': seq<byte>, e': nat, k: nat)
    requires k < |SECRET_KEYS| && Ends(Lower(t), SECRET_KEYS[k], 0, e)
    requires |SECRET_KEYS[k]| <= e' <= |t'|
    requires t[e - |SECRET_KEYS[k]|..e] == t'[e' - |SECRET_KEYS[k]|..e']
    ensures KeyEndsAt(t', e')
  {
    hide SECRET_KEYS;
    var n := |SECRET_KEYS[k]|;
    var was, now := Lower(t)[e - n..e], Lower(t')[e' - n..e'];
    forall i | 0 <= i < n ensures was[i] == now[i] {
      assert t[e - n..e][i] == t'[e' - n..e'][i];
    }
    assert now == was;
    assert Ends(Lower(t'), SECRET_KEYS[k], 0, e');
  }

  lemma SkipIs(t: seq<byte>, i: nat, member: byte -> bool, r: nat)
    requires i <= r <= |t| && (forall k :: i <= k < r ==> member(t[k])) && (r < |t| ==> !member(t[r]))
    ensures Skip(t, i, member) == r
  {
  }

  lemma SkipShifts(t: seq<byte>, k: nat, i: nat, member: byte -> bool)
    requires k + i <= |t|
    ensures Skip(t, k + i, member) == k + Skip(t[k..], i, member)
  {
    SkipIs(t, k + i, member, k + Skip(t[k..], i, member));
  }

  lemma {:induction false} QuoteEndShifts(t: seq<byte>, k: nat, i: nat, quote: byte)
    requires k <= |t|
    ensures QuoteEnd(t, k + i, quote) == k + QuoteEnd(t[k..], i, quote)
    decreases if k + i < |t| then |t| - k - i else 0
  {
    if k + i < |t| && t[k + i] != quote {
      QuoteEndShifts(t, k, if t[k + i] == '\\' as int then i + 2 else i + 1, quote);
    }
  }

  function Shifted(range: Option<(nat, nat)>, k: nat): Option<(nat, nat)> {
    match range case None => None case Some((s, e)) => Some((k + s, k + e))
  }

  lemma ValueAfterShifts(t: seq<byte>, k: nat, q: nat)
    requires k + q < |t|
    ensures ValueAfter(t, k + q) == Shifted(ValueAfter(t[k..], q), k)
  {
    hide Skip, QuoteEnd;
    SkipShifts(t, k, q + 1, IsSpace);
    var r := Skip(t[k..], q + 1, IsSpace);
    SkipShifts(t, k, r, IsValuePart);
    if k + r < |t| {
      QuoteEndShifts(t, k, r + 1, t[k + r]);
    }
  }

  /** A value depends only on what comes after its key. */
  lemma ValueShifts(t: seq<byte>, k: nat, i: nat)
    requires k + i <= |t|
    ensures ValueRange(t, k + i) == Shifted(ValueRange(t[k..], i), k)
  {
    hide Skip, ValueAfter;
    SkipShifts(t, k, i, IsNamePart);
    SkipShifts(t, k, Skip(t[k..], i, IsNamePart), IsSpace);
    var q := SeparatorAfter(t[k..], i);
    if k + q < |t| {
      ValueAfterShifts(t, k, q);
    }
  }

  /** Keys that run on into one name have one value. */
  lemma SameName(t: seq<byte>, i: nat, j: nat)
    requires i <= j <= |t| && forall k :: i <= k < j ==> IsNamePart(t[k])
    ensures ValueRange(t, i) == ValueRange(t, j)
  {
    SkipIs(t, i, IsNamePart, Skip(t, j, IsNamePart));
  }

  lemma RedactedUnfolds(t: seq<byte>)
    ensures FirstKeyEnd(t) == None ==> Redacted(t) == t
    ensures forall e :: FirstKeyEnd(t) == Some(e) ==> 0 < e <= |t|
    ensures forall e :: FirstKeyEnd(t) == Some(e) && ValueRange(t, e) == None ==>
      Redacted(t) == t[..e] + Redacted(t[e..])
    ensures forall e, start, end :: FirstKeyEnd(t) == Some(e) && ValueRange(t, e) == Some((start, end)) ==>
      Redacted(t) == t[..start] + MASK + Redacted(t[end..])
  {
    hide ValueRange, SECRET_KEYS;
    if FirstKeyEnd(t).Some? {
      EndIsPositive(t, FirstKeyEnd(t).value);
    }
  }

  // ----- the masked text keeps what the scan looks at -----

  /** The first value masked in `o` is that at `start`, of the key that ends at `keyEnd`: up to there
      `o` is as `t` was. */
  predicate MaskedFrom(t: seq<byte>, o: seq<byte>, keyEnd: nat, start: nat) {
    && keyEnd < start < |t| && start < |o| && o[..start] == t[..start] && o[start] == MASK[0]
    && ValueRange(t, keyEnd).Some? && ValueRange(t, keyEnd).value.0 == start
  }

  lemma MaskedHere(t: seq<byte>, e: nat, start: nat, end: nat, rest: seq<byte>)
    requires e <= |t| && ValueRange(t, e) == Some((start, end))
    ensures MaskedFrom(t, t[..start] + MASK + rest, e, start)
  {
    hide Skip, SeparatorAfter, ValueAfter;
  }

  lemma MaskedFurtherOn(t: seq<byte>, o: seq<byte>, e: nat, keyEnd: nat, start: nat)
    requires e <= |t| && MaskedFrom(t[e..], o, keyEnd, start)
    ensures MaskedFrom(t, t[..e] + o, e + keyEnd, e + start)
  {
    hide Skip, SeparatorAfter, ValueAfter, ValueRange;
    ValueShifts(t, e, keyEnd);
    PrefixedAgrees(t, e, o, start);
  }

  /** Where the first value of a text is masked, if any is. */
  lemma {:induction false} FirstMask(t: seq<byte>) returns (at: Option<(nat, nat)>)
    ensures at == None ==> Redacted(t) == t
    ensures at.Some? ==> MaskedFrom(t, Redacted(t), at.value.0, at.value.1)
    decreases |t|
  {
    hide SECRET_KEYS, ValueRange, FirstKeyEnd, Redacted, MaskedFrom;
    RedactedUnfolds(t);
    if FirstKeyEnd(t) == None {
      return None;
    }
    var e := FirstKeyEnd(t).value;
    if ValueRange(t, e).Some? {
      var (start, end) := ValueRange(t, e).value;
      MaskedHere(t, e, start, end, Redacted(t[end..]));
      return Some((e, start));
    }
    at := FirstMask(t[e..]);
    assert t[..e] + t[e..] == t;
    if at.Some? {
      MaskedFurtherOn(t, Redacted(t[e..]), e, at.value.0, at.value.1);
      at := Some((e + at.value.0, e + at.value.1));
    }
  }

  lemma PrefixedAgrees(t: seq<byte>, e: nat, o: seq<byte>, start: nat)
    requires e <= |t| && start < |o| && start <= |t[e..]| && o[..start] == t[e..][..start]
    ensures (t[..e] + o)[..e + start] == t[..e + start] && (t[..e] + o)[e + start] == o[start]
  {
    assert (t[..e] + o)[..e + start] == t[..e] + o[..start];
    assert t[..e] + t[e..][..start] == t[..e + start];
  }

  /** A masked text begins as the text does. */
  lemma FirstByteStays(t: seq<byte>)
    ensures if t == [] then Redacted(t) == [] else Redacted(t) != [] && Redacted(t)[0] == t[0]
  {
    var at := FirstMask(t);
    if at.Some? {
      var o, start := Redacted(t), at.value.1;
      assert o[0] == o[..start][0] == t[..start][0];
    }
  }

  /** The scan from the start of a text that finds no value there finds none in the masked text. */
  lemma NoneStaysNone(t: seq<byte>)
    requires ValueRange(t, 0) == None
    ensures ValueRange(Redacted(t), 0) == None
  {
    var at := FirstMask(t);
    if at.Some? {
      var (keyEnd, start) := at.value;
      NoneBeforeMask(t, Redacted(t), keyEnd, start);
    }
  }

  /** Two texts that are the same up to `start`. */
  lemma SkipAgrees(t: seq<byte>, o: seq<byte>, start: nat, i: nat, member: byte -> bool)
    requires start <= |t| && start <= |o| && o[..start] == t[..start]
    requires i <= start && Skip(t, i, member) < start
    ensures Skip(o, i, member) == Skip(t, i, member)
  {
    assert forall k :: 0 <= k < start ==> o[k] == o[..start][k] == t[..start][k] == t[k];
    SkipIs(o, i, member, Skip(t, i, member));
  }

  lemma NoneBeforeMask(t: seq<byte>, o: seq<byte>, keyEnd: nat, start: nat)
    requires keyEnd < start < |t| && start < |o| && o[..start] == t[..start]
    requires ValueRange(t, keyEnd).Some? && ValueRange(t, keyEnd).value.0 == start
    requires ValueRange(t, 0) == None
    ensures ValueRange(o, 0) == None
  {
    hide Skip, QuoteEnd;
    var separator := SeparatorAfter(t, keyEnd);
    var p, q := Skip(t, 0, IsNamePart), SeparatorAfter(t, 0);
    assert p <= separator && q <= separator;
    SkipAgrees(t, o, start, 0, IsNamePart);
    SkipAgrees(t, o, start, p, IsSpace);
    SameAt(t, o, start, q);
    if IsSeparator(t[q]) {
      NoValueBeforeMask(t, o, q, separator, start);
    }
  }

  lemma SameAt(t: seq<byte>, o: seq<byte>, start: nat, i: nat)
    requires start <= |t| && start <= |o| && o[..start] == t[..start] && i < start
    ensures o[i] == t[i]
  {
    assert o[..start][i] == t[..start][i];
  }

  // an empty value, before the separator of the value that is masked
  lemma NoValueBeforeMask(t: seq<byte>, o: seq<byte>, q: nat, separator: nat, start: nat)
    requires q <= separator < start < |t| && start < |o| && o[..start] == t[..start]
    requires IsSeparator(t[separator]) && ValueAfter(t, separator).Some?
    requires ValueAfter(t, q) == None
    ensures ValueAfter(o, q) == None
  {
    hide Skip;
    var r := Skip(t, q + 1, IsSpace);
    assert q < separator && r <= separator;
    SkipAgrees(t, o, start, q + 1, IsSpace);
    SameAt(t, o, start, r);
    if IsQuote(t[r]) {
      assert t[r + 1] == t[r];
      SameAt(t, o, start, r + 1);
      assert QuoteEnd(o, r + 1, t[r]) == r + 1;
    } else {
      SkipIs(o, r, IsValuePart, r);
    }
  }

  /** The value of a key is the mask once it is masked. */
  lemma MaskIsTheValue(u: seq<byte>, start: nat, end: nat, rest: seq<byte>)
    requires ValueRange(u, 0) == Some((start, end))
    requires if end == |u| then rest == [] else rest != [] && rest[0] == u[end]
    ensures ValueRange(u[..start] + MASK + rest, 0) == Some((start, start + |MASK|))
  {
    hide Skip, QuoteEnd, ValueAfter;
    var o := u[..start] + MASK + rest;
    var p, q := Skip(u, 0, IsNamePart), SeparatorAfter(u, 0);
    ValueIsBehind(u, q, start, end);
    assert o[..start] == u[..start];
    SkipAgrees(u, o, start, 0, IsNamePart);
    SkipAgrees(u, o, start, p, IsSpace);
    SameAt(u, o, start, q);
    assert o[start..start + 3] == MASK;
    assert start + 3 < |o| ==> o[start + 3] == rest[0];
    MaskAfterSeparator(u, o, q, start, end);
  }

  lemma ValueIsBehind(u: seq<byte>, q: nat, start: nat, end: nat)
    requires q < |u| && ValueAfter(u, q) == Some((start, end))
    ensures q < start
  {
  }

  lemma MaskAfterSeparator(u: seq<byte>, o: seq<byte>, q: nat, start: nat, end: nat)
    requires q < start < end <= |u| && ValueAfter(u, q) == Some((start, end))
    requires start + 3 <= |o| && o[..start] == u[..start] && o[start..start + 3] == MASK
    requires if end == |u| then start + 3 == |o| else start + 3 < |o| && o[start + 3] == u[end]
    ensures ValueAfter(o, q) == Some((start, start + 3))
  {
    hide Skip, QuoteEnd;
    var r := Skip(u, q + 1, IsSpace);
    assert forall i :: 0 <= i < 3 ==> o[start + i] == o[start..start + 3][i] == MASK[i];
    if r < |u| && IsQuote(u[r]) {
      SkipAgrees(u, o, start, q + 1, IsSpace);
      SameAt(u, o, start, r);
      QuotedMask(o, start, u[r]);
    } else {
      assert r == start;
      PlainMask(u, o, q, start, end);
    }
  }

  lemma PlainMask(u: seq<byte>, o: seq<byte>, q: nat, start: nat, end: nat)
    requires q < start < end <= |u| && Skip(u, q + 1, IsSpace) == start && Skip(u, start, IsValuePart) == end
    requires start + 3 <= |o| && o[..start] == u[..start] && o[start..start + 3] == MASK
    requires if end == |u| then start + 3 == |o| else start + 3 < |o| && o[start + 3] == u[end]
    ensures Skip(o, q + 1, IsSpace) == start && Skip(o, start, IsValuePart) == start + 3
  {
    assert forall k :: 0 <= k < start ==> o[k] == o[..start][k] == u[..start][k] == u[k];
    var mask := o[start..start + 3];
    assert o[start] == mask[0] && o[start + 1] == mask[1] && o[start + 2] == mask[2];
    SkipIs(o, q + 1, IsSpace, start);
    SkipIs(o, start, IsValuePart, start + 3);
  }

  lemma QuotedMask(o: seq<byte>, start: nat, quote: byte)
    requires start + 3 <= |o| && o[start..start + 3] == MASK && IsQuote(quote)
    requires start + 3 < |o| ==> o[start + 3] == quote
    ensures QuoteEnd(o, start, quote) == start + 3
  {
    assert forall i :: 0 <= i < 3 ==> o[start + i] == o[start..start + 3][i] == MASK[i];
    assert o[start] == 42 && o[start + 1] == 42 && o[start + 2] == 42;
    assert QuoteEnd(o, start + 3, quote) == start + 3;
    assert QuoteEnd(o, start + 2, quote) == start + 3;
    assert QuoteEnd(o, start + 1, quote) == start + 3;
  }

  // ----- complete and idempotent -----

  /** The key that ends at `k` has no value, or its value is the mask. */
  predicate Clean(t: seq<byte>, k: nat)
    requires k <= |t|
  {
    var range := ValueRange(t, k);
    range.Some? ==> t[range.value.0..range.value.1] == MASK
  }

  lemma CleanShifts(t: seq<byte>, k: nat, i: nat)
    requires k + i <= |t|
    ensures Clean(t, k + i) == Clean(t[k..], i)
  {
    hide ValueRange;
    ValueShifts(t, k, i);
    var range := ValueRange(t[k..], i);
    if range.Some? {
      assert t[k + range.value.0..k + range.value.1] == t[k..][range.value.0..range.value.1];
    }
  }

  /** The key that ends first: without a value it still has none, with one it has the mask. */
  lemma FirstKeyIsClean(t: seq<byte>, e: nat)
    requires FirstKeyEnd(t) == Some(e)
    ensures e <= |t| && e <= |Redacted(t)| && Clean(Redacted(t), e)
  {
    hide SECRET_KEYS, ValueRange, FirstKeyEnd, Redacted;
    RedactedUnfolds(t);
    var range := ValueRange(t, e);
    if range == None {
      NoValueLeft(t, e, Redacted(t[e..]));
    } else {
      FirstByteStays(t[range.value.1..]);
      MaskLeft(t, e, range.value.0, range.value.1, Redacted(t[range.value.1..]));
    }
  }

  lemma NoValueLeft(t: seq<byte>, e: nat, o: seq<byte>)
    requires e <= |t| && ValueRange(t, e) == None && o == Redacted(t[e..])
    ensures Clean(t[..e] + o, e)
  {
    hide ValueRange, Redacted;
    ValueShifts(t, e, 0);
    NoneStaysNone(t[e..]);
    assert (t[..e] + o)[e..] == o;
    ValueShifts(t[..e] + o, e, 0);
  }

  lemma MaskLeft(t: seq<byte>, e: nat, start: nat, end: nat, rest: seq<byte>)
    requires e <= |t| && ValueRange(t, e) == Some((start, end))
    requires if end == |t| then rest == [] else rest != [] && rest[0] == t[end]
    ensures Clean(t[..start] + MASK + rest, e)
  {
    hide ValueRange;
    var o := t[..start] + MASK + rest;
    var u := t[e..];
    ValueShifts(t, e, 0);
    MaskIsTheValue(u, start - e, end - e, rest);
    assert o[e..] == u[..start - e] + MASK + rest;
    ValueShifts(o, e, 0);
  }

  /** A key that runs on from where another one ends, in one name, has the same value. */
  lemma LaterInName(o: seq<byte>, e: nat, k: nat)
    requires e <= k <= |o| && Clean(o, e)
    requires forall i :: e <= i < k ==> IsNamePart(o[i])
    ensures Clean(o, k)
  {
    hide ValueRange;
    SameName(o, e, k);
  }

  /** A letter between a key and its value is in the key's name. */
  lemma NameBeforeValue(t: seq<byte>, e: nat, start: nat, i: nat)
    requires e <= |t| && ValueRange(t, e).Some? && ValueRange(t, e).value.0 == start
    requires e <= i < start && IsLetter(t[i])
    ensures forall j :: e <= j <= i ==> IsNamePart(t[j])
  {
    hide QuoteEnd;
    var p, q := Skip(t, e, IsNamePart), SeparatorAfter(t, e);
    var r := Skip(t, q + 1, IsSpace);
    assert i < p;
  }

  ghost predicate CleanIfKey(o: seq<byte>, k: nat) {
    KeyEndsAt(o, k) ==> k <= |o| && Clean(o, k)
  }

  lemma FirstKeyIsFirst(t: seq<byte>, e: nat, o: seq<byte>, k: nat, key: nat)
    requires FirstKeyEnd(t) == Some(e) && e <= |t| && e <= |o| && o[..e] == t[..e]
    requires key < |SECRET_KEYS| && Ends(Lower(o), SECRET_KEYS[key], 0, k)
    ensures e <= k
  {
    hide SECRET_KEYS;
    var n := |SECRET_KEYS[key]|;
    if k < e {
      assert o[k - n..k] == o[..e][k - n..k] == t[k - n..k];
      SameKey(o, k, t, k, key);
    }
  }

  lemma CleanBehindNone(t: seq<byte>, e: nat, o: seq<byte>, rest: seq<byte>, k: nat)
    requires FirstKeyEnd(t) == Some(e) && e <= |t| && o == t[..e] + rest
    requires Clean(o, e) && forall j: nat :: CleanIfKey(rest, j)
    ensures CleanIfKey(o, k)
  {
    hide SECRET_KEYS, FirstKeyEnd, Clean, KeyEndsAt, SeparatorAfter;
    if KeyEndsAt(o, k) {
      var key := KeyBefore(o, k);
      var from := k - |SECRET_KEYS[key]|;
      FirstKeyIsFirst(t, e, o, k, key);
      if from >= e {
        assert o[from..k] == rest[from - e..k - e];
        SameKey(o, k, rest, k - e, key);
        assert CleanIfKey(rest, k - e);
        assert o[e..] == rest;
        CleanShifts(o, e, k - e);
      } else {
        LaterInName(o, e, k);
      }
    }
  }

  lemma CleanBehindValue(t: seq<byte>, e: nat, start: nat, o: seq<byte>, rest: seq<byte>, k: nat)
    requires FirstKeyEnd(t) == Some(e) && e <= start <= |t| && o == t[..start] + MASK + rest
    requires ValueRange(t, e).Some? && ValueRange(t, e).value.0 == start
    requires Clean(o, e) && forall j: nat :: CleanIfKey(rest, j)
    ensures CleanIfKey(o, k)
  {
    hide SECRET_KEYS, FirstKeyEnd, Clean, KeyEndsAt, ValueRange;
    if KeyEndsAt(o, k) {
      var key := KeyBefore(o, k);
      var from := k - |SECRET_KEYS[key]|;
      FirstKeyIsFirst(t, e, o, k, key);
      var s := start + |MASK|;
      assert forall i :: start <= i < s ==> !IsLetter(o[i]);
      assert k <= start || from >= s by {
        var m := if from < start then start else from;
        assert from <= m < k ==> IsLetter(o[m]);
        assert start <= m < s ==> !IsLetter(o[m]);
      }
      if from >= s {
        assert o[from..k] == rest[from - s..k - s];
        SameKey(o, k, rest, k - s, key);
        assert CleanIfKey(rest, k - s);
        assert o[s..] == rest;
        CleanShifts(o, s, k - s);
      } else {
        assert forall i :: 0 <= i < start ==> o[i] == t[i];
        if k > e {
          NameBeforeValue(t, e, start, k - 1);
        }
        LaterInName(o, e, k);
      }
    }
  }

  /** Nothing is left to mask: in what comes out every secret key, in any letter case, however keys overlap
      or sit in one another's names, has no value or the mask for one. */
  lemma {:induction false} MaskingIsComplete(t: seq<byte>, k: nat)
    ensures KeyEndsAt(Redacted(t), k) ==> k <= |Redacted(t)| && Clean(Redacted(t), k)
    decreases |t|
  {
    hide SECRET_KEYS, ValueRange, FirstKeyEnd, Redacted, Clean, KeyEndsAt;
    RedactedUnfolds(t);
    if FirstKeyEnd(t) == None {
      NoKey(t, k);
    } else {
      var e := FirstKeyEnd(t).value;
      FirstKeyIsClean(t, e);
      if ValueRange(t, e) == None {
        forall j: nat ensures CleanIfKey(Redacted(t[e..]), j) {
          MaskingIsComplete(t[e..], j);
        }
        CleanBehindNone(t, e, Redacted(t), Redacted(t[e..]), k);
      } else {
        var (start, end) := ValueRange(t, e).value;
        forall j: nat ensures CleanIfKey(Redacted(t[end..]), j) {
          MaskingIsComplete(t[end..], j);
        }
        CleanBehindValue(t, e, start, Redacted(t), Redacted(t[end..]), k);
      }
    }
  }

  lemma NoKey(t: seq<byte>, k: nat)
    requires FirstKeyEnd(t) == None
    ensures !KeyEndsAt(t, k)
  {
    hide SECRET_KEYS;
  }

  /** A text whose every key is clean is left as it is. */
  lemma {:induction false} CleanTextStays(t: seq<byte>)
    requires forall k: nat :: CleanIfKey(t, k)
    ensures Redacted(t) == t
    decreases |t|
  {
    hide SECRET_KEYS, ValueRange, FirstKeyEnd, Redacted, KeyEndsAt;
    RedactedUnfolds(t);
    if FirstKeyEnd(t).Some? {
      var e := FirstKeyEnd(t).value;
      FirstKeyEnds(t, e);
      assert CleanIfKey(t, e);
      var range := ValueRange(t, e);
      var from := if range.Some? then range.value.1 else e;
      CleanRest(t, from);
      CleanTextStays(t[from..]);
      if range.Some? {
        assert t == t[..range.value.0] + t[range.value.0..from] + t[from..];
      } else {
        assert t == t[..e] + t[e..];
      }
    }
  }

  lemma FirstKeyEnds(t: seq<byte>, e: nat)
    requires FirstKeyEnd(t) == Some(e)
    ensures KeyEndsAt(t, e)
  {
  }

  lemma CleanRest(t: seq<byte>, from: nat)
    requires from <= |t| && forall k: nat :: CleanIfKey(t, k)
    ensures forall k: nat :: CleanIfKey(t[from..], k)
  {
    hide SECRET_KEYS, Clean, KeyEndsAt;
    forall k: nat ensures CleanIfKey(t[from..], k) {
      if KeyEndsAt(t[from..], k) {
        var key := KeyBefore(t[from..], k);
        var n := |SECRET_KEYS[key]|;
        assert t[from..][k - n..k] == t[from + k - n..from + k];
        SameKey(t[from..], k, t, from + k, key);
        assert CleanIfKey(t, from + k);
        CleanShifts(t, from, k);
      }
    }
  }

  /** Masking what has been masked changes nothing. */
  lemma MaskingIsIdempotent(t: seq<byte>)
    ensures Redacted(Redacted(t)) == Redacted(t)
  {
    hide Redacted, KeyEndsAt, Clean;
    forall k: nat ensures CleanIfKey(Redacted(t), k) {
      MaskingIsComplete(t, k);
    }
    CleanTextStays(Redacted(t));
  }

  // ----- the scanner -----

  /** The ranges are the values of keys of the text, each of them whole, in order and apart, cut at character
      boundaries. */
  ghost predicate AreValues(t: seq<byte>, ranges: seq<(nat, nat)>) {
    && (forall i :: 0 <= i < |ranges| ==> IsValueOfKey(t, ranges[i]))
    && (forall i :: 0 < i < |ranges| ==> ranges[i - 1].1 < ranges[i].0)
  }

  ghost predicate IsValueOfKey(t: seq<byte>, range: (nat, nat)) {
    && Boundary(t, range.0) && Boundary(t, range.1) && IsWhole(t, range)
    && exists e: nat :: e <= |t| && KeyEndsAt(t, e) && ValueRange(t, e) == Some(range)
  }

  /** The end of the last range, where copying goes on. */
  function LastEnd(ranges: seq<(nat, nat)>): nat {
    if ranges == [] then 0 else ranges[|ranges| - 1].1
  }

  /** The text up to the end of the last range, each range replaced by the mask and all else copied. */
  function Masked(t: seq<byte>, ranges: seq<(nat, nat)>): seq<byte> {
    if ranges == [] then []
    else
      var before := ranges[..|ranges| - 1];
      var range := ranges[|ranges| - 1];
      Masked(t, before) +
      (if LastEnd(before) <= range.0 <= |t| then t[LastEnd(before)..range.0] else []) + MASK
  }

  lemma LowerOfRest(t: seq<byte>, from: nat)
    requires from <= |t|
    ensures Lower(t)[from..] == Lower(t[from..])
  {
  }

  lemma EndsShifts(lower: seq<byte>, from: nat, k: nat, e: nat)
    requires k < |SECRET_KEYS| && from <= |lower| && from <= e
    ensures Ends(lower, SECRET_KEYS[k], from, e) <==> Ends(lower[from..], SECRET_KEYS[k], 0, e - from)
  {
    hide SECRET_KEYS;
    var n := |SECRET_KEYS[k]|;
    if from + n <= e <= |lower| {
      assert lower[from..][e - from - n..e - from] == lower[e - n..e];
    }
  }

  lemma OneEndsShifts(lower: seq<byte>, from: nat, e: nat)
    requires from <= |lower| && from <= e
    ensures OneEnds(lower, SECRET_KEYS, from, e) <==> OneEnds(lower[from..], SECRET_KEYS, 0, e - from)
  {
    hide SECRET_KEYS;
    forall k | 0 <= k < |SECRET_KEYS|
      ensures Ends(lower, SECRET_KEYS[k], from, e) <==> Ends(lower[from..], SECRET_KEYS[k], 0, e - from)
    {
      EndsShifts(lower, from, k, e);
    }
  }

  /** Searching on from a place is searching what comes after it. */
  lemma NextKeyIsFirstOfRest(t: seq<byte>, from: nat)
    requires from <= |t|
    ensures FirstKeyEnd(t[from..]) == None <==> NextSecretKeyEnd(Lower(t), from) == None
    ensures FirstKeyEnd(t[from..]).Some? ==>
      NextSecretKeyEnd(Lower(t), from) == Some(from + FirstKeyEnd(t[from..]).value)
  {
    hide SECRET_KEYS, OneEnds;
    LowerOfRest(t, from);
    var first, next := FirstKeyEnd(t[from..]), NextSecretKeyEnd(Lower(t), from);
    if first.Some? {
      OneEndsShifts(Lower(t), from, from + first.value);
    }
    if next.Some? {
      EndsBehind(Lower(t), from, next.value);
      OneEndsShifts(Lower(t), from, next.value);
    }
  }

  lemma EndsBehind(lower: seq<byte>, from: nat, e: nat)
    requires OneEnds(lower, SECRET_KEYS, from, e)
    ensures from <= e && OneEnds(lower, SECRET_KEYS, 0, e)
  {
    hide SECRET_KEYS;
    var k :| 0 <= k < |SECRET_KEYS| && Ends(lower, SECRET_KEYS[k], from, e);
    assert Ends(lower, SECRET_KEYS[k], 0, e);
  }

  /** There is an ASCII byte before a value and, unless the text ends, after it. */
  lemma ValueEdges(t: seq<byte>, e: nat)
    requires e <= |t| && ValueRange(t, e).Some?
    ensures var (start, end) := ValueRange(t, e).value;
      t[start - 1] < 0x80 && (end < |t| ==> t[end] < 0x80)
  {
    var q := SeparatorAfter(t, e);
    var r := Skip(t, q + 1, IsSpace);
    var start := ValueRange(t, e).value.0;
    assert q < r && (start == r || start == r + 1);
    if start == r && r > q + 1 {
      assert IsSpace(t[start - 1]);
    }
  }

  /** A value is cut out at character boundaries, wherever its escapes landed. */
  lemma ValueBoundaries(t: seq<byte>, e: nat)
    requires Valid(t) && e <= |t| && ValueRange(t, e).Some?
    ensures Boundary(t, ValueRange(t, e).value.0) && Boundary(t, ValueRange(t, e).value.1)
  {
    hide ValueRange, Valid;
    ValueEdges(t, e);
    AsciiEndsAtBoundary(t, ValueRange(t, e).value.0 - 1);
  }

  lemma KeyBoundary(t: seq<byte>, e: nat)
    requires Valid(t) && KeyEndsAt(t, e)
    ensures Boundary(t, e) && 0 < e
  {
    EndIsPositive(t, e);
    AsciiEndsAtBoundary(t, e - 1);
  }

  lemma MaskIsText()
    ensures Valid(MASK)
  {
    assert Valid(MASK[3..]);
    assert MASK[2..][1..] == MASK[3..] && MASK[1..][1..] == MASK[2..];
    assert Valid(MASK[2..]) && Valid(MASK[1..]);
  }

  lemma FoundEnds(t: seq<byte>, from: nat, keyEnd: nat)
    requires NextSecretKeyEnd(Lower(t), from) == Some(keyEnd)
    ensures KeyEndsAt(t, keyEnd)
  {
    hide SECRET_KEYS;
    EndsBehind(Lower(t), from, keyEnd);
  }

  lemma NextKeyIsBehind(t: seq<byte>, from: nat, e: nat)
    requires from <= |t| && NextSecretKeyEnd(Lower(t), from) == Some(e)
    ensures from < e <= |t|
  {
    hide SECRET_KEYS;
    var k :| 0 <= k < |SECRET_KEYS| && Ends(Lower(t), SECRET_KEYS[k], from, e);
    KeysAreLetters(k);
  }

  /** The values that are masked when the scan is at `from`. */
  function MaskedRanges(t: seq<byte>, from: nat): seq<(nat, nat)>
    requires from <= |t|
    decreases |t| - from
  {
    match NextSecretKeyEnd(Lower(t), from)
    case None => []
    case Some(e) =>
      NextKeyIsBehind(t, from, e);
      match ValueRange(t, e)
      case None => MaskedRanges(t, e)
      case Some(range) => [range] + MaskedRanges(t, range.1)
  }

  lemma RangesUnfold(t: seq<byte>, from: nat)
    requires from <= |t|
    ensures NextSecretKeyEnd(Lower(t), from) == None ==> MaskedRanges(t, from) == []
    ensures forall e :: NextSecretKeyEnd(Lower(t), from) == Some(e) ==>
      && from < e <= |t|
      && MaskedRanges(t, from) == (if ValueRange(t, e) == None then MaskedRanges(t, e)
                                   else [ValueRange(t, e).value] + MaskedRanges(t, ValueRange(t, e).value.1))
  {
    hide SECRET_KEYS, ValueRange;
    if NextSecretKeyEnd(Lower(t), from).Some? {
      NextKeyIsBehind(t, from, NextSecretKeyEnd(Lower(t), from).value);
    }
  }

  lemma KeyFound(t: seq<byte>, from: nat, keyEnd: nat)
    requires Valid(t) && from <= |t| && NextSecretKeyEnd(Lower(t), from) == Some(keyEnd)
    ensures from < keyEnd <= |t| && KeyEndsAt(t, keyEnd) && Boundary(t, keyEnd)
    ensures FirstKeyEnd(t[from..]) == Some(keyEnd - from)
  {
    hide SECRET_KEYS, OneEnds, FirstKeyEnd, Valid, KeyEndsAt;
    NextKeyIsFirstOfRest(t, from);
    FirstKeyEnds(t[from..], keyEnd - from);
    EndIsPositive(t[from..], keyEnd - from);
    FoundEnds(t, from, keyEnd);
    KeyBoundary(t, keyEnd);
  }

  lemma StepPastValue(t: seq<byte>, out: seq<byte>, copied: nat, from: nat, keyEnd: nat, start: nat, end: nat)
    requires copied <= from <= keyEnd <= |t|
    requires FirstKeyEnd(t[from..]) == Some(keyEnd - from) && ValueRange(t, keyEnd) == Some((start, end))
    ensures out + t[copied..from] + Redacted(t[from..])
         == out + t[copied..start] + MASK + t[end..end] + Redacted(t[end..])
  {
    hide SECRET_KEYS, ValueRange, FirstKeyEnd, Redacted;
    RestUnfolds(t, from, keyEnd, start, end);
    assert t[copied..start] == t[copied..from] + t[from..start];
    assert t[end..end] == [];
    Regroup(out, t[copied..from], t[from..start], MASK, Redacted(t[end..]));
  }

  lemma SliceOfRest(t: seq<byte>, from: nat, to: nat)
    requires from <= to <= |t|
    ensures t[from..][to - from..] == t[to..] && t[from..][..to - from] == t[from..to]
  {
  }

  lemma RestUnfolds(t: seq<byte>, from: nat, keyEnd: nat, start: nat, end: nat)
    requires from <= keyEnd <= |t|
    requires FirstKeyEnd(t[from..]) == Some(keyEnd - from) && ValueRange(t, keyEnd) == Some((start, end))
    ensures Redacted(t[from..]) == t[from..start] + MASK + Redacted(t[end..])
  {
    hide SECRET_KEYS, ValueRange, FirstKeyEnd, Redacted;
    ValueShifts(t, from, keyEnd - from);
    RedactedWithValue(t[from..], keyEnd - from, start - from, end - from);
    SliceOfRest(t, from, start);
    SliceOfRest(t, from, end);
  }

  lemma RedactedWithValue(t: seq<byte>, e: nat, start: nat, end: nat)
    requires FirstKeyEnd(t) == Some(e) && e <= |t| && ValueRange(t, e) == Some((start, end))
    ensures Redacted(t) == t[..start] + MASK + Redacted(t[end..])
  {
    hide SECRET_KEYS, ValueRange, FirstKeyEnd, Redacted;
    RedactedUnfolds(t);
  }

  lemma Regroup(out: seq<byte>, a: seq<byte>, b: seq<byte>, mask: seq<byte>, rest: seq<byte>)
    ensures out + a + (b + mask + rest) == out + (a + b) + mask + [] + rest
  {
  }

  lemma StepPastKey(t: seq<byte>, out: seq<byte>, copied: nat, from: nat, keyEnd: nat)
    requires copied <= from <= keyEnd <= |t|
    requires FirstKeyEnd(t[from..]) == Some(keyEnd - from) && ValueRange(t, keyEnd) == None
    ensures out + t[copied..from] + Redacted(t[from..]) == out + t[copied..keyEnd] + Redacted(t[keyEnd..])
  {
    hide SECRET_KEYS, ValueRange, FirstKeyEnd, Redacted;
    ValueShifts(t, from, keyEnd - from);
    RedactedWithout(t[from..], keyEnd - from);
    SliceOfRest(t, from, keyEnd);
    assert t[copied..keyEnd] == t[copied..from] + t[from..keyEnd];
    Regroup(out, t[copied..from], t[from..keyEnd], [], Redacted(t[keyEnd..]));
    NoMask(out + t[copied..keyEnd], Redacted(t[keyEnd..]), t[from..keyEnd]);
  }

  lemma NoMask(a: seq<byte>, b: seq<byte>, c: seq<byte>)
    ensures a + [] + [] + b == a + b && c + [] + b == c + b
  {
    assert a + [] == a && c + [] == c;
  }

  lemma RedactedWithout(t: seq<byte>, e: nat)
    requires FirstKeyEnd(t) == Some(e) && e <= |t| && ValueRange(t, e) == None
    ensures Redacted(t) == t[..e] + Redacted(t[e..])
  {
    hide SECRET_KEYS, ValueRange, FirstKeyEnd, Redacted;
    RedactedUnfolds(t);
  }

  lemma NothingLeft(t: seq<byte>, out: seq<byte>, copied: nat, from: nat)
    requires copied <= from <= |t| && NextSecretKeyEnd(Lower(t), from) == None
    ensures out + t[copied..from] + Redacted(t[from..]) == out + t[copied..]
  {
    hide SECRET_KEYS, FirstKeyEnd;
    NextKeyIsFirstOfRest(t, from);
    RedactedUnfolds(t[from..]);
    assert t[copied..] == t[copied..from] + t[from..];
  }

  lemma NothingMasked(t: seq<byte>)
    ensures Masked(t, []) == []
  {
  }

  lemma RangesExtend(t: seq<byte>, ranges: seq<(nat, nat)>, keyEnd: nat, start: nat, end: nat)
    requires AreValues(t, ranges) && LastEnd(ranges) <= keyEnd <= |t|
    requires KeyEndsAt(t, keyEnd) && ValueRange(t, keyEnd) == Some((start, end))
    requires Boundary(t, start) && Boundary(t, end)
    ensures AreValues(t, ranges + [(start, end)]) && LastEnd(ranges + [(start, end)]) == end
    ensures Masked(t, ranges + [(start, end)]) == Masked(t, ranges) + t[LastEnd(ranges)..start] + MASK
  {
    hide SECRET_KEYS, ValueRange, KeyEndsAt, IsWhole, DELIMITERS, Boundary;
    ValueIsWhole(t, keyEnd);
    var more := ranges + [(start, end)];
    assert more[..|more| - 1] == ranges;
    assert IsValueOfKey(t, (start, end));
  }

  /** redact_secrets: what comes out is the masked text, a text itself, and the input but for the
      values of its keys; every slice on the way is cut at character boundaries. */
  method RedactSecrets(text: seq<byte>) returns (out: seq<byte>, ghost ranges: seq<(nat, nat)>)
    requires Valid(text)
    ensures out == Redacted(text) && Valid(out)
    ensures ranges == MaskedRanges(text, 0)
    ensures AreValues(text, ranges) && LastEnd(ranges) <= |text|
    ensures out == Masked(text, ranges) + text[LastEnd(ranges)..]
  {
    hide SECRET_KEYS, ValueRange, FirstKeyEnd, Redacted, KeyEndsAt, CharLength, Masked, Lower, MaskedRanges, IsWhole;
    var lower := Lower(text);
    out, ranges := [], [];
    var copied, searchFrom := 0, 0;
    var next := NextSecretKeyEnd(lower, searchFrom);
    assert text[0..] == text;
    NothingMasked(text);
    MaskIsText();
    while next.Some?
      invariant next == NextSecretKeyEnd(lower, searchFrom)
      invariant copied <= searchFrom <= |text| && Boundary(text, copied) && Boundary(text, searchFrom)
      invariant Valid(out) && AreValues(text, ranges)
      invariant out == Masked(text, ranges) && copied == LastEnd(ranges)
      invariant ranges + MaskedRanges(text, searchFrom) == MaskedRanges(text, 0)
      invariant out + text[copied..searchFrom] + Redacted(text[searchFrom..]) == Redacted(text)
      decreases |text| - searchFrom
    {
      var keyEnd := next.value;
      KeyFound(text, searchFrom, keyEnd);
      RangesUnfold(text, searchFrom);
      var range := SecretValueRange(text, keyEnd);
      ghost var before := searchFrom;
      match range {
        case Some((start, end)) =>
          ValueBoundaries(text, keyEnd);
          StepPastValue(text, out, copied, searchFrom, keyEnd, start, end);
          RangesExtend(text, ranges, keyEnd, start, end);
          out := Push(Push(out, Slice(text, copied, start)), MASK);
          ranges := ranges + [(start, end)];
          copied := end;
          searchFrom := end;
        case None =>
          StepPastKey(text, out, copied, searchFrom, keyEnd);
          searchFrom := keyEnd;
      }
      next := NextSecretKeyEnd(lower, searchFrom);
    }
    NothingLeft(text, out, copied, searchFrom);
    RangesUnfold(text, searchFrom);
    out := Push(out, Slice(text, copied, |text|));
  }
}
