/** What shortening does to a text, said word by word. */
module UuidWords {
  import opened Wrappers
  import opened Utf8
  import opened UuidMask

  /** A byte of an id that is no letter and no digit is one of its four hyphens. */
  lemma HyphenInId(t: seq<byte>, i: nat, k: nat)
    requires i + 36 <= |t| && IsUuid(t[i..i + 36]) && k < 36
    ensures t[i + k] == '-' as int <==> k == 8 || k == 13 || k == 18 || k == 23
    ensures IsAlphanumeric(t[i + k]) <==> !(k == 8 || k == 13 || k == 18 || k == 23)
  {
    assert t[i..i + 36][k] == t[i + k];
  }

  /** Ids do not overlap or touch, so none hides another from the scan. */
  lemma IdsAreApart(t: seq<byte>, i: nat, j: nat)
    requires IdAt(t, i) && i < j <= i + 36
    ensures !IdAt(t, j)
  {
    hide IsUuid, IsAlphanumeric;
    HyphenInId(t, i, j - 1 - i);
    if IdAt(t, j) {
      HyphenInId(t, j, 8);
      if j < i + 28 {
        HyphenInId(t, i, j + 8 - i);
      }
    }
  }

  lemma NextIdIs(t: seq<byte>, from: nat, at: nat)
    requires from <= at && IdAt(t, at) && forall i :: from <= i < at ==> !IdAt(t, i)
    ensures NextId(t, from) == Some(at)
  {
  }

  lemma SameAfter(t: seq<byte>, from: nat, k: nat)
    requires 0 < from <= |t| && IsAlphanumeric(t[from - 1])
    requires from < |t| ==> !IsAlphanumeric(t[from])
    ensures IdAt(t, from + k) <==> IdAt(t[from..], k)
  {
    hide IsUuid, IsAlphanumeric;
    var rest := t[from..];
    if from + k + 36 <= |t| {
      assert rest[k..k + 36] == t[from + k..from + k + 36];
      assert k > 0 ==> rest[k - 1] == t[from + k - 1];
      assert from + k + 36 < |t| ==> rest[k + 36] == t[from + k + 36];
      if k == 0 {
        if IsUuid(rest[0..36]) {
          HyphenInId(rest, 0, 0);
        }
      }
    }
  }

  /** What comes after an id is shortened as if it stood alone. */
  lemma {:induction false} RestStandsAlone(t: seq<byte>, from: nat, i: nat)
    requires 0 < from <= |t| && IsAlphanumeric(t[from - 1]) && (from < |t| ==> !IsAlphanumeric(t[from]))
    requires from <= i <= |t|
    ensures Shortened(t, i) == Shortened(t[from..], i - from)
    decreases |t| - i
  {
    hide IdAt, NextId, Shortened, IsAlphanumeric;
    var rest := t[from..];
    forall k: nat ensures IdAt(t, from + k) <==> IdAt(rest, k) {
      SameAfter(t, from, k);
    }
    ShortenedUnfolds(t, i);
    ShortenedUnfolds(rest, i - from);
    if NextId(t, i).Some? {
      var at := NextId(t, i).value;
      assert IdAt(rest, at - from);
      assert NextId(rest, i - from) == Some(at - from);
      IdIsInside(t, at);
      RestStandsAlone(t, from, at + 36);
      assert rest[i - from..at + 4 - from] == t[i..at + 4];
    } else {
      assert NextId(rest, i - from) == None;
      assert rest[i - from..] == t[i..];
    }
  }

  lemma SameBefore(a: seq<byte>, id: seq<byte>, b: seq<byte>, k: nat)
    requires IsUuid(id) && k < |a|
    requires !IsAlphanumeric(a[|a| - 1]) && (b != [] ==> !IsAlphanumeric(b[0]))
    ensures IdAt(a + id + b, k) <==> IdAt(a, k)
  {
    hide IsUuid, IsAlphanumeric;
    var t := a + id + b;
    WordIsId(a, id, b);
    if IdAt(t, k) && |a| <= k + 36 {
      IdsAreApart(t, k, |a|);
    }
    if IdAt(a, k) && k + 36 == |a| {
      HyphenInId(a, k, 35);
    }
    if k + 36 < |a| {
      assert t[k..k + 36] == a[k..k + 36];
      assert t[k + 36] == a[k + 36] && (k > 0 ==> t[k - 1] == a[k - 1]);
    }
  }

  lemma WordIsId(a: seq<byte>, id: seq<byte>, b: seq<byte>)
    requires IsUuid(id) && (a != [] ==> !IsAlphanumeric(a[|a| - 1])) && (b != [] ==> !IsAlphanumeric(b[0]))
    ensures IdAt(a + id + b, |a|)
  {
    hide IsUuid, IsAlphanumeric;
    var t := a + id + b;
    assert |id| == 36 by { UuidLength(id); }
    assert t[|a|..|a| + 36] == id;
    assert a != [] ==> t[|a| - 1] == a[|a| - 1];
    assert b != [] ==> t[|a| + 36] == b[0];
  }

  lemma UuidLength(id: seq<byte>)
    requires IsUuid(id)
    ensures |id| == 36 && IsAlphanumeric(id[35])
  {
  }

  lemma {:induction false} WordFrom(a: seq<byte>, id: seq<byte>, b: seq<byte>, from: nat)
    requires IsUuid(id) && (a != [] ==> !IsAlphanumeric(a[|a| - 1])) && (b != [] ==> !IsAlphanumeric(b[0]))
    requires from <= |a|
    ensures |id| == 36 && Shortened(a + id + b, from) == Shortened(a, from) + id[..4] + ELLIPSIS + Shortened(b, 0)
    decreases |a| - from
  {
    hide IdAt, NextId, Shortened, IsAlphanumeric, IsUuid;
    var t := a + id + b;
    UuidLength(id);
    WordIsId(a, id, b);
    forall k | 0 <= k < |a| ensures IdAt(t, k) <==> IdAt(a, k) {
      SameBefore(a, id, b, k);
    }
    ShortenedUnfolds(t, from);
    ShortenedUnfolds(a, from);
    if NextId(a, from).Some? {
      var at := NextId(a, from).value;
      IdIsInside(a, at);
      assert NextId(t, from) == Some(at);
      WordFrom(a, id, b, at + 36);
      SliceBefore(a, id, b, from, at + 4);
      Joined(a[from..at + 4], Shortened(a, at + 36), id[..4], Shortened(b, 0));
    } else {
      RestAfterWord(a, id, b);
      SliceToDigits(a, id, b, from);
    }
  }

  lemma SliceToDigits(a: seq<byte>, id: seq<byte>, b: seq<byte>, from: nat)
    requires from <= |a| && |id| == 36
    ensures (a + id + b)[from..|a| + 4] == a[from..] + id[..4]
  {
  }

  lemma SliceBefore(a: seq<byte>, id: seq<byte>, b: seq<byte>, from: nat, to: nat)
    requires from <= to <= |a|
    ensures (a + id + b)[from..to] == a[from..to]
  {
  }

  lemma RestAfterWord(a: seq<byte>, id: seq<byte>, b: seq<byte>)
    requires IsUuid(id) && (b != [] ==> !IsAlphanumeric(b[0]))
    ensures |id| == 36 && Shortened(a + id + b, |a| + 36) == Shortened(b, 0)
  {
    hide IdAt, NextId, Shortened, IsAlphanumeric, IsUuid;
    var t := a + id + b;
    UuidLength(id);
    assert t[|a| + 36..] == b;
    assert t[|a| + 35] == id[35];
    RestStandsAlone(t, |a| + 36, |a| + 36);
  }

  lemma Joined(p: seq<byte>, q: seq<byte>, digits: seq<byte>, rest: seq<byte>)
    ensures p + ELLIPSIS + (q + digits + ELLIPSIS + rest) == (p + ELLIPSIS + q) + digits + ELLIPSIS + rest
  {
  }

  /** Of every id that is a word of its own, wherever in a text, its first four digits and an ellipsis are
      left, and what stands before and after it is shortened as it would be alone. */
  lemma WordIsShortened(before: seq<byte>, id: seq<byte>, after: seq<byte>)
    requires IsUuid(id)
    requires before != [] ==> !IsAlphanumeric(before[|before| - 1])
    requires after != [] ==> !IsAlphanumeric(after[0])
    ensures |id| == 36
    ensures Shortened(before + id + after, 0) == Shortened(before, 0) + id[..4] + ELLIPSIS + Shortened(after, 0)
  {
    WordFrom(before, id, after, 0);
  }

  /** And a text without one stays as it is. */
  lemma TextWithoutIdStays(t: seq<byte>)
    requires forall i: nat :: !IdAt(t, i)
    ensures Shortened(t, 0) == t
  {
    assert NextId(t, 0) == None;
  }
}
