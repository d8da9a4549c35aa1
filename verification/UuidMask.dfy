/** Shortening the participants' ids in what is logged: redact_uuids, src-tauri/src/logging.rs:674-699
    and is_uuid, src-tauri/src/logging.rs:728-733. */
module UuidMask {
  import opened Wrappers
  import opened Utf8

  /** The horizontal ellipsis in UTF-8. */
  const ELLIPSIS: seq<byte> := [0xE2, 0x80, 0xA6]

  predicate IsHexDigit(b: byte) {
    IsDigit(b) || 'a' as int <= b <= 'f' as int || 'A' as int <= b <= 'F' as int
  }

  predicate IsUuid(t: seq<byte>) {
    |t| == 36 &&
    forall i :: 0 <= i < 36 ==>
      if i == 8 || i == 13 || i == 18 || i == 23 then t[i] == '-' as int else IsHexDigit(t[i])
  }

  /** An id that is a word of its own begins at `i`. */
  predicate IdAt(t: seq<byte>, i: nat) {
    && i + 36 <= |t|
    && (i == 0 || !IsAlphanumeric(t[i - 1]))
    && IsUuid(t[i..i + 36])
    && (i + 36 < |t| ==> !IsAlphanumeric(t[i + 36]))
  }

  function NextId(t: seq<byte>, from: nat): (at: Option<nat>)
    ensures at.Some? ==> from <= at.value && IdAt(t, at.value)
    ensures forall i :: from <= i && IdAt(t, i) ==> at.Some? && at.value <= i
    decreases |t| - from
  {
    if from + 36 > |t| then None else if IdAt(t, from) then Some(from) else NextId(t, from + 1)
  }

  /** What becomes of t[from..]: of each id its first four digits and an ellipsis. */
  function Shortened(t: seq<byte>, from: nat): seq<byte>
    requires from <= |t|
    decreases |t| - from
  {
    match NextId(t, from)
    case None => t[from..]
    case Some(at) => t[from..at + 4] + ELLIPSIS + Shortened(t, at + 36)
  }

  lemma FirstByteStays(t: seq<byte>, from: nat)
    requires from <= |t|
    ensures if from == |t| then Shortened(t, from) == []
            else Shortened(t, from) != [] && Shortened(t, from)[0] == t[from]
  {
  }

  lemma UuidByte(t: seq<byte>, i: nat, k: nat)
    requires i + 36 <= |t| && IsUuid(t[i..i + 36]) && k < 36
    ensures t[i + k] == '-' as int || IsHexDigit(t[i + k])
    ensures k != 8 && k != 13 && k != 18 && k != 23 ==> IsHexDigit(t[i + k])
  {
    assert t[i..i + 36][k] == t[i + k];
  }

  /** Two texts that are the same around a place have an id there or not alike. */
  lemma SameId(o: seq<byte>, k: nat, t: seq<byte>, i: nat)
    requires IdAt(o, k) && i + 36 <= |t| && t[i..i + 36] == o[k..k + 36]
    requires i == 0 || (if k == 0 then !IsAlphanumeric(t[i - 1]) else t[i - 1] == o[k - 1])
    requires i + 36 < |t| ==> !IsAlphanumeric(t[i + 36])
    ensures IdAt(t, i)
  {
  }

  /** No id is left in what became of t[from..], unless it begins there in the middle of a word. */
  lemma {:induction false} NoIdLeft(t: seq<byte>, from: nat, k: nat)
    requires from <= |t|
    requires k == 0 ==> from == 0 || !IsAlphanumeric(t[from - 1])
    ensures !IdAt(Shortened(t, from), k)
    decreases |t| - from
  {
    hide IsUuid, IsAlphanumeric, IsHexDigit, Shortened, IdAt, NextId;
    var o := Shortened(t, from);
    ShortenedUnfolds(t, from);
    match NextId(t, from)
    case None => NotInRest(t, from, k);
    case Some(at) =>
      assert at + 36 <= |t| by { IdIsInside(t, at); }
      var tail := at + 4 - from + |ELLIPSIS|;
      if k == tail {
        NotAtTail(t, from, at, k);
      } else if k > tail {
        NoIdLeft(t, at + 36, k - tail);
        BehindTail(o, tail, Shortened(t, at + 36), k);
      } else if k + 36 <= at + 4 - from {
        NotBeforeId(t, from, at, o, k);
      } else {
        NotAcrossEllipsis(t, from, at, o, k);
      }
  }

  lemma IdIsInside(t: seq<byte>, at: nat)
    requires IdAt(t, at)
    ensures at + 36 <= |t|
  {
  }

  lemma NotInRest(t: seq<byte>, from: nat, k: nat)
    requires from <= |t| && NextId(t, from) == None
    requires k == 0 ==> from == 0 || !IsAlphanumeric(t[from - 1])
    ensures !IdAt(t[from..], k)
  {
    hide IdAt;
    IdInRest(t, from, k);
    assert !IdAt(t, from + k);
  }

  lemma IdInRest(t: seq<byte>, from: nat, k: nat)
    requires from <= |t|
    requires k == 0 ==> from == 0 || !IsAlphanumeric(t[from - 1])
    ensures IdAt(t[from..], k) ==> IdAt(t, from + k)
  {
    hide IsUuid, IsAlphanumeric;
    if IdAt(t[from..], k) {
      SliceOfRest(t, from, k, k + 36);
      assert k > 0 ==> t[from..][k - 1] == t[from + k - 1];
      assert from + k + 36 < |t| ==> t[from..][k + 36] == t[from + k + 36];
    }
  }

  lemma SliceOfRest(t: seq<byte>, from: nat, i: nat, j: nat)
    requires from <= |t| && i <= j && from + j <= |t|
    ensures t[from..][i..j] == t[from + i..from + j]
  {
  }

  lemma ShortenedUnfolds(t: seq<byte>, from: nat)
    requires from <= |t|
    ensures NextId(t, from) == None ==> Shortened(t, from) == t[from..]
    ensures forall at :: NextId(t, from) == Some(at) ==>
      Shortened(t, from) == t[from..at + 4] + ELLIPSIS + Shortened(t, at + 36)
  {
  }

  lemma NotAtTail(t: seq<byte>, from: nat, at: nat, k: nat)
    requires from <= at && IdAt(t, at)
    requires k == at + 4 - from + |ELLIPSIS|
    ensures !IdAt(t[from..at + 4] + ELLIPSIS + Shortened(t, at + 36), k)
  {
    var o := t[from..at + 4] + ELLIPSIS + Shortened(t, at + 36);
    FirstByteStays(t, at + 36);
    if k + 36 <= |o| && IsUuid(o[k..k + 36]) {
      UuidByte(o, k, 0);
    }
  }

  lemma BehindTail(o: seq<byte>, tail: nat, rest: seq<byte>, k: nat)
    requires tail < k && tail <= |o| && o[tail..] == rest
    ensures IdAt(o, k) == IdAt(rest, k - tail)
  {
    if k + 36 <= |o| {
      assert o[k..k + 36] == rest[k - tail..k - tail + 36];
    }
  }

  lemma NotAcrossEllipsis(t: seq<byte>, from: nat, at: nat, o: seq<byte>, k: nat)
    requires from <= at && at + 4 <= |t| && at + 4 - from < k + 36 && k <= at + 6 - from
    requires |o| >= at + 7 - from && o[at + 4 - from] == ELLIPSIS[0] && o[at + 6 - from] == ELLIPSIS[2]
    ensures !IdAt(o, k)
  {
    var mark := at + 4 - from;
    if k + 36 <= |o| && IsUuid(o[k..k + 36]) {
      UuidByte(o, k, if k <= mark then mark - k else mark + 2 - k);
    }
  }

  // an id that ends before the ellipsis was there before, and the first one was further on
  lemma NotBeforeId(t: seq<byte>, from: nat, at: nat, o: seq<byte>, k: nat)
    requires from <= |t| && NextId(t, from) == Some(at)
    requires k + 36 <= at + 4 - from
    requires at + 4 - from <= |o| && o[..at + 4 - from] == t[from..at + 4]
    requires at + 4 - from < |o| ==> o[at + 4 - from] == ELLIPSIS[0]
    requires k == 0 ==> from == 0 || !IsAlphanumeric(t[from - 1])
    ensures !IdAt(o, k)
  {
    hide IsUuid;
    var i := from + k;
    assert forall j :: 0 <= j < at + 4 - from ==> o[j] == o[..at + 4 - from][j] == t[from..at + 4][j] == t[from + j];
    assert o[k..k + 36] == t[i..i + 36];
    if i + 36 == at + 4 {
      // then its digit just before `at` would join the two words
      if IsUuid(t[i..i + 36]) {
        UuidByte(t, i, at - 1 - i);
      }
    } else if IdAt(o, k) {
      SameId(o, k, t, i);
    }
  }

  // ----- the scanner -----

  lemma IdBoundaries(t: seq<byte>, at: nat)
    requires Valid(t) && IdAt(t, at)
    ensures Boundary(t, at) && Boundary(t, at + 4) && Boundary(t, at + 36)
  {
    UuidByte(t, at, 0);
    UuidByte(t, at, 4);
    UuidByte(t, at, 35);
    AsciiEndsAtBoundary(t, at);
    AsciiEndsAtBoundary(t, at + 4);
    AsciiEndsAtBoundary(t, at + 35);
  }

  lemma EllipsisIsText()
    ensures Valid(ELLIPSIS)
  {
    assert CharLength(ELLIPSIS) == 3;
  }

  lemma StepPastId(t: seq<byte>, out: seq<byte>, copied: nat, at: nat)
    requires copied <= at && NextId(t, copied) == Some(at)
    ensures at + 36 <= |t|
    ensures out + Shortened(t, copied) == out + t[copied..at] + t[at..at + 4] + ELLIPSIS + Shortened(t, at + 36)
  {
    hide Shortened, IdAt;
    ShortenedUnfolds(t, copied);
    assert at + 36 <= |t| by { IdIsInside(t, at); }
    assert t[copied..at + 4] == t[copied..at] + t[at..at + 4];
    Regroup(out, t[copied..at], t[at..at + 4], ELLIPSIS, Shortened(t, at + 36));
  }

  lemma Regroup(out: seq<byte>, a: seq<byte>, b: seq<byte>, mark: seq<byte>, rest: seq<byte>)
    ensures out + (a + b + mark + rest) == out + a + b + mark + rest
  {
  }

  lemma NextIdIs(t: seq<byte>, from: nat, at: nat)
    requires from <= at && IdAt(t, at) && forall i :: from <= i < at ==> !IdAt(t, i)
    ensures NextId(t, from) == Some(at)
  {
  }

  /** redact_uuids: every id that is a word of its own is cut to its first four digits, and all else
      stays; every slice is cut at character boundaries. */
  method RedactUuids(text: seq<byte>) returns (out: seq<byte>)
    requires Valid(text)
    ensures out == Shortened(text, 0) && Valid(out)
    ensures forall k: nat :: !IdAt(out, k)
  {
    hide IsUuid, IdAt, Shortened, Valid, Boundary;
    out := [];
    var copied, i := 0, 0;
    EmptyIsText(text);
    while i + 36 <= |text|
      invariant copied <= i && copied <= |text| && Boundary(text, copied) && Valid(out)
      invariant forall j :: copied <= j < i ==> !IdAt(text, j)
      invariant out + Shortened(text, copied) == Shortened(text, 0)
    {
      var found := IsIdAt(text, i);
      if found {
        IdBoundaries(text, i);
        NextIdIs(text, copied, i);
        StepPastId(text, out, copied, i);
        EllipsisIsText();
        out := Push(Push(Push(out, Slice(text, copied, i)), Slice(text, i, i + 4)), ELLIPSIS);
        i := i + 36;
        copied := i;
      } else {
        i := i + 1;
      }
    }
    NoIdBehind(text, copied, i);
    out := Push(out, Slice(text, copied, |text|));
    assert out == Shortened(text, 0);
    forall k: nat ensures !IdAt(out, k) {
      NoIdLeft(text, 0, k);
    }
  }

  lemma EmptyIsText(t: seq<byte>)
    ensures Valid([]) && Boundary(t, 0) && [] + Shortened(t, 0) == Shortened(t, 0)
  {
  }

  lemma NoIdBehind(t: seq<byte>, from: nat, i: nat)
    requires from <= |t| && i + 36 > |t| && Boundary(t, from)
    requires forall j :: from <= j < i ==> !IdAt(t, j)
    ensures Shortened(t, from) == t[from..] && Boundary(t, |t|)
  {
    assert forall j :: from <= j ==> !IdAt(t, j);
  }

  /** The test of one place: `standalone`, the 36 bytes, and the byte after them. */
  method IsIdAt(text: seq<byte>, i: nat) returns (found: bool)
    requires i + 36 <= |text|
    ensures found == IdAt(text, i)
  {
    var standalone := i == 0 || !IsAlphanumeric(text[i - 1]);
    found := standalone && IsUuid(text[i..i + 36]) && !(i + 36 < |text| && IsAlphanumeric(text[i + 36]));
  }

  /** Shortening what has been shortened changes nothing. */
  lemma ShorteningIsIdempotent(t: seq<byte>)
    ensures Shortened(Shortened(t, 0), 0) == Shortened(t, 0)
  {
    var o := Shortened(t, 0);
    forall k: nat ensures !IdAt(o, k) {
      NoIdLeft(t, 0, k);
    }
    assert NextId(o, 0) == None;
  }
}
