/** How often one place in the source may write to the log: what SiteLimiter does
    (src-tauri/src/logging.rs:158-251), and what it keeps over every run. */
module LogLimiter {
  import opened Arithmetic
  import opened Wrappers

  /** SITE_WINDOW, in milliseconds. */
  const SITE_WINDOW: nat := 10000
  const RECORDS_PER_SITE_WINDOW: nat := 5

  datatype Level = Error | Warn | Info | Debug | Trace

  /** A call site at one level. */
  datatype Key = Key(file: string, line: nat, level: Level)

  /** A record, what the clock says when it is made, and whether it came from the webview, which has a
      limiter of its own. */
  datatype Record = Record(key: Key, now: nat, webview: bool)

  datatype Site = Site(windowStarted: nat, written: nat, heldBack: nat)

  /** Durations do not go below zero. */
  function Elapsed(from: nat, now: nat): nat {
    if now >= from then now - from else 0
  }

  /** What becomes of a site when a record arrives, and whether the record may be written: Some of how
      many were held back before it. */
  function Admit(site: Option<Site>, now: nat): (Site, Option<nat>) {
    var s := if site.Some? then site.value else Site(now, 0, 0);
    if Elapsed(s.windowStarted, now) >= SITE_WINDOW then (Site(now, 1, 0), Some(s.heldBack))
    else if s.written < RECORDS_PER_SITE_WINDOW then (s.(written := s.written + 1), Some(0))
    else (s.(heldBack := s.heldBack + 1), None)
  }

  type Sites = map<Key, Site>

  function SiteOf(sites: Sites, key: Key): Option<Site> {
    if key in sites then Some(sites[key]) else None
  }

  function Verdict(sites: Sites, record: Record): Option<nat> {
    Admit(SiteOf(sites, record.key), record.now).1
  }

  function Next(sites: Sites, record: Record): Sites {
    if record.webview then sites else sites[record.key := Admit(SiteOf(sites, record.key), record.now).0]
  }

  /** A line that reaches the file: a record, or the notice of how many were held back before it. */
  datatype Line = Written(record: Record) | Notice(before: Record, heldBack: nat)

  function Lines(sites: Sites, record: Record): seq<Line> {
    if record.webview then [Written(record)]
    else
      match Verdict(sites, record)
      case None => []
      case Some(held) => if held > 0 then [Notice(record, held), Written(record)] else [Written(record)]
  }

  // ----- the object -----

  class SiteLimiter {
    var sites: Sites
    /** What the logger behind this one was given. */
    var inner: seq<Line>

    constructor ()
      ensures sites == map[] && inner == []
    {
      sites, inner := map[], [];
    }

    method Admit(record: Record) returns (verdict: Option<nat>)
      requires !record.webview
      modifies this`sites
      ensures sites == Next(old(sites), record)
      ensures verdict == Verdict(old(sites), record)
    {
      if record.key !in sites {
        sites := sites[record.key := Site(record.now, 0, 0)];
      }
      var site := sites[record.key];
      if Elapsed(site.windowStarted, record.now) >= SITE_WINDOW {
        var held := site.heldBack;
        sites := sites[record.key := Site(record.now, 1, 0)];
        return Some(held);
      }
      if site.written < RECORDS_PER_SITE_WINDOW {
        sites := sites[record.key := site.(written := site.written + 1)];
        return Some(0);
      }
      sites := sites[record.key := site.(heldBack := site.heldBack + 1)];
      return None;
    }

    method Log(record: Record)
      modifies this
      ensures sites == Next(old(sites), record)
      ensures inner == old(inner) + Lines(old(sites), record)
    {
      if record.webview {
        inner := inner + [Written(record)];
        return;
      }
      var verdict := Admit(record);
      if verdict.None? {
        return;
      }
      if verdict.value > 0 {
        inner := inner + [Notice(record, verdict.value)];
      }
      inner := inner + [Written(record)];
    }
  }

  // ----- runs -----

  function After(run: seq<Record>, i: nat): Sites
    requires i <= |run|
  {
    if i == 0 then map[] else Next(After(run, i - 1), run[i - 1])
  }

  /** Record `i` is one of this site. */
  predicate Of(run: seq<Record>, i: nat, key: Key)
    requires i < |run|
  {
    run[i].key == key && !run[i].webview
  }

  predicate Admitted(run: seq<Record>, i: nat)
    requires i < |run|
  {
    Verdict(After(run, i), run[i]).Some?
  }

  function Seen(run: seq<Record>, key: Key, i: nat): nat
    requires i <= |run|
  {
    if i == 0 then 0 else Seen(run, key, i - 1) + Count(Of(run, i - 1, key))
  }

  /** The records of a site among some lines, and the records its notices speak of. */
  function WrittenIn(lines: seq<Line>, key: Key): nat {
    if lines == [] then 0
    else WrittenIn(lines[1..], key) +
         Count(lines[0].Written? && lines[0].record.key == key && !lines[0].record.webview)
  }

  function NoticedIn(lines: seq<Line>, key: Key): nat {
    if lines == [] then 0
    else NoticedIn(lines[1..], key) + if lines[0].Notice? && lines[0].before.key == key then lines[0].heldBack else 0
  }

  /** All that reached the file. */
  function File(run: seq<Record>, i: nat): seq<Line>
    requires i <= |run|
  {
    if i == 0 then [] else File(run, i - 1) + Lines(After(run, i - 1), run[i - 1])
  }

  function Held(sites: Sites, key: Key): nat {
    if key in sites then sites[key].heldBack else 0
  }

  lemma {:induction false} CountsAdd(a: seq<Line>, b: seq<Line>, key: Key)
    ensures WrittenIn(a + b, key) == WrittenIn(a, key) + WrittenIn(b, key)
    ensures NoticedIn(a + b, key) == NoticedIn(a, key) + NoticedIn(b, key)
  {
    if a == [] {
      assert a + b == b;
    } else {
      CountsAdd(a[1..], b, key);
      assert (a + b)[1..] == a[1..] + b;
    }
  }

  lemma OneRecordIsKept(sites: Sites, record: Record, key: Key)
    ensures var lines := Lines(sites, record);
      Held(sites, key) + Count(record.key == key && !record.webview)
      == WrittenIn(lines, key) + NoticedIn(lines, key) + Held(Next(sites, record), key)
  {
    var lines := Lines(sites, record);
    if |lines| == 2 {
      assert lines[1..][1..] == [];
    } else if |lines| == 1 {
      assert lines[1..] == [];
    }
  }

  /** No record is lost, whatever the clock does: those seen of a site are those in the file, those the
      notices in the file speak of, and those still held back. */
  lemma {:induction false} RecordsAreConserved(run: seq<Record>, key: Key, i: nat)
    requires i <= |run|
    ensures Seen(run, key, i)
         == WrittenIn(File(run, i), key) + NoticedIn(File(run, i), key) + Held(After(run, i), key)
  {
    hide Next, Lines;
    if i > 0 {
      RecordsAreConserved(run, key, i - 1);
      OneRecordIsKept(After(run, i - 1), run[i - 1], key);
      CountsAdd(File(run, i - 1), Lines(After(run, i - 1), run[i - 1]), key);
    }
  }

  /** A record of the webview, which has a limiter of its own, is never held back. */
  lemma {:induction false} WebviewIsWritten(run: seq<Record>, i: nat, k: nat)
    requires k < i <= |run| && run[k].webview
    ensures Written(run[k]) in File(run, i)
  {
    if k < i - 1 {
      WebviewIsWritten(run, i - 1, k);
    }
  }

  /** The notice of the records held back stands right before the record that ends the silence. */
  lemma {:induction false} NoticeComesFirst(run: seq<Record>, i: nat, p: nat)
    requires i <= |run| && p < |File(run, i)| && File(run, i)[p].Notice?
    ensures p + 1 < |File(run, i)| && File(run, i)[p].heldBack > 0
    ensures File(run, i)[p + 1] == Written(File(run, i)[p].before)
  {
    var before, lines := File(run, i - 1), Lines(After(run, i - 1), run[i - 1]);
    if p < |before| {
      NoticeComesFirst(run, i - 1, p);
    } else {
      assert File(run, i)[p] == lines[p - |before|];
    }
  }

  // ----- how many in a window -----

  /** Record `i` begins a window of its site. */
  predicate BeginsWindow(run: seq<Record>, i: nat)
    requires i < |run|
  {
    var site := SiteOf(After(run, i), run[i].key);
    site.None? || Elapsed(site.value.windowStarted, run[i].now) >= SITE_WINDOW
  }

  /** The records of a site written from record `j` on, before record `i`. */
  function WrittenBetween(run: seq<Record>, key: Key, j: nat, i: nat): nat
    requires i <= |run|
  {
    if i <= j then 0
    else WrittenBetween(run, key, j, i - 1) + Count(Of(run, i - 1, key) && Admitted(run, i - 1))
  }

  /** The records of a site that came in from record `j` on, before record `i`. */
  function SeenBetween(run: seq<Record>, key: Key, j: nat, i: nat): nat
    requires i <= |run|
  {
    if i <= j then 0 else SeenBetween(run, key, j, i - 1) + Count(Of(run, i - 1, key))
  }

  /** Of the records that come in in one of the site's own windows the first RECORDS_PER_SITE_WINDOW are
      written, and no more, whatever the clock does. */
  lemma {:induction false} WindowHoldsFive(run: seq<Record>, key: Key, j: nat, i: nat)
    requires j < i <= |run| && Of(run, j, key) && BeginsWindow(run, j)
    requires forall k :: j < k < i && Of(run, k, key) ==> !BeginsWindow(run, k)
    ensures key in After(run, i) && WrittenBetween(run, key, j, i) == After(run, i)[key].written
    ensures WrittenBetween(run, key, j, i) ==
            if SeenBetween(run, key, j, i) < RECORDS_PER_SITE_WINDOW then SeenBetween(run, key, j, i)
            else RECORDS_PER_SITE_WINDOW
  {
    assert WrittenBetween(run, key, j, j) == 0 && SeenBetween(run, key, j, j) == 0;
    if j + 1 < i {
      WindowHoldsFive(run, key, j, i - 1);
    }
  }

  // ----- how many in a time -----

  predicate Monotone(run: seq<Record>) {
    forall i, j :: 0 <= i < j < |run| ==> run[i].now <= run[j].now
  }

  predicate In(time: nat, from: nat) {
    from <= time < from + SITE_WINDOW
  }

  /** The records of a site written from `from` on for the length of a window. */
  function WrittenFrom(run: seq<Record>, key: Key, from: nat, i: nat): nat
    requires i <= |run|
  {
    if i == 0 then 0
    else WrittenFrom(run, key, from, i - 1) +
         Count(Of(run, i - 1, key) && Admitted(run, i - 1) && In(run[i - 1].now, from))
  }

  /** The notices among them. */
  function NoticesFrom(run: seq<Record>, key: Key, from: nat, i: nat): nat
    requires i <= |run|
  {
    if i == 0 then 0
    else NoticesFrom(run, key, from, i - 1) +
         Count(Of(run, i - 1, key) && Verdict(After(run, i - 1), run[i - 1]).Some? &&
               Verdict(After(run, i - 1), run[i - 1]).value > 0 && In(run[i - 1].now, from))
  }

  /** What `written` records and `notices` within the time come to, given the site's window. */
  predicate Bounded(site: Option<Site>, from: nat, written: nat, notices: nat) {
    match site
    case None => written == 0 && notices == 0
    case Some(s) =>
      && 1 <= s.written <= RECORDS_PER_SITE_WINDOW
      && (written > 0 ==> from < s.windowStarted + SITE_WINDOW)
      && (if s.windowStarted < from then written <= s.written - 1 && notices == 0
          else if s.windowStarted < from + SITE_WINDOW then
            written <= RECORDS_PER_SITE_WINDOW - 1 + s.written && notices <= 1
          else written <= 2 * RECORDS_PER_SITE_WINDOW - 1 && notices <= 1)
  }

  lemma {:induction false} WindowsBound(run: seq<Record>, key: Key, from: nat, i: nat)
    requires i <= |run| && Monotone(run)
    ensures var site := SiteOf(After(run, i), key);
      && Bounded(site, from, WrittenFrom(run, key, from, i), NoticesFrom(run, key, from, i))
      && (site.Some? ==> forall j :: i <= j < |run| ==> site.value.windowStarted <= run[j].now)
  {
    if i > 0 {
      WindowsBound(run, key, from, i - 1);
      OneRecordBounded(run, key, from, i - 1);
    }
  }

  lemma OneRecordBounded(run: seq<Record>, key: Key, from: nat, i: nat)
    requires i < |run| && Monotone(run)
    requires var site := SiteOf(After(run, i), key);
      && Bounded(site, from, WrittenFrom(run, key, from, i), NoticesFrom(run, key, from, i))
      && (site.Some? ==> forall j :: i <= j < |run| ==> site.value.windowStarted <= run[j].now)
    ensures var site := SiteOf(After(run, i + 1), key);
      && Bounded(site, from, WrittenFrom(run, key, from, i + 1), NoticesFrom(run, key, from, i + 1))
      && (site.Some? ==> forall j :: i + 1 <= j < |run| ==> site.value.windowStarted <= run[j].now)
  {
  }

  /** On a clock that does not go back, no stretch of time as long as a window holds 2 *
      RECORDS_PER_SITE_WINDOW records of a site, nor more than one notice. */
  lemma RateIsBounded(run: seq<Record>, key: Key, from: nat)
    requires Monotone(run)
    ensures WrittenFrom(run, key, from, |run|) < 2 * RECORDS_PER_SITE_WINDOW
    ensures NoticesFrom(run, key, from, |run|) <= 1
  {
    WindowsBound(run, key, from, |run|);
  }

  /** Ten records: one to begin a window, four at its end, and five as the next one begins. */
  function Burst(key: Key): (run: seq<Record>)
    ensures |run| == 10 && forall i :: 0 <= i < 10 ==>
      run[i] == Record(key, if i == 0 then 0 else if i < 5 then SITE_WINDOW - 1 else SITE_WINDOW, false)
  {
    seq(10, i => Record(key, if i == 0 then 0 else if i < 5 then SITE_WINDOW - 1 else SITE_WINDOW, false))
  }

  /** The bound is met: by the records at the end of one window, less the one that began it, and those
      at the start of the next. */
  lemma BoundIsMet(key: Key)
    ensures Monotone(Burst(key))
    ensures WrittenFrom(Burst(key), key, SITE_WINDOW - 1, 10) == 2 * RECORDS_PER_SITE_WINDOW - 1
  {
    hide Burst;
    var run, from := Burst(key), SITE_WINDOW - 1;
    assert After(run, 0) == map[] && WrittenFrom(run, key, from, 0) == 0;
    assert After(run, 1)[key] == Site(0, 1, 0) && WrittenFrom(run, key, from, 1) == 0;
    hide After, WrittenFrom;
    for i := 1 to 5
      invariant key in After(run, i) && After(run, i)[key] == Site(0, i, 0)
      invariant WrittenFrom(run, key, from, i) == i - 1
    {
      OneMoreWritten(run, key, from, i);
    }
    for i := 5 to 10
      invariant key in After(run, i)
      invariant After(run, i)[key] == if i == 5 then Site(0, 5, 0) else Site(SITE_WINDOW, i - 5, 0)
      invariant WrittenFrom(run, key, from, i) == i - 1
    {
      OneMoreWritten(run, key, from, i);
    }
  }

  lemma OneMoreWritten(run: seq<Record>, key: Key, from: nat, i: nat)
    requires i < |run| && Of(run, i, key) && key in After(run, i) && In(run[i].now, from)
    requires Admitted(run, i)
    ensures key in After(run, i + 1) && After(run, i + 1)[key] == Admit(Some(After(run, i)[key]), run[i].now).0
    ensures WrittenFrom(run, key, from, i + 1) == WrittenFrom(run, key, from, i) + 1
  {
  }
}
