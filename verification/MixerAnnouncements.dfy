/** Who hears of the mixer's changes: each is made under the lock and announced outside it, so
    announcements may come in any order (src-tauri/src/mixer.rs:142-164). A reader listens, then asks
    for the mixer as it is, and shows what is not older than what it shows
    (ui/src/screens/MainScreen.tsx:162-185). */
module MixerAnnouncements {
  import opened Wrappers
  import opened Mixer

  /** `announcing`: changes that have been made and are to be announced. `coming`: what is on its way to
      the reader. `shown` is what it shows, none before the first. */
  datatype State = State(
    mixer: Snapshot,
    announcing: multiset<Snapshot>,
    listening: bool,
    asked: bool,
    coming: multiset<Snapshot>,
    shown: Option<Snapshot>)

  const START := State(FRESH, multiset{}, false, false, multiset{}, None)

  datatype Action =
    | Make(change: Change)
    | Announce(snapshot: Snapshot)
    | Listen
    /** The reader asks, and the mixer answers as it is at that moment. */
    | Ask
    | Hear(snapshot: Snapshot)

  predicate Enabled(s: State, a: Action) {
    match a
    case Announce(snapshot) => snapshot in s.announcing
    case Ask => s.listening
    case Hear(snapshot) => snapshot in s.coming
    case _ => true
  }

  /** The reader passes over what is older than what it shows. */
  function Show(shown: Option<Snapshot>, next: Snapshot): Option<Snapshot> {
    if shown.Some? && next.revision < shown.value.revision then shown else Some(next)
  }

  function Next(s: State, a: Action): State
    requires Enabled(s, a)
  {
    match a
    case Make(change) =>
      var mixer := Apply(s.mixer, change);
      s.(mixer := mixer, announcing := s.announcing + if mixer != s.mixer then multiset{mixer} else multiset{})
    case Announce(snapshot) =>
      s.(announcing := s.announcing - multiset{snapshot},
         coming := s.coming + if s.listening then multiset{snapshot} else multiset{})
    case Listen => s.(listening := true)
    case Ask => s.(asked := true, coming := s.coming + multiset{s.mixer})
    case Hear(snapshot) =>
      s.(coming := s.coming - multiset{snapshot}, shown := Show(s.shown, snapshot))
  }

  ghost predicate IsRun(states: seq<State>, actions: seq<Action>) {
    && |states| == |actions| + 1
    && states[0] == START
    && (forall i :: 0 <= i < |actions| ==>
          Enabled(states[i], actions[i]) && states[i + 1] == Next(states[i], actions[i]))
  }

  lemma {:induction false} RevisionsRise(states: seq<State>, actions: seq<Action>, i: nat, j: nat)
    requires IsRun(states, actions) && i <= j <= |actions|
    ensures states[i].mixer.revision <= states[j].mixer.revision
    ensures states[i].mixer.revision == states[j].mixer.revision ==> states[i].mixer == states[j].mixer
  {
    if i < j {
      RevisionsRise(states, actions, i, j - 1);
      assert states[j] == Next(states[j - 1], actions[j - 1]);
    }
  }

  /** A revision is one snapshot: the mixer never stands differently under the same number. */
  lemma RevisionsIdentify(states: seq<State>, actions: seq<Action>, i: nat, j: nat)
    requires IsRun(states, actions) && i <= |actions| && j <= |actions|
    requires states[i].mixer.revision == states[j].mixer.revision
    ensures states[i].mixer == states[j].mixer
  {
    if i <= j {
      RevisionsRise(states, actions, i, j);
    } else {
      RevisionsRise(states, actions, j, i);
    }
  }

  // ----- the invariant -----

  /** The snapshot is the mixer as it stood at some time before. */
  ghost predicate WasMixer(states: seq<State>, n: nat, x: Snapshot)
    requires n < |states|
  {
    exists i :: 0 <= i <= n && states[i].mixer == x
  }

  predicate About(s: State, x: Snapshot) {
    x in s.announcing || x in s.coming || s.shown == Some(x)
  }

  ghost predicate Sound(states: seq<State>, n: nat)
    requires n < |states|
  {
    var s := states[n];
    && (forall x :: About(s, x) ==> WasMixer(states, n, x))
    && (s.asked ==> s.listening && About(s, s.mixer))
  }

  /** What is about came to be so from the mixer as it stood. */
  lemma AboutBefore(s: State, a: Action, x: Snapshot)
    requires Enabled(s, a) && About(Next(s, a), x)
    ensures About(s, x) || x == s.mixer || x == Next(s, a).mixer
  {
  }

  /** Once asked for, the mixer as it stands is about: it is only passed over for one that is newer, and
      there is none. */
  lemma CurrentStaysAbout(s: State, a: Action)
    requires Enabled(s, a) && Next(s, a).asked
    requires s.asked ==> s.listening && About(s, s.mixer)
    requires forall x :: About(s, x) ==> x.revision <= s.mixer.revision
    requires forall x :: About(s, x) && x.revision == s.mixer.revision ==> x == s.mixer
    ensures Next(s, a).listening && About(Next(s, a), Next(s, a).mixer)
  {
    if a.Hear? {
      assert About(s, a.snapshot);
      assert s.shown.Some? ==> About(s, s.shown.value);
    }
  }

  lemma {:induction false} RunsAreSound(states: seq<State>, actions: seq<Action>, n: nat)
    requires IsRun(states, actions) && n <= |actions|
    ensures Sound(states, n)
  {
    if n > 0 {
      hide Next, Enabled, About;
      var p := n - 1;
      RunsAreSound(states, actions, p);
      var s, a, t := states[p], actions[p], states[n];
      assert Enabled(s, a) && t == Next(s, a);
      forall x | About(t, x) ensures WasMixer(states, n, x) {
        AboutBefore(s, a, x);
        if About(s, x) {
          assert WasMixer(states, p, x);
        } else {
          assert states[p].mixer == x || states[n].mixer == x;
        }
      }
      if t.asked {
        NoneIsNewer(states, actions, p);
        CurrentStaysAbout(s, a);
      }
    } else {
      assert forall x :: !About(states[0], x);
    }
  }

  lemma NoneIsNewer(states: seq<State>, actions: seq<Action>, p: nat)
    requires IsRun(states, actions) && p <= |actions| && Sound(states, p)
    ensures forall x :: About(states[p], x) ==> x.revision <= states[p].mixer.revision
    ensures forall x :: About(states[p], x) && x.revision == states[p].mixer.revision ==> x == states[p].mixer
  {
    hide About;
    forall x | About(states[p], x)
      ensures x.revision <= states[p].mixer.revision
      ensures x.revision == states[p].mixer.revision ==> x == states[p].mixer
    {
      var i :| 0 <= i <= p && states[i].mixer == x;
      RevisionsRise(states, actions, i, p);
    }
  }

  /** Once a reader has asked, and all that was made has been announced and all that was announced has
      arrived, it shows the mixer as it is, in whatever order it heard of the changes. */
  lemma ReaderCatchesUp(states: seq<State>, actions: seq<Action>, n: nat)
    requires IsRun(states, actions) && n <= |actions|
    requires states[n].asked && states[n].announcing == multiset{} && states[n].coming == multiset{}
    ensures states[n].shown == Some(states[n].mixer)
  {
    RunsAreSound(states, actions, n);
  }

  /** What a reader shows never goes back, and is never one the mixer did not stand at. */
  lemma ShownNeverGoesBack(states: seq<State>, actions: seq<Action>, n: nat)
    requires IsRun(states, actions) && n < |actions| && states[n].shown.Some?
    ensures states[n + 1].shown.Some?
    ensures states[n].shown.value.revision <= states[n + 1].shown.value.revision
    ensures WasMixer(states, n, states[n].shown.value)
  {
    RunsAreSound(states, actions, n);
    assert About(states[n], states[n].shown.value);
  }
}
