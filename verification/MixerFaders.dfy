/** Where a fader stands after any run of changes: where it was last put, within its limits
    (src-tauri/src/mixer.rs:165-241). */
module MixerFaders {
  import opened Mixer

  /** The mixer after the first `i` of the changes. */
  function At(s: Snapshot, changes: seq<Change>, i: nat): Snapshot
    requires i <= |changes|
  {
    if i == 0 then s else Apply(At(s, changes, i - 1), changes[i - 1])
  }

  /** The whole numbers from `low` to `high`, or the nearest of them. */
  predicate IsNearest(x: int, wanted: int, low: int, high: int) {
    low <= x <= high && (low <= wanted <= high ==> x == wanted)
    && (wanted < low ==> x == low) && (wanted > high ==> x == high)
  }

  /** The edit sets what `other` sets: the later of them counts. */
  predicate SameControl(e: Edit, other: Edit) {
    (e.Volume? && other.Volume?) || (e.Pan? && other.Pan?) || (e.Muted? && other.Muted?)
  }

  /** The strip stands where the edit put it. */
  predicate StandsAt(s: PeerStrip, e: Edit) {
    match e
    case Volume(volume) => IsNearest(s.volume, volume, 0, 100)
    case Pan(pan) => IsNearest(s.pan, pan, -100, 100)
    case Muted(muted) => s.muted == muted
  }

  predicate LocalStandsAt(s: Strip, e: Edit) {
    match e
    case Volume(volume) => IsNearest(s.volume, volume, 0, 100)
    case Pan(pan) => IsNearest(s.pan, pan, -100, 100)
    case Muted(_) => true
  }

  /** Nothing after change `k` and before `i` is about the control that change `k` put: not the same control
      of the same participant, nor that the participant left. */
  ghost predicate LeftAlone(changes: seq<Change>, k: nat, i: nat, peer: string, e: Edit)
    requires i <= |changes|
  {
    forall j :: k < j < i ==>
      match changes[j]
      case SetLocal(_) => true
      case SetPeer(other, edit) => other != peer || !SameControl(edit, e)
      case KeepOnly(ids) => peer in ids
  }

  /** A participant's control stands where it was last put, as long as the participant stays, whatever was
      done to its other controls, to other participants and to the microphone. */
  lemma {:induction false} PeerStandsWherePut(s: Snapshot, changes: seq<Change>, k: nat, i: nat, peer: string, e: Edit)
    requires k < i <= |changes| && changes[k] == SetPeer(peer, e) && peer in At(s, changes, k).peers
    requires LeftAlone(changes, k, i, peer, e)
    ensures peer in At(s, changes, i).peers && StandsAt(At(s, changes, i).peers[peer], e)
  {
    if k < i - 1 {
      PeerStandsWherePut(s, changes, k, i - 1, peer, e);
    }
  }

  /** So does the microphone's, which has no mute. */
  lemma {:induction false} LocalStandsWherePut(s: Snapshot, changes: seq<Change>, k: nat, i: nat, e: Edit)
    requires k < i <= |changes| && changes[k] == SetLocal(e)
    requires forall j :: k < j < i ==> changes[j].SetLocal? ==> !SameControl(changes[j].edit, e)
    ensures LocalStandsAt(At(s, changes, i).local, e)
  {
    if k < i - 1 {
      LocalStandsWherePut(s, changes, k, i - 1, e);
    }
  }

  /** A participant whose strip was not there before stands at the default: in the middle, unmuted, at unity. */
  lemma NewcomersStandAtDefault(s: Snapshot, changes: seq<Change>, k: nat, peer: string)
    requires k < |changes| && peer !in At(s, changes, k).peers && peer in At(s, changes, k + 1).peers
    ensures changes[k].KeepOnly? && peer in changes[k].ids
    ensures At(s, changes, k + 1).peers[peer] == PeerStrip(80, 0, false)
  {
  }

  /** One who is kept keeps a strip; one who is not has none. */
  lemma OnlyTheKeptHaveStrips(s: Snapshot, changes: seq<Change>, k: nat)
    requires k < |changes| && changes[k].KeepOnly?
    ensures At(s, changes, k + 1).peers.Keys == set id | id in changes[k].ids
    ensures forall id :: id in changes[k].ids && id in At(s, changes, k).peers ==>
      At(s, changes, k + 1).peers[id] == At(s, changes, k).peers[id]
  {
  }

  /** What a change is not about it leaves as it was. */
  lemma OthersStayPut(s: Snapshot, changes: seq<Change>, k: nat, peer: string)
    requires k < |changes| && peer in At(s, changes, k).peers
    requires match changes[k]
      case SetLocal(_) => true
      case SetPeer(other, _) => other != peer
      case KeepOnly(ids) => peer in ids
    ensures peer in At(s, changes, k + 1).peers && At(s, changes, k + 1).peers[peer] == At(s, changes, k).peers[peer]
  {
  }

  /** And one edit leaves the other controls of its strip. */
  lemma OtherControlsStay(s: PeerStrip, e: Edit)
    ensures !e.Volume? ==> EditPeer(s, e).volume == s.volume
    ensures !e.Pan? ==> EditPeer(s, e).pan == s.pan
    ensures !e.Muted? ==> EditPeer(s, e).muted == s.muted
  {
  }
}
