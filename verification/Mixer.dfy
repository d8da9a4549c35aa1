/** Where the faders stand: MixerState of src-tauri/src/mixer.rs. */
module Mixer {
  import Sets

  const UNITY_VOLUME: nat := 80
  const MAX_VOLUME: nat := 100
  const MAX_PAN: int := 100

  datatype Strip = Strip(volume: nat, pan: int)

  datatype PeerStrip = PeerStrip(volume: nat, pan: int, muted: bool)

  const DEFAULT_STRIP := Strip(UNITY_VOLUME, 0)
  const DEFAULT_PEER := PeerStrip(UNITY_VOLUME, 0, false)

  /** The whole mixer at one moment. */
  datatype Snapshot = Snapshot(revision: nat, local: Strip, peers: map<string, PeerStrip>)

  const FRESH := Snapshot(0, DEFAULT_STRIP, map[])

  /** What one command does to a strip: the value it sets, kept within the strip's limits. */
  datatype Edit = Volume(volume: nat) | Pan(pan: int) | Muted(muted: bool)

  function Clamp(pan: int): int {
    if pan < -MAX_PAN then -MAX_PAN else if pan > MAX_PAN then MAX_PAN else pan
  }

  function Capped(volume: nat): nat {
    if volume < MAX_VOLUME then volume else MAX_VOLUME
  }

  /** The microphone has no mute here. */
  function EditLocal(s: Strip, e: Edit): Strip {
    match e
    case Volume(volume) => s.(volume := Capped(volume))
    case Pan(pan) => s.(pan := Clamp(pan))
    case Muted(_) => s
  }

  function EditPeer(s: PeerStrip, e: Edit): PeerStrip {
    match e
    case Volume(volume) => s.(volume := Capped(volume))
    case Pan(pan) => s.(pan := Clamp(pan))
    case Muted(muted) => s.(muted := muted)
  }

  /** One strip for each of `ids`: the one there was, or the default. */
  function Only(peers: map<string, PeerStrip>, ids: set<string>): map<string, PeerStrip> {
    map id | id in ids :: if id in peers then peers[id] else DEFAULT_PEER
  }

  datatype Change = SetLocal(edit: Edit) | SetPeer(peer: string, peerEdit: Edit) | KeepOnly(ids: seq<string>)

  /** The faders after a change, without the revision. */
  function Changed(s: Snapshot, c: Change): Snapshot {
    match c
    case SetLocal(edit) => s.(local := EditLocal(s.local, edit))
    case SetPeer(peer, edit) =>
      if peer in s.peers then s.(peers := s.peers[peer := EditPeer(s.peers[peer], edit)]) else s
    case KeepOnly(ids) => s.(peers := Only(s.peers, set id | id in ids))
  }

  /** A change counts, in the revision, exactly if it changes anything. */
  function Apply(s: Snapshot, c: Change): Snapshot {
    if Changed(s, c) == s then s else Changed(s, c).(revision := s.revision + 1)
  }

  class MixerState {
    var revision: nat
    var local: Strip
    var peers: map<string, PeerStrip>

    ghost function View(): Snapshot
      reads this
    {
      Snapshot(revision, local, peers)
    }

    constructor ()
      ensures View() == FRESH
    {
      revision, local, peers := 0, DEFAULT_STRIP, map[];
    }

    method Settle(changed: bool) returns (snapshot: Snapshot)
      modifies this`revision
      ensures revision == old(revision) + (if changed then 1 else 0) && snapshot == View()
    {
      if changed {
        revision := revision + 1;
      }
      snapshot := Snapshot(revision, local, peers);
    }

    /** What is under the lock in `change`; the announcement, if there is one, comes after it. */
    method SetLocal(edit: Edit) returns (snapshot: Snapshot, changed: bool)
      modifies this
      ensures View() == snapshot == Apply(old(View()), Change.SetLocal(edit))
      ensures changed == (snapshot != old(View()))
    {
      var before := local;
      local := EditLocal(local, edit);
      changed := local != before;
      snapshot := Settle(changed);
    }

    method SetPeer(peer: string, edit: Edit) returns (snapshot: Snapshot, changed: bool, known: bool)
      modifies this
      ensures View() == snapshot == Apply(old(View()), Change.SetPeer(peer, edit))
      ensures changed == (snapshot != old(View())) && known == (peer in old(peers))
    {
      known, changed := peer in peers, false;
      if known {
        var before := peers[peer];
        peers := peers[peer := EditPeer(before, edit)];
        changed := peers[peer] != before;
        assert !changed ==> peers == old(peers);
      }
      snapshot := Settle(changed);
    }

    /** Gives each of `ids` a strip and drops the strips of anyone else. */
    method KeepOnly(ids: seq<string>) returns (snapshot: Snapshot, changed: bool)
      modifies this
      ensures View() == snapshot == Apply(old(View()), Change.KeepOnly(ids))
      ensures changed == (snapshot != old(View()))
      ensures peers.Keys == (set id | id in ids)
      ensures forall id :: id in ids ==> peers[id] == if id in old(peers) then old(peers)[id] else DEFAULT_PEER
    {
      ghost var was := peers;
      var before := |peers|;
      peers := map id | id in peers && id in ids :: peers[id];
      changed := |peers| != before;
      Retained(was, peers);
      ghost var kept := peers;
      var added := AddMissing(ids);
      changed := changed || added;
      KeptAndAdded(was, kept, peers, ids);
      snapshot := Settle(changed);
    }

    /** Gives each of `ids` that has no strip the default one. */
    method AddMissing(ids: seq<string>) returns (added: bool)
      modifies this`peers
      ensures peers.Keys == old(peers).Keys + (set id | id in ids)
      ensures forall id :: id in peers ==> peers[id] == if id in old(peers) then old(peers)[id] else DEFAULT_PEER
      ensures added <==> peers.Keys != old(peers).Keys
    {
      added := false;
      for i := 0 to |ids|
        invariant peers.Keys == old(peers).Keys + (set id | id in ids[..i])
        invariant forall id :: id in peers ==> peers[id] == if id in old(peers) then old(peers)[id] else DEFAULT_PEER
        invariant added <==> peers.Keys != old(peers).Keys
      {
        var id := ids[i];
        assert ids[..i + 1] == ids[..i] + [id];
        if id !in peers {
          peers := peers[id := DEFAULT_PEER];
          added := true;
          assert id in peers.Keys && id !in old(peers).Keys;
        }
      }
      assert ids[..|ids|] == ids;
    }
  }

  lemma KeptAndAdded(was: map<string, PeerStrip>, kept: map<string, PeerStrip>,
                     now: map<string, PeerStrip>, ids: seq<string>)
    requires kept == map id | id in was && id in ids :: was[id]
    requires now.Keys == kept.Keys + (set id | id in ids)
    requires forall id :: id in now ==> now[id] == if id in kept then kept[id] else DEFAULT_PEER
    ensures now == Only(was, set id | id in ids)
    ensures now == was <==> kept == was && now.Keys == kept.Keys
  {
    if now == was {
      assert forall id :: id in was ==> id in kept;
      assert kept == was;
    }
    assert now.Keys == was.Keys && (forall id :: id in was ==> now[id] == was[id]) ==> now == was;
  }

  lemma Retained(was: map<string, PeerStrip>, kept: map<string, PeerStrip>)
    requires kept.Keys <= was.Keys && forall id :: id in kept ==> kept[id] == was[id]
    ensures |kept| == |was| <==> kept == was
  {
    if kept != was {
      var gone :| gone in was.Keys && gone !in kept.Keys;
      assert kept.Keys <= was.Keys - {gone};
      Sets.SubsetIsSmaller(kept.Keys, was.Keys - {gone});
      assert |kept.Keys| < |was.Keys|;
    }
  }
}
