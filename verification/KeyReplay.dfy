/**
 The key cache as the state machine under raft: the apply callback, the snapshot provider and
 installer (internal/cluster/runtime.go, snapshot.go).
 */
module KeyReplay {
  import opened Options
  import opened Bytes
  import opened RaftTypes
  import opened KeyCache

  const SNAPSHOT_VERSION: nat := 1

  datatype Command = Malformed | KeyUpdate(entry: Option<KeyEntry>) | Unknown

  type Decoder = string -> Command

  datatype Cache = Cache(keys: Keys, applied: nat)

  /** The JSON of a snapshot payload. */
  datatype Payload = Payload(encode: (nat, Keys) -> seq<Byte>, decode: seq<Byte> -> Option<(nat, Keys)>)

  ghost predicate Faithful(p: Payload) {
    forall v: nat, keys {:trigger p.encode(v, keys)} ::
      p.encode(v, keys) != [] && p.decode(p.encode(v, keys)) == Some((v, keys))
  }

  function Effect(d: Decoder, keys: Keys, command: string): Keys {
    match d(command)
    case KeyUpdate(Some(e)) => Put(keys, e)
    case _ => keys
  }

  function OnApply(d: Decoder, c: Cache, e: Entry): Cache {
    Cache(Effect(d, c.keys, e.command), Max(c.applied, e.index))
  }

  function Provide(p: Payload, c: Cache): (seq<Byte>, nat) {
    (p.encode(SNAPSHOT_VERSION, c.keys), c.applied)
  }

  function Install(p: Payload, c: Cache, data: seq<Byte>, index: nat): Option<Cache> {
    if data == [] then Some(Cache(map[], Max(c.applied, index)))
    else match p.decode(data)
      case None => None
      case Some((version, keys)) =>
        if version != SNAPSHOT_VERSION then None else Some(Cache(keys, Max(c.applied, index)))
  }

  /** Applying every command of a log to an empty cache. */
  function Replay(d: Decoder, es: seq<Entry>): Keys {
    if es == [] then map[] else Effect(d, Replay(d, es[..|es| - 1]), es[|es| - 1].command)
  }

  lemma {:induction false} ReplayGrows(d: Decoder, es: seq<Entry>, i: nat)
    requires i <= |es|
    ensures NoNewer(Replay(d, es[..i]), Replay(d, es))
  {
    hide NoNewer, Put;
    if i == |es| {
      assert es[..i] == es;
      OrderReflexive(Replay(d, es));
    } else {
      var init := es[..|es| - 1];
      ReplayGrows(d, init, i);
      assert init[..i] == es[..i];
      EffectGrows(d, Replay(d, init), es[|es| - 1].command);
      OrderTransitive(Replay(d, es[..i]), Replay(d, init), Replay(d, es));
    }
  }

  lemma OrderReflexive(keys: Keys)
    ensures NoNewer(keys, keys)
  {
  }

  lemma EffectGrows(d: Decoder, keys: Keys, command: string)
    ensures NoNewer(keys, Effect(d, keys, command))
  {
  }

  /** A command that is already part of what was applied changes nothing when it is applied again. */
  lemma {:induction false} ReapplyIsIdle(d: Decoder, es: seq<Entry>, i: nat)
    requires i < |es|
    ensures Effect(d, Replay(d, es), es[i].command) == Replay(d, es)
  {
    hide Put;
    if d(es[i].command).KeyUpdate? && d(es[i].command).entry.Some? {
      var e := d(es[i].command).entry.value;
      var was, now := Replay(d, es[..i]), Replay(d, es);
      assert es[..i + 1][..i] == es[..i] && es[..i + 1][i] == es[i];
      PutGet(was, e, e.server, e.id);
      ReplayGrows(d, es, i + 1);
      PutOrder(now, e);
    }
  }

  lemma {:induction false} ReplayOn(d: Decoder, es: seq<Entry>, i: nat, j: nat)
    requires i <= j <= |es|
    requires forall k :: i <= k < j ==> Effect(d, Replay(d, es[..i]), es[k].command) == Replay(d, es[..i])
    ensures Replay(d, es[..j]) == Replay(d, es[..i])
  {
    if i < j {
      ReplayOn(d, es, i, j - 1);
      assert es[..j][..j - 1] == es[..j - 1] && es[..j][j - 1] == es[j - 1];
    }
  }

  /** Replaying on from a prefix ends where it began exactly when no later command has an effect there. */
  lemma ReplayIdleIff(d: Decoder, es: seq<Entry>, i: nat, j: nat)
    requires i <= j <= |es|
    ensures Replay(d, es[..j]) == Replay(d, es[..i]) <==>
            forall k :: i <= k < j ==> Effect(d, Replay(d, es[..i]), es[k].command) == Replay(d, es[..i])
  {
    hide NoNewer;
    if Replay(d, es[..j]) == Replay(d, es[..i]) {
      forall k | i <= k < j ensures Effect(d, Replay(d, es[..i]), es[k].command) == Replay(d, es[..i]) {
        ReapplyIsIdle(d, es[..j], k);
      }
    }
    if forall k :: i <= k < j ==> Effect(d, Replay(d, es[..i]), es[k].command) == Replay(d, es[..i]) {
      ReplayOn(d, es, i, j);
    }
  }

  /**
   A snapshot of a shorter prefix than the cache has applied replaces the keys but not the counter.
   The cache still is the replay of what the counter says exactly when the commands in between have
   no effect on that prefix, which holds of course when the snapshot is not shorter.
   */
  lemma InstallKeepsReplayIff(p: Payload, d: Decoder, es: seq<Entry>, i: nat, j: nat)
    requires Faithful(p) && i <= |es| && j <= |es|
    ensures var r := Install(p, Cache(Replay(d, es[..j]), j), p.encode(SNAPSHOT_VERSION, Replay(d, es[..i])), i);
            && r.Some?
            && (r.value.keys == Replay(d, es[..r.value.applied]) <==>
                forall k :: i <= k < j ==> Effect(d, Replay(d, es[..i]), es[k].command) == Replay(d, es[..i]))
  {
    if i < j { ReplayIdleIff(d, es, i, j); }
  }

  /** A cache that has applied two commands and is then given the snapshot taken after the first. */
  lemma InstallRollsBack(p: Payload) returns (d: Decoder, es: seq<Entry>, r: Cache)
    requires Faithful(p)
    ensures |es| == 2
    ensures Install(p, Cache(Replay(d, es), 2), p.encode(SNAPSHOT_VERSION, Replay(d, es[..1])), 1) == Some(r)
    ensures r.applied == 2 && r.keys != Replay(d, es)
  {
    var e, f := KeyEntry("s", "k", "x", 0, 1, "n", ""), KeyEntry("s", "k", "y", 0, 2, "n", "");
    d := c => KeyUpdate(Some(if c == "e" then e else f));
    es := [Entry(1, 1, "e"), Entry(2, 1, "f")];
    r := Cache(Replay(d, es[..1]), 2);
    assert es[..2] == es && es[..1][..0] == [] && es[..1][0] == es[0];
    PutGet(map[], e, "s", "k");
    PutGet(Replay(d, es[..1]), f, "s", "k");
  }

  /** The entries that the commands of a log bring. */
  function Updates(d: Decoder, es: seq<Entry>): set<KeyEntry> {
    set i | 0 <= i < |es| && d(es[i].command).KeyUpdate? && d(es[i].command).entry.Some? :: d(es[i].command).entry.value
  }

  /** After any log, each key holds one of the latest entries that the log brought for it, and nothing else is held. */
  lemma {:induction false} ReplayReflects(d: Decoder, es: seq<Entry>)
    ensures Reflects(Replay(d, es), Updates(d, es))
  {
    hide Reflects;
    if es == [] {
      HistoryReflects(History.Start);
      assert Updates(d, es) == {};
    } else {
      var init, c := es[..|es| - 1], d(es[|es| - 1].command);
      ReplayReflects(d, init);
      UpdatesSnoc(d, es);
      if c.KeyUpdate? && c.entry.Some? {
        PutReflects(Replay(d, init), Updates(d, init), c.entry.value);
      } else {
        assert Updates(d, es) == Updates(d, init);
      }
    }
  }

  lemma UpdatesSnoc(d: Decoder, es: seq<Entry>)
    requires es != []
    ensures var init, c := es[..|es| - 1], d(es[|es| - 1].command);
            Updates(d, es) == Updates(d, init) + if c.KeyUpdate? && c.entry.Some? then {c.entry.value} else {}
  {
    var init := es[..|es| - 1];
    assert forall i :: 0 <= i < |init| ==> init[i] == es[i];
  }

  /**
   What is installed is what was provided: the keys go over whole, the counter never falls. A payload of
   another version or that does not decode is refused; an empty one is the cache that nothing was applied to.
   */
  lemma InstallProvided(p: Payload, d: Decoder, c: Cache, from: Cache, version: nat, index: nat)
    requires Faithful(p)
    ensures var (data, upTo) := Provide(p, from);
            upTo == from.applied && Install(p, c, data, upTo) == Some(Cache(from.keys, Max(c.applied, from.applied)))
    ensures Install(p, c, p.encode(version, from.keys), index).Some? <==> version == SNAPSHOT_VERSION
    ensures Install(p, c, [], index) == Some(Cache(Replay(d, []), Max(c.applied, index)))
    ensures forall data :: data != [] && p.decode(data) == None ==> Install(p, c, data, index) == None
  {
  }

  class Cluster {
    var keys: Keys
    var raftLastApplied: nat

    constructor ()
      ensures View() == Cache(map[], 0)
    {
      keys, raftLastApplied := map[], 0;
    }

    function View(): Cache
      reads this
    {
      Cache(keys, raftLastApplied)
    }

    method ApplyEntryLocked(e: KeyEntry) returns (changed: bool)
      modifies this`keys
      ensures keys == Put(old(keys), e) && changed == (keys != old(keys))
    {
      PutOrder(keys, e);
      if e.server !in keys { keys := keys[e.server := map[]]; }
      var byId := keys[e.server];
      if e.id in byId && !(e.time > byId[e.id].time) { return false; }
      keys := keys[e.server := byId[e.id := e]];
      changed := true;
    }

    /** The peer's maps are walked in no particular order. */
    method MergeState(remote: Remote)
      modifies this`keys
      ensures keys == Merged(old(keys), remote)
    {
      hide MergedInner, PartlyMerged;
      ghost var was := keys;
      var todo := remote.Keys;
      PartlyStart(was, remote);
      while todo != {}
        invariant todo <= remote.Keys && PartlyMerged(was, remote, todo, keys)
        decreases |todo|
      {
        var s :| s in todo;
        PartlyStep(was, remote, todo, keys, s);
        todo := todo - {s};
        ghost var before := keys;
        if s !in keys { keys := keys[s := map[]]; }
        var merged := MergeServer(keys[s], remote[s]);
        keys := keys[s := merged];
        assert keys == before[s := merged];
      }
      MergedWhole(was, remote, keys);
    }

    method OnApplyCallback(d: Decoder, e: Entry)
      modifies this
      ensures View() == OnApply(d, old(View()), e)
    {
      var cmd := d(e.command);
      match cmd
      case KeyUpdate(entry) =>
        if entry.Some? { var changed := ApplyEntryLocked(entry.value); }
        if e.index > raftLastApplied { raftLastApplied := e.index; }
      case _ =>
        if e.index > raftLastApplied { raftLastApplied := e.index; }
    }

    method SnapshotKeyState(p: Payload) returns (data: seq<Byte>, index: nat)
      ensures (data, index) == Provide(p, View())
    {
      var clone := map s | s in keys :: map k | k in keys[s] :: keys[s][k];
      assert forall s :: s in keys ==> clone[s] == keys[s];
      assert clone == keys;
      data, index := p.encode(SNAPSHOT_VERSION, clone), raftLastApplied;
    }

    method InstallKeySnapshot(p: Payload, data: seq<Byte>, index: nat) returns (ok: bool)
      modifies this
      ensures ok == Install(p, old(View()), data, index).Some?
      ensures View() == if ok then Install(p, old(View()), data, index).value else old(View())
    {
      if |data| == 0 {
        keys := map[];
        if index > raftLastApplied { raftLastApplied := index; }
        return true;
      }
      var snap := p.decode(data);
      if snap.None? { return false; }
      var (version, decoded) := snap.value;
      if version != SNAPSHOT_VERSION { return false; }
      keys := decoded;
      if index > raftLastApplied { raftLastApplied := index; }
      return true;
    }
  }

  method MergeServer(held: map<string, KeyEntry>, offers: map<string, Option<KeyEntry>>)
    returns (merged: map<string, KeyEntry>)
    ensures merged == MergedInner(held, offers)
  {
    merged := held;
    var todo := offers.Keys;
    while todo != {}
      invariant todo <= offers.Keys
      invariant forall k :: Find(merged, k) ==
                  if k in todo then Find(held, k) else Better(Find(held, k), Offer(offers, k))
      decreases |todo|
    {
      var k :| k in todo;
      todo := todo - {k};
      var entry := offers[k];
      if entry.Some? {
        if k !in merged || entry.value.time > merged[k].time {
          merged := merged[k := entry.value];
        }
      }
    }
    SameInner(merged, held, offers);
  }

  /** The servers in todo are still to be merged. */
  ghost predicate PartlyMerged(was: Keys, remote: Remote, todo: set<string>, now: Keys) {
    && now.Keys == was.Keys + (remote.Keys - todo)
    && forall s :: s in now ==>
         now[s] == if s in remote && s !in todo then MergedInner(Inner(was, s), remote[s]) else Inner(was, s)
  }

  lemma PartlyStart(was: Keys, remote: Remote)
    ensures PartlyMerged(was, remote, remote.Keys, was)
  {
  }

  lemma PartlyStep(was: Keys, remote: Remote, todo: set<string>, now: Keys, s: string)
    requires todo <= remote.Keys && s in todo && PartlyMerged(was, remote, todo, now)
    ensures PartlyMerged(was, remote, todo - {s}, now[s := MergedInner(Inner(now, s), remote[s])])
  {
    hide MergedInner;
    assert Inner(now, s) == Inner(was, s);
  }

  lemma MergedWhole(was: Keys, remote: Remote, now: Keys)
    requires PartlyMerged(was, remote, {}, now)
    ensures now == Merged(was, remote)
  {
    forall s | s in now ensures now[s] == MergedInner(Inner(was, s), Inner(remote, s)) {
      if s !in remote {
        assert forall k :: Better(Find(was[s], k), Offer(map[], k)) == Find(was[s], k);
        SameInner(was[s], was[s], map[]);
      }
    }
  }

  lemma SameInner(merged: map<string, KeyEntry>, held: map<string, KeyEntry>, offers: map<string, Option<KeyEntry>>)
    requires forall k :: Find(merged, k) == Better(Find(held, k), Offer(offers, k))
    ensures merged == MergedInner(held, offers)
  {
    forall k ensures k in merged <==> k in MergedInner(held, offers) {
      assert Find(merged, k) == Better(Find(held, k), Offer(offers, k));
    }
    forall k | k in merged ensures merged[k] == MergedInner(held, offers)[k] {
      assert Find(merged, k) == Better(Find(held, k), Offer(offers, k));
    }
  }
}
