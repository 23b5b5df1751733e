/**
 The replicated key cache: a last-writer-wins map per server and key id, fed by single updates and by
 whole states of other replicas (internal/cluster/state.go, messages.go).
 */
module KeyCache {
  import opened Options

  datatype KeyEntry = KeyEntry(
    server: string, id: string, data: string, validUntil: int, time: int, node: string, hash: string)

  type Keys = map<string, map<string, KeyEntry>>

  /** A state as it arrives from a peer; a key may come without an entry. */
  type Remote = map<string, map<string, Option<KeyEntry>>>

  function Inner<V>(m: map<string, map<string, V>>, s: string): map<string, V> {
    if s in m then m[s] else map[]
  }

  function Find(byId: map<string, KeyEntry>, k: string): Option<KeyEntry> {
    if k in byId then Some(byId[k]) else None
  }

  function Get(keys: Keys, s: string, k: string): Option<KeyEntry> {
    Find(Inner(keys, s), k)
  }

  predicate Wins(held: Option<KeyEntry>, e: KeyEntry) {
    held.None? || e.time > held.value.time
  }

  function Put(keys: Keys, e: KeyEntry): Keys {
    keys[e.server := if Wins(Get(keys, e.server, e.id), e)
                     then Inner(keys, e.server)[e.id := e] else Inner(keys, e.server)]
  }

  /** What one key holds after a peer's version of it has been looked at. */
  function Better(held: Option<KeyEntry>, offered: Option<KeyEntry>): Option<KeyEntry> {
    if offered.Some? && Wins(held, offered.value) then offered else held
  }

  function Offer(byId: map<string, Option<KeyEntry>>, k: string): Option<KeyEntry> {
    if k in byId then byId[k] else None
  }

  function Offered(remote: Remote, s: string, k: string): Option<KeyEntry> {
    Offer(Inner(remote, s), k)
  }

  function MergedInner(held: map<string, KeyEntry>, offers: map<string, Option<KeyEntry>>): map<string, KeyEntry> {
    map k | k in held.Keys + offers.Keys && Better(Find(held, k), Offer(offers, k)).Some? ::
      Better(Find(held, k), Offer(offers, k)).value
  }

  /** The merge decides every key by itself; a server is known if either side knows it. */
  function Merged(keys: Keys, remote: Remote): Keys {
    map s | s in keys.Keys + remote.Keys :: MergedInner(Inner(keys, s), Inner(remote, s))
  }

  lemma MergedGet(keys: Keys, remote: Remote, s: string, k: string)
    ensures Get(Merged(keys, remote), s, k) == Better(Get(keys, s, k), Offered(remote, s, k))
    ensures Merged(keys, remote).Keys == keys.Keys + remote.Keys
  {
  }

  // ---- The order of versions -------------------------------------------------------------------

  /** b knows every server and key that a knows, with the same entry or a strictly later one. */
  ghost predicate NoNewer(a: Keys, b: Keys) {
    && a.Keys <= b.Keys
    && forall s, k :: Get(a, s, k).Some? ==>
         Get(b, s, k).Some? && (Get(b, s, k) == Get(a, s, k) || Get(a, s, k).value.time < Get(b, s, k).value.time)
  }

  lemma Extensional(a: Keys, b: Keys)
    requires a.Keys == b.Keys && forall s, k :: Get(a, s, k) == Get(b, s, k)
    ensures a == b
  {
    forall s | s in a ensures a[s] == b[s] {
      assert s in b;
      forall k ensures k in a[s] <==> k in b[s] { assert Get(a, s, k) == Get(b, s, k); }
      forall k | k in a[s] ensures a[s][k] == b[s][k] { assert Get(a, s, k) == Get(b, s, k); }
    }
  }

  lemma PutGet(keys: Keys, e: KeyEntry, s: string, k: string)
    ensures Get(Put(keys, e), s, k) ==
            if s == e.server && k == e.id then Better(Get(keys, s, k), Some(e)) else Get(keys, s, k)
    ensures Put(keys, e).Keys == keys.Keys + {e.server}
  {
  }

  lemma PutOrder(keys: Keys, e: KeyEntry)
    ensures NoNewer(keys, Put(keys, e))
    ensures Put(keys, e) == keys <==> !Wins(Get(keys, e.server, e.id), e)
  {
  }

  lemma OrderTransitive(a: Keys, b: Keys, c: Keys)
    requires NoNewer(a, b) && NoNewer(b, c)
    ensures NoNewer(a, c)
  {
  }

  /**
   A merge with anything a peer may send: a key keeps what it held unless the peer offers a later entry,
   and then takes that; a key without an offer is left alone.
   */
  lemma MergeTakesLatest(keys: Keys, remote: Remote, s: string, k: string)
    ensures NoNewer(keys, Merged(keys, remote))
    ensures var held, offered, now := Get(keys, s, k), Offered(remote, s, k), Get(Merged(keys, remote), s, k);
            && (offered.None? ==> now == held)
            && (offered.Some? && held.None? ==> now == offered)
            && (offered.Some? && held.Some? ==>
                  && now == (if held.value.time < offered.value.time then offered else held)
                  && now.value.time >= held.value.time && now.value.time >= offered.value.time)
  {
    forall s, k
      ensures Get(Merged(keys, remote), s, k) == Better(Get(keys, s, k), Offered(remote, s, k))
      ensures Merged(keys, remote).Keys == keys.Keys + remote.Keys
    {
      MergedGet(keys, remote, s, k);
    }
  }

  // ---- Convergence -----------------------------------------------------------------------------

  /** How a replica came to its state; a peer's state has a history of its own, however old. */
  datatype History = Start | Update(before: History, e: KeyEntry) | Sync(before: History, peer: History)

  function Received(h: History): set<KeyEntry> {
    match h
    case Start => {}
    case Update(before, e) => Received(before) + {e}
    case Sync(before, peer) => Received(before) + Received(peer)
  }

  function Share(keys: Keys): Remote {
    map s | s in keys :: map k | k in keys[s] :: Some(keys[s][k])
  }

  lemma ShareOffers(keys: Keys)
    ensures Share(keys).Keys == keys.Keys
    ensures forall s, k :: Offered(Share(keys), s, k) == Get(keys, s, k)
  {
  }

  function StateOf(h: History): Keys {
    match h
    case Start => map[]
    case Update(before, e) => Put(StateOf(before), e)
    case Sync(before, peer) => Merged(StateOf(before), Share(StateOf(peer)))
  }

  predicate Names(e: KeyEntry, s: string, k: string) {
    e.server == s && e.id == k
  }

  /** Each key holds one of the latest updates received for it, and nothing else is held. */
  ghost predicate Reflects(keys: Keys, got: set<KeyEntry>) {
    && (forall s :: s in keys <==> exists e :: e in got && e.server == s)
    && (forall s, k :: Holds(Get(keys, s, k), got, s, k))
  }

  ghost predicate Holds(held: Option<KeyEntry>, got: set<KeyEntry>, s: string, k: string) {
    match held
    case None => forall e :: e in got ==> !Names(e, s, k)
    case Some(w) => w in got && Names(w, s, k) && forall e :: e in got && Names(e, s, k) ==> e.time <= w.time
  }

  lemma PutReflects(keys: Keys, got: set<KeyEntry>, e: KeyEntry)
    requires Reflects(keys, got)
    ensures Reflects(Put(keys, e), got + {e})
  {
    hide Get, Put;
    forall s, k ensures Holds(Get(Put(keys, e), s, k), got + {e}, s, k) {
      PutGet(keys, e, s, k);
      assert Holds(Get(keys, s, k), got, s, k);
    }
    PutGet(keys, e, e.server, e.id);
    ServersJoined(keys, got, {e}, Put(keys, e).Keys);
  }

  lemma ServersJoined(keys: Keys, got: set<KeyEntry>, more: set<KeyEntry>, servers: set<string>)
    requires forall s :: s in keys <==> exists e :: e in got && e.server == s
    requires servers == keys.Keys + set e | e in more :: e.server
    ensures forall s :: s in servers <==> exists e :: e in got + more && e.server == s
  {
  }

  lemma MergeReflects(a: Keys, b: Keys, got: set<KeyEntry>, theirs: set<KeyEntry>)
    requires Reflects(a, got) && Reflects(b, theirs)
    ensures Reflects(Merged(a, Share(b)), got + theirs)
  {
    hide Get, Share, Merged, Offered;
    ShareOffers(b);
    var merged := Merged(a, Share(b));
    MergedGet(a, Share(b), "", "");
    forall s, k ensures Holds(Get(merged, s, k), got + theirs, s, k) {
      MergedGet(a, Share(b), s, k);
      assert Holds(Get(a, s, k), got, s, k) && Holds(Get(b, s, k), theirs, s, k);
    }
    assert b.Keys == set e | e in theirs :: e.server;
    ServersJoined(a, got, theirs, merged.Keys);
  }

  lemma {:induction false} HistoryReflects(h: History)
    ensures Reflects(StateOf(h), Received(h))
  {
    match h
    case Start =>
    case Update(before, e) =>
      HistoryReflects(before);
      PutReflects(StateOf(before), Received(before), e);
    case Sync(before, peer) =>
      HistoryReflects(before);
      HistoryReflects(peer);
      MergeReflects(StateOf(before), StateOf(peer), Received(before), Received(peer));
  }

  /** No two updates to one key share its latest timestamp. */
  ghost predicate UniqueLatest(got: set<KeyEntry>) {
    forall e, f :: Latest(e, got) && Latest(f, got) && Names(e, f.server, f.id) ==> e == f
  }

  ghost predicate Latest(e: KeyEntry, got: set<KeyEntry>) {
    e in got && forall f :: f in got && Names(f, e.server, e.id) ==> f.time <= e.time
  }

  lemma ReflectedOnce(a: Keys, b: Keys, got: set<KeyEntry>)
    requires Reflects(a, got) && Reflects(b, got) && UniqueLatest(got)
    ensures a == b
  {
    hide Get;
    forall s, k ensures Get(a, s, k) == Get(b, s, k) {
      assert Holds(Get(a, s, k), got, s, k) && Holds(Get(b, s, k), got, s, k);
      if Get(a, s, k).Some? && Get(b, s, k).Some? {
        var e, f := Get(a, s, k).value, Get(b, s, k).value;
        assert Names(f, s, k) && Names(e, s, k);
        assert Latest(e, got) && Latest(f, got);
      }
    }
    assert a.Keys == b.Keys;
    Extensional(a, b);
  }

  /** A history that received first e and then the rest of the set one by one. */
  ghost function Feed(h: History, rest: set<KeyEntry>): (r: History)
    ensures Received(r) == Received(h) + rest
    decreases |rest|
  {
    if rest == {} then h
    else var e :| e in rest; Feed(Update(h, e), rest - {e})
  }

  /** An update that nothing later beats stays in place while the rest arrives. */
  lemma {:induction false} FeedKeeps(h: History, rest: set<KeyEntry>, e: KeyEntry)
    requires Get(StateOf(h), e.server, e.id) == Some(e)
    requires forall f :: f in rest && Names(f, e.server, e.id) ==> f.time <= e.time
    ensures Get(StateOf(Feed(h, rest)), e.server, e.id) == Some(e)
    decreases |rest|
  {
    hide Get, Put;
    if rest != {} {
      var f :| f in rest && Feed(h, rest) == Feed(Update(h, f), rest - {f});
      PutGet(StateOf(h), f, e.server, e.id);
      FeedKeeps(Update(h, f), rest - {f}, e);
    }
  }

  lemma CanHold(got: set<KeyEntry>, e: KeyEntry) returns (h: History)
    requires Latest(e, got)
    ensures Received(h) == got && Get(StateOf(h), e.server, e.id) == Some(e)
  {
    var first := Update(Start, e);
    PutGet(map[], e, e.server, e.id);
    FeedKeeps(first, got - {e}, e);
    h := Feed(first, got - {e});
    assert Received(first) == {e};
    assert got == {e} + (got - {e});
  }

  /** Whatever the order, the grouping and the repetition, the updates alone fix the state. */
  ghost predicate Converges(got: set<KeyEntry>) {
    forall h, g :: Received(h) == got && Received(g) == got ==> StateOf(h) == StateOf(g)
  }

  /**
   Replicas that received the same updates agree in every case exactly when no key has two different
   updates with its latest timestamp; distinct timestamps per key are enough.
   */
  lemma ConvergesIff(got: set<KeyEntry>)
    ensures Converges(got) <==> UniqueLatest(got)
  {
    if UniqueLatest(got) {
      forall h, g | Received(h) == got && Received(g) == got ensures StateOf(h) == StateOf(g) {
        HistoryReflects(h);
        HistoryReflects(g);
        ReflectedOnce(StateOf(h), StateOf(g), got);
      }
    } else {
      var e, f :| Latest(e, got) && Latest(f, got) && Names(e, f.server, f.id) && e != f;
      var h := CanHold(got, e);
      var g := CanHold(got, f);
      assert StateOf(h) != StateOf(g);
    }
  }

  lemma DistinctTimesSuffice(got: set<KeyEntry>)
    requires forall e, f :: e in got && f in got && Names(e, f.server, f.id) && e.time == f.time ==> e == f
    ensures Converges(got)
  {
    forall e, f | Latest(e, got) && Latest(f, got) && Names(e, f.server, f.id) ensures e == f {
      assert Names(f, e.server, e.id);
    }
    ConvergesIff(got);
  }

  /** Two updates that carry the same time: each replica keeps the one it saw first. */
  lemma TiesDiverge() returns (got: set<KeyEntry>)
    ensures !Converges(got)
  {
    var e, f := KeyEntry("s", "k", "x", 0, 1, "n1", ""), KeyEntry("s", "k", "y", 0, 1, "n2", "");
    got := {e, f};
    assert Latest(e, got) && Latest(f, got) && Names(e, f.server, f.id) && e != f;
    ConvergesIff(got);
  }
}
