/** Keeping the entries on one side of an index (internal/zero/raft/wal_truncate.go). */
module LogFilter {
  import opened RaftTypes

  datatype Keep = UpTo(last: nat) | From(first: nat)

  predicate Keeps(k: Keep, e: Entry) {
    match k
    case UpTo(last) => e.index <= last
    case From(first) => e.index >= first
  }

  function Filter(k: Keep, es: seq<Entry>): seq<Entry> {
    if es == [] then []
    else if Keeps(k, es[|es| - 1]) then Filter(k, es[..|es| - 1]) + [es[|es| - 1]]
    else Filter(k, es[..|es| - 1])
  }

  ghost predicate InOrder(es: seq<Entry>, offset: nat) {
    forall i :: 0 <= i < |es| ==> es[i].index == offset + i + 1
  }

  /** How many entries of a log in index order stand below index i. */
  function Below(es: seq<Entry>, offset: nat, i: nat): (n: nat)
    ensures n <= |es|
  {
    Min(|es|, if i <= offset + 1 then 0 else i - offset - 1)
  }

  /** Filtering a log whose entries stand in index order is slicing it. */
  lemma {:induction false} UpToIsPrefix(i: nat, es: seq<Entry>, offset: nat)
    requires InOrder(es, offset)
    ensures Filter(UpTo(i), es) == es[..Below(es, offset, i + 1)]
  {
    if es != [] {
      var init, last := es[..|es| - 1], es[|es| - 1];
      assert InOrder(init, offset) && last.index == offset + |es|;
      hide InOrder;
      UpToIsPrefix(i, init, offset);
      var b := Below(init, offset, i + 1);
      if last.index <= i {
        assert b == |init| && Below(es, offset, i + 1) == |es|;
        assert init[..b] == init && es[..|es|] == es && init + [last] == es;
      } else {
        assert Below(es, offset, i + 1) == b;
        assert es[..b] == init[..b];
      }
    }
  }

  lemma {:induction false} FromIsSuffix(i: nat, es: seq<Entry>, offset: nat)
    requires InOrder(es, offset)
    ensures Filter(From(i), es) == es[Below(es, offset, i)..]
  {
    if es != [] {
      var init, last := es[..|es| - 1], es[|es| - 1];
      assert InOrder(init, offset) && last.index == offset + |es|;
      hide InOrder;
      FromIsSuffix(i, init, offset);
      var b := Below(init, offset, i);
      if last.index >= i {
        assert es[b..] == init[b..] + [last];
      } else {
        assert init[b..] == [] && es[|es|..] == [];
      }
    }
  }
}
