/** Balance snapshots: merging the slices of two histories loses no pair of values that was in force in a range of heights. */
module Snapshots {
  import opened Common
  import opened Types
  import opened Histories
  import opened Versions
  import opened Tables
  import opened ChainBlocks
  import opened ChainState
  import opened ChainNode
  import opened ChainRuns
  import ChainAddressTxs
  import ChainIndexes

  /** dropWhile(_ > to) */
  function DropAbove(history: seq<nat>, to: nat): seq<nat> {
    if history == [] || history[0] <= to then history else DropAbove(history[1..], to)
  }

  /** The heights that matter for from..to: those in the range and the one in force at its start, height 1 standing in if there is none. */
  function Slice(history: seq<nat>, from: nat, to: nat): seq<nat> {
    var rest := DropAbove(history, to);
    Above(rest, from) + [HeadOption(NotAbove(rest, from)).GetOr(1)]
  }

  /** Pairs the two lists of heights from the newest down, always moving on from the newer head. */
  function Merge(w: seq<nat>, l: seq<nat>): (r: seq<(nat, nat)>)
    requires w != [] && l != []
    decreases |w| + |l|
  {
    var wt, lt := w[1..], l[1..];
    [(w[0], l[0])] +
    if wt == [] && lt == [] then []
    else if wt == [] then Merge(w, lt)
    else if lt == [] then Merge(wt, l)
    else if w[0] == l[0] then Merge(wt, lt)
    else if w[0] > l[0] then Merge(wt, l)
    else Merge(w, lt)
  }

  /** The source's accumulating form of the merge. */
  method MergeHeights(wbh: seq<nat>, lbh: seq<nat>) returns (buf: seq<(nat, nat)>)
    requires wbh != [] && lbh != []
    ensures buf == Merge(wbh, lbh)
  {
    var w, l := wbh, lbh;
    buf := [];
    while true
      invariant w != [] && l != []
      invariant buf + Merge(w, l) == Merge(wbh, lbh)
      decreases |w| + |l|
    {
      ghost var done, rest := buf, Merge(w, l)[1..];
      buf := buf + [(w[0], l[0])];
      assert done + Merge(w, l) == buf + rest;
      if |w| == 1 && |l| == 1 {
        return;
      } else if |w| == 1 {
        l := l[1..];
      } else if |l| == 1 {
        w := w[1..];
      } else if w[0] == l[0] {
        w, l := w[1..], l[1..];
      } else if w[0] > l[0] {
        w := w[1..];
      } else {
        l := l[1..];
      }
    }
  }

  // ---- slices ----

  /** Descending, with only the last height not above `from`. */
  ghost predicate Sliced(s: seq<nat>, from: nat) {
    && s != []
    && Descending(s)
    && s[|s| - 1] <= from
    && forall i :: 0 <= i < |s| - 1 ==> s[i] > from
  }

  /** The height in force, 1 standing in if there is none. */
  ghost function At(history: seq<nat>, height: nat): nat {
    InForce(history, height).GetOr(1)
  }

  lemma {:induction false} DropAboveIsNotAbove(history: seq<nat>, to: nat)
    requires Descending(history)
    ensures DropAbove(history, to) == NotAbove(history, to)
  {
    if history != [] {
      DescendingTail(history);
      if history[0] <= to {
        forall i | 0 <= i < |history| ensures history[i] <= to {
        }
        AllNotAbove(history, to);
      } else {
        DropAboveIsNotAbove(history[1..], to);
      }
    }
  }

  lemma {:induction false} NotAboveTwice(history: seq<nat>, from: nat, to: nat)
    requires from <= to
    ensures NotAbove(NotAbove(history, to), from) == NotAbove(history, from)
    ensures Above(NotAbove(history, to), from) == NotAbove(Above(history, from), to)
  {
    if history != [] {
      NotAboveTwice(history[1..], from, to);
      var head, kept, above := [history[0]], NotAbove(history[1..], to), Above(history[1..], from);
      assert (head + kept)[1..] == kept && (head + above)[1..] == above;
      assert NotAbove(history, to) == if history[0] > to then kept else head + kept;
      assert Above(history, from) == if history[0] > from then head + above else above;
    }
  }

  lemma SubDescending(history: seq<nat>, threshold: int)
    requires Descending(history)
    ensures Descending(Above(history, threshold)) && Descending(NotAbove(history, threshold))
  {
    DescendingCut(history, threshold);
  }

  lemma SliceIsSliced(history: seq<nat>, from: nat, to: nat)
    requires Descending(history) && 1 <= from <= to
    ensures Sliced(Slice(history, from, to), from) && Slice(history, from, to)[0] <= to
    ensures forall x :: x in Slice(history, from, to) ==> x <= to
  {
    var rest := DropAbove(history, to);
    DropAboveIsNotAbove(history, to);
    SubDescending(history, to);
    SubDescending(rest, from);
    var above, below := Above(rest, from), NotAbove(rest, from);
    var last := HeadOption(below).GetOr(1);
    assert below != [] ==> below[0] in below;
    var s := Slice(history, from, to);
    assert s == above + [last];
    forall i | 0 <= i < |above| ensures above[i] > from && above[i] <= to {
      assert above[i] in above;
    }
  }

  lemma SliceAt(history: seq<nat>, from: nat, to: nat, height: nat)
    requires Descending(history) && 1 <= from <= height <= to
    ensures At(Slice(history, from, to), height) == At(history, height)
  {
    var s := Slice(history, from, to);
    SliceIsSliced(history, from, to);
    DropAboveIsNotAbove(history, to);
    NotAboveTwice(history, from, to);
    var last := s[|s| - 1];
    match InForce(history, height)
    case None =>
      NothingBelow(history, from, height);
      assert last == 1;
      forall y | y in s && y <= height ensures y <= 1 {
        if y > from { assert y in history; InForceNone(history, height, y); }
      }
      InForceIsLargest(s, height, 1);
    case Some(x) =>
      InForceIsLargest(history, height, x);
      if x > from {
        assert x in s;
        forall y | y in s && y <= height ensures y <= x {
          if y > from { assert y in history; }
        }
      } else {
        InForceIsLargest(history, from, x);
        assert x in s;
        forall y | y in s && y <= height ensures y <= x {
          if y > from { assert y in history; }
        }
      }
      InForceIsLargest(s, height, x);
  }

  lemma InForceNone(history: seq<nat>, height: nat, y: nat)
    requires InForce(history, height) == None && y <= height
    ensures y !in history
  {
  }

  lemma NothingBelow(history: seq<nat>, from: nat, height: nat)
    requires InForce(history, height) == None && from <= height
    ensures NotAbove(history, from) == []
  {
    if NotAbove(history, from) != [] {
      assert NotAbove(history, from)[0] in NotAbove(history, from);
      InForceNone(history, height, NotAbove(history, from)[0]);
    }
  }

  // ---- merging ----

  /** In a slice the height in force is the head or in force in the tail. */
  lemma AtHead(s: seq<nat>, from: nat, height: nat)
    requires Sliced(s, from) && from <= height
    ensures height >= s[0] ==> At(s, height) == s[0]
    ensures height < s[0] ==> |s| > 1 && Sliced(s[1..], from) && At(s, height) == At(s[1..], height)
  {
    if height >= s[0] {
      InForceIsLargest(s, height, s[0]);
    } else {
      assert |s| > 1;
      DescendingTail(s);
    }
  }

  lemma TailSliced(s: seq<nat>, from: nat)
    requires Sliced(s, from) && |s| > 1
    ensures Sliced(s[1..], from) && s[1] < s[0] && s[0] > from
  {
    DescendingTail(s);
  }

  /** Every pair in force in the range is among the merged ones. */
  lemma {:induction false} MergeCovers(w: seq<nat>, l: seq<nat>, from: nat, to: nat, height: nat)
    requires Sliced(w, from) && Sliced(l, from) && w[0] <= to && l[0] <= to && from <= height <= to
    ensures (At(w, height), At(l, height)) in Merge(w, l)
    decreases |w| + |l|
  {
    hide Sliced, At;
    AtHead(w, from, height);
    AtHead(l, from, height);
    OnlyLastNotAbove(w, from);
    OnlyLastNotAbove(l, from);
    if |w| > 1 { TailSliced(w, from); }
    if |l| > 1 { TailSliced(l, from); }
    var top := if w[0] > l[0] then w[0] else l[0];
    if height < top {
      var w', l' := if w[0] == top then w[1..] else w, if l[0] == top then l[1..] else l;
      MergeCovers(w', l', from, top - 1, height);
      assert Merge(w, l) == [(w[0], l[0])] + Merge(w', l');
    }
  }

  lemma OnlyLastNotAbove(s: seq<nat>, from: nat)
    requires Sliced(s, from)
    ensures s != [] && (|s| == 1 <==> s[0] <= from)
  {
  }

  /** Every merged pair was in force at some height of the range. */
  lemma {:induction false} MergeOnly(w: seq<nat>, l: seq<nat>, from: nat, to: nat, p: (nat, nat)) returns (height: nat)
    requires Sliced(w, from) && Sliced(l, from) && w[0] <= to && l[0] <= to && from <= to
    requires p in Merge(w, l)
    ensures from <= height <= to && p == (At(w, height), At(l, height))
    decreases |w| + |l|
  {
    hide Sliced, At;
    OnlyLastNotAbove(w, from);
    OnlyLastNotAbove(l, from);
    if |w| > 1 { TailSliced(w, from); }
    if |l| > 1 { TailSliced(l, from); }
    var top := if w[0] > l[0] then w[0] else l[0];
    if p == (w[0], l[0]) {
      height := to;
    } else {
      var w', l' := if w[0] == top then w[1..] else w, if l[0] == top then l[1..] else l;
      assert Merge(w, l) == [(w[0], l[0])] + Merge(w', l');
      height := MergeOnly(w', l', from, top - 1, p);
    }
    AtHead(w, from, height);
    AtHead(l, from, height);
  }

  ghost function Newer(p: (nat, nat)): nat { if p.0 > p.1 then p.0 else p.1 }

  /** The snapshot heights are strictly descending. */
  lemma {:induction false} MergeDescends(w: seq<nat>, l: seq<nat>, from: nat)
    requires Sliced(w, from) && Sliced(l, from)
    ensures forall i, j :: 0 <= i < j < |Merge(w, l)| ==> Newer(Merge(w, l)[i]) > Newer(Merge(w, l)[j])
    ensures forall i :: 0 <= i < |Merge(w, l)| ==> Newer(Merge(w, l)[i]) <= Newer((w[0], l[0]))
    decreases |w| + |l|
  {
    hide Sliced;
    OnlyLastNotAbove(w, from);
    OnlyLastNotAbove(l, from);
    if |w| > 1 { TailSliced(w, from); }
    if |l| > 1 { TailSliced(l, from); }
    var top := Newer((w[0], l[0]));
    if |w| > 1 || |l| > 1 {
      var w', l' := if w[0] == top then w[1..] else w, if l[0] == top then l[1..] else l;
      assert Merge(w, l) == [(w[0], l[0])] + Merge(w', l');
      MergeDescends(w', l', from);
    }
  }

  // ---- balance snapshots ----

  datatype BalanceSnapshot = BalanceSnapshot(height: nat, regular: int, leaseIn: int, leaseOut: int)

  function AmountOf(value: Option<Value>): int {
    match value
    case Some(Amount(amount)) => amount
    case _ => 0
  }

  function LeasesOf(value: Option<Value>): LeaseBalance {
    match value
    case Some(Leases(leases)) => leases
    case _ => LeaseBalance(0, 0)
  }

  function SnapshotOf(s: State, id: nat, p: (nat, nat)): BalanceSnapshot {
    var leases := LeasesOf(Lookup(s.value, (LeaseBalanceOf(id), p.1)));
    BalanceSnapshot(if p.0 > p.1 then p.0 else p.1, AmountOf(Lookup(s.value, (EarthsBalance(id), p.0))), leases.incoming, leases.outgoing)
  }

  function SnapshotsOf(s: State, id: nat, pairs: seq<(nat, nat)>): (r: seq<BalanceSnapshot>)
    ensures |r| == |pairs| && forall i :: 0 <= i < |r| ==> r[i] == SnapshotOf(s, id, pairs[i])
  {
    if pairs == [] then [] else [SnapshotOf(s, id, pairs[0])] + SnapshotsOf(s, id, pairs[1..])
  }

  function BalancePairs(s: State, id: nat, from: nat, to: nat): seq<(nat, nat)> {
    Merge(Slice(HistoryOf(s.history, EarthsBalance(id)), from, to), Slice(HistoryOf(s.history, LeaseBalanceOf(id)), from, to))
  }

  /** The snapshots of an address; the end of the range is the height of the given block, or the current height if it is unknown. */
  function BalanceSnapshots(db: Tables, address: Address, from: nat, toBlock: Id): seq<BalanceSnapshot> {
    match Lookup(db.addresses.addressId, address)
    case None => [BalanceSnapshot(1, 0, 0, 0)]
    case Some(id) =>
      var to := Lookup(db.blocks.stored.heightOf, toBlock).GetOr(db.blocks.height);
      SnapshotsOf(db.state, id, BalancePairs(db.state, id, from, to))
  }

  /** The snapshot the chain dictates at a height: the two values in force there, dated by the later of their last changes. */
  ghost predicate InForceAt(chain: Chain, id: nat, height: nat, snapshot: BalanceSnapshot)
    requires height <= chain.Height()
  {
    var balance, leases := LastChange(Deltas(chain), EarthsBalance(id), height), LastChange(Deltas(chain), LeaseBalanceOf(id), height);
    && snapshot.height == (if balance == 0 && leases == 0 then 1 else if balance > leases then balance else leases)
    && snapshot.regular == AmountOf(ValueAt(Deltas(chain), EarthsBalance(id), height))
    && LeaseBalance(snapshot.leaseIn, snapshot.leaseOut) == LeasesOf(ValueAt(Deltas(chain), LeaseBalanceOf(id), height))
  }

  lemma EntryInForce(db: Tables, chain: Chain, key: VersionKey, height: nat)
    requires Stored(db, chain) && 1 <= height <= chain.Height() && Floor(key, db.blocks.safeRollbackHeight) <= height
    ensures Lookup(db.state.value, (key, At(HistoryOf(db.state.history, key), height))) == ValueAt(Deltas(chain), key, height)
    ensures var change := LastChange(Deltas(chain), key, height); At(HistoryOf(db.state.history, key), height) == if change == 0 then 1 else change
  {
    hide BlocksStored, AddressesStored, ChainAddressTxs.ListsStored, Recorded, ChainIndexes.Indexed, IdsKnown, LastChange, Deltas, Descending;
    ReadsMatchChain(db.state.history, db.state.value, Deltas(chain), key, db.blocks.safeRollbackHeight, height);
    var history := HistoryOf(db.state.history, key);
    assert Keeps(history, db.state.value, Deltas(chain), key, Floor(key, db.blocks.safeRollbackHeight));
    if InForce(history, height) == None {
      InForceNone(history, height, 1);
    }
  }

  lemma PairInForce(db: Tables, chain: Chain, id: nat, height: nat)
    requires Stored(db, chain) && 1 <= height <= chain.Height() && db.blocks.safeRollbackHeight - 1000 <= height
    ensures InForceAt(chain, id, height,
                      SnapshotOf(db.state, id, (At(HistoryOf(db.state.history, EarthsBalance(id)), height),
                                                At(HistoryOf(db.state.history, LeaseBalanceOf(id)), height))))
  {
    hide Stored, At, ValueAt;
    EntryInForce(db, chain, EarthsBalance(id), height);
    EntryInForce(db, chain, LeaseBalanceOf(id), height);
  }

  /** The state in force at every height of the range is among the snapshots. */
  lemma SnapshotsCover(db: Tables, chain: Chain, id: nat, from: nat, to: nat, height: nat) returns (i: nat)
    requires Stored(db, chain) && db.blocks.safeRollbackHeight - 1000 <= from
    requires 1 <= from <= height <= to <= chain.Height()
    ensures var snapshots := SnapshotsOf(db.state, id, BalancePairs(db.state, id, from, to));
            i < |snapshots| && InForceAt(chain, id, height, snapshots[i])
  {
    hide Stored, At, Slice, Merge, Sliced, SnapshotOf, InForceAt;
    var w, l := HistoryOf(db.state.history, EarthsBalance(id)), HistoryOf(db.state.history, LeaseBalanceOf(id));
    HistoryDescends(db, chain, EarthsBalance(id));
    HistoryDescends(db, chain, LeaseBalanceOf(id));
    SliceIsSliced(w, from, to);
    SliceIsSliced(l, from, to);
    OnlyLastNotAbove(Slice(w, from, to), from);
    OnlyLastNotAbove(Slice(l, from, to), from);
    SliceAt(w, from, to, height);
    SliceAt(l, from, to, height);
    MergeCovers(Slice(w, from, to), Slice(l, from, to), from, to, height);
    var pairs := BalancePairs(db.state, id, from, to);
    i :| 0 <= i < |pairs| && pairs[i] == (At(w, height), At(l, height));
    PairInForce(db, chain, id, height);
  }

  /** Every snapshot was in force at some height of the range. */
  lemma SnapshotsOnly(db: Tables, chain: Chain, id: nat, from: nat, to: nat, i: nat) returns (height: nat)
    requires Stored(db, chain) && db.blocks.safeRollbackHeight - 1000 <= from
    requires 1 <= from <= to <= chain.Height()
    requires i < |SnapshotsOf(db.state, id, BalancePairs(db.state, id, from, to))|
    ensures from <= height <= to
    ensures InForceAt(chain, id, height, SnapshotsOf(db.state, id, BalancePairs(db.state, id, from, to))[i])
  {
    hide Stored, At, Slice, Merge, Sliced, SnapshotOf, InForceAt;
    var w, l := HistoryOf(db.state.history, EarthsBalance(id)), HistoryOf(db.state.history, LeaseBalanceOf(id));
    HistoryDescends(db, chain, EarthsBalance(id));
    HistoryDescends(db, chain, LeaseBalanceOf(id));
    SliceIsSliced(w, from, to);
    SliceIsSliced(l, from, to);
    OnlyLastNotAbove(Slice(w, from, to), from);
    OnlyLastNotAbove(Slice(l, from, to), from);
    var pairs := BalancePairs(db.state, id, from, to);
    height := MergeOnly(Slice(w, from, to), Slice(l, from, to), from, to, pairs[i]);
    SliceAt(w, from, to, height);
    SliceAt(l, from, to, height);
    PairInForce(db, chain, id, height);
  }

  ghost function EffectiveAt(chain: Chain, id: nat, height: nat): int
    requires height <= chain.Height()
  {
    var leases := LeasesOf(ValueAt(Deltas(chain), LeaseBalanceOf(id), height));
    AmountOf(ValueAt(Deltas(chain), EarthsBalance(id), height)) - leases.outgoing + leases.incoming
  }

  /** The effective balance of an address at a height; an address the store does not know has none. */
  ghost function EffectiveOf(db: Tables, chain: Chain, address: Address, height: nat): int
    requires height <= chain.Height()
  {
    match Lookup(db.addresses.addressId, address)
    case None => 0
    case Some(id) => EffectiveAt(chain, id, height)
  }

  function Effective(snapshot: BalanceSnapshot): int {
    snapshot.regular - snapshot.leaseOut + snapshot.leaseIn
  }

  /**
   Balance snapshots lose nothing: there is one, their heights are strictly descending, and a bound holds for the effective
   balance of all snapshots exactly if it holds at every height of the range, so both have the same minimum.
   */
  lemma SnapshotsExact(db: Tables, chain: Chain, address: Address, from: nat, toBlock: Id, bound: int)
    requires Stored(db, chain) && db.blocks.safeRollbackHeight - 1000 <= from
    requires var to := Lookup(db.blocks.stored.heightOf, toBlock).GetOr(db.blocks.height);
             1 <= from <= to <= chain.Height()
    ensures var to := Lookup(db.blocks.stored.heightOf, toBlock).GetOr(db.blocks.height);
            var snapshots := BalanceSnapshots(db, address, from, toBlock);
            && snapshots != []
            && (forall i :: 0 <= i < |snapshots| ==> 1 <= snapshots[i].height <= to)
            && (forall i, j :: 0 <= i < j < |snapshots| ==> snapshots[i].height > snapshots[j].height)
            && ((forall i :: 0 <= i < |snapshots| ==> Effective(snapshots[i]) >= bound) <==>
                (forall height: nat :: from <= height <= to ==> EffectiveOf(db, chain, address, height) >= bound))
  {
    hide Stored, BalancePairs, SnapshotsOf, EffectiveAt;
    var to := Lookup(db.blocks.stored.heightOf, toBlock).GetOr(db.blocks.height);
    if address in db.addresses.addressId {
      var id := db.addresses.addressId[address];
      assert BalanceSnapshots(db, address, from, toBlock) == SnapshotsOf(db.state, id, BalancePairs(db.state, id, from, to));
      KnownSnapshots(db, chain, id, from, to, bound);
      assert forall height: nat :: from <= height <= to ==> EffectiveOf(db, chain, address, height) == EffectiveAt(chain, id, height);
    } else {
      assert EffectiveOf(db, chain, address, from) == 0;
      assert Effective(BalanceSnapshots(db, address, from, toBlock)[0]) == 0;
    }
  }

  lemma KnownSnapshots(db: Tables, chain: Chain, id: nat, from: nat, to: nat, bound: int)
    requires Stored(db, chain) && db.blocks.safeRollbackHeight - 1000 <= from
    requires 1 <= from <= to <= chain.Height()
    ensures var snapshots := SnapshotsOf(db.state, id, BalancePairs(db.state, id, from, to));
            && snapshots != []
            && (forall i :: 0 <= i < |snapshots| ==> 1 <= snapshots[i].height <= to)
            && (forall i, j :: 0 <= i < j < |snapshots| ==> snapshots[i].height > snapshots[j].height)
            && ((forall i :: 0 <= i < |snapshots| ==> Effective(snapshots[i]) >= bound) <==>
                (forall height: nat :: from <= height <= to ==> EffectiveAt(chain, id, height) >= bound))
  {
    hide Stored, Slice, Merge, Sliced, ValueAt, LastChange, InForceAt, SnapshotsOf;
    var pairs := BalancePairs(db.state, id, from, to);
    var snapshots := SnapshotsOf(db.state, id, pairs);
    SnapshotsDescend(db, chain, id, from, to);
    var last := SnapshotsCover(db, chain, id, from, to, from);
    forall i | 0 <= i < |snapshots| ensures 1 <= snapshots[i].height <= to {
      var height := SnapshotsOnly(db, chain, id, from, to, i);
      Dated(chain, id, height, snapshots[i]);
    }
    if forall height: nat :: from <= height <= to ==> EffectiveAt(chain, id, height) >= bound {
      forall i | 0 <= i < |snapshots| ensures Effective(snapshots[i]) >= bound {
        var height := SnapshotsOnly(db, chain, id, from, to, i);
        Dated(chain, id, height, snapshots[i]);
        assert EffectiveAt(chain, id, height) >= bound;
      }
    }
    if forall i :: 0 <= i < |snapshots| ==> Effective(snapshots[i]) >= bound {
      forall height: nat | from <= height <= to ensures EffectiveAt(chain, id, height) >= bound {
        var i := SnapshotsCover(db, chain, id, from, to, height);
        Dated(chain, id, height, snapshots[i]);
        assert Effective(snapshots[i]) >= bound;
      }
    }
  }

  lemma Dated(chain: Chain, id: nat, height: nat, snapshot: BalanceSnapshot)
    requires 1 <= height <= chain.Height() && InForceAt(chain, id, height, snapshot)
    ensures 1 <= snapshot.height <= height && Effective(snapshot) == EffectiveAt(chain, id, height)
  {
    hide ValueAt, LastChange, Deltas;
  }

  lemma SnapshotsDescend(db: Tables, chain: Chain, id: nat, from: nat, to: nat)
    requires Stored(db, chain) && 1 <= from <= to
    ensures var snapshots := SnapshotsOf(db.state, id, BalancePairs(db.state, id, from, to));
            forall i, j :: 0 <= i < j < |snapshots| ==> snapshots[i].height > snapshots[j].height
  {
    hide Stored, Slice, Merge, Sliced;
    var w, l := HistoryOf(db.state.history, EarthsBalance(id)), HistoryOf(db.state.history, LeaseBalanceOf(id));
    HistoryDescends(db, chain, EarthsBalance(id));
    HistoryDescends(db, chain, LeaseBalanceOf(id));
    SliceIsSliced(w, from, to);
    SliceIsSliced(l, from, to);
    OnlyLastNotAbove(Slice(w, from, to), from);
    OnlyLastNotAbove(Slice(l, from, to), from);
    MergeDescends(Slice(w, from, to), Slice(l, from, to), from);
  }
}
