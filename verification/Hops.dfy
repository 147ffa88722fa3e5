/** Hop levels of the peer graph: a bounded breadth-first search over an object that grows while it is being iterated. */
module Hops {
  import opened Enumerations

  type Peer = string
  type Graph = map<Peer, seq<Peer>>

  function Peers(graph: Graph, peer: Peer): seq<Peer> {
    if peer in graph then graph[peer] else []
  }

  // ---- paths ----

  /** A path of the given length leads from one peer to another. */
  ghost predicate PathTo(graph: Graph, from: Peer, to: Peer, length: nat)
    decreases length
  {
    length > 0 &&
    if length == 1 then to in Peers(graph, from)
    else exists mid :: PathTo(graph, from, mid, length - 1) && to in Peers(graph, mid)
  }

  /** The length of the shortest path that is not empty. */
  ghost predicate IsDistance(graph: Graph, from: Peer, to: Peer, d: nat) {
    PathTo(graph, from, to, d) && forall shorter: nat :: shorter < d ==> !PathTo(graph, from, to, shorter)
  }

  lemma {:induction false} SomeDistance(graph: Graph, from: Peer, to: Peer, length: nat) returns (d: nat)
    requires PathTo(graph, from, to, length)
    ensures d <= length && IsDistance(graph, from, to, d)
  {
    hide PathTo;
    if shorter: nat :| shorter < length && PathTo(graph, from, to, shorter) {
      d := SomeDistance(graph, from, to, shorter);
    } else {
      d := length;
    }
  }

  lemma OneDistance(graph: Graph, from: Peer, to: Peer, d: nat, e: nat)
    requires IsDistance(graph, from, to, d) && IsDistance(graph, from, to, e)
    ensures d == e
  {
    hide PathTo;
  }

  lemma LongerPath(graph: Graph, from: Peer, mid: Peer, to: Peer, length: nat)
    requires PathTo(graph, from, mid, length) && to in Peers(graph, mid)
    ensures PathTo(graph, from, to, length + 1)
  {
  }

  /** A peer at distance d + 1 is a neighbour of one at distance d. */
  lemma Predecessor(graph: Graph, from: Peer, to: Peer, d: nat) returns (mid: Peer)
    requires IsDistance(graph, from, to, d + 1) && d > 0
    ensures IsDistance(graph, from, mid, d) && to in Peers(graph, mid)
  {
    mid :| PathTo(graph, from, mid, d) && to in Peers(graph, mid);
    var e := SomeDistance(graph, from, mid, d);
    LongerPath(graph, from, mid, to, e);
  }

  // ---- levels ----

  /** The levels are the distances up to a depth. */
  ghost predicate Levels(graph: Graph, from: Peer, hops: map<Peer, nat>, depth: nat) {
    && (forall q :: q in hops ==> hops[q] <= depth && IsDistance(graph, from, q, hops[q]))
    && (forall q, d: nat :: d <= depth && IsDistance(graph, from, q, d) ==> q in hops)
  }

  /** One more level: every neighbour of the last level that had no level yet. */
  ghost predicate Extends(graph: Graph, hops: map<Peer, nat>, depth: nat, more: map<Peer, nat>) {
    && (forall q :: q in hops ==> q in more && more[q] == hops[q])
    && (forall q :: q in more && q !in hops ==>
          more[q] == depth && exists m :: m in hops && hops[m] == depth - 1 && q in Peers(graph, m))
    && (forall m, q :: m in hops && hops[m] == depth - 1 && q in Peers(graph, m) ==> q in more)
  }

  lemma ExtendedLevels(graph: Graph, from: Peer, hops: map<Peer, nat>, depth: nat, more: map<Peer, nat>)
    requires depth > 1 && Levels(graph, from, hops, depth - 1) && Extends(graph, hops, depth, more)
    ensures Levels(graph, from, more, depth)
  {
    hide IsDistance, PathTo;
    forall q | q in more ensures more[q] <= depth && IsDistance(graph, from, q, more[q]) {
      if q !in hops {
        var m :| m in hops && hops[m] == depth - 1 && q in Peers(graph, m);
        DistanceOfNew(graph, from, hops, depth, m, q);
      }
    }
    forall q, d: nat | d <= depth && IsDistance(graph, from, q, d) ensures q in more {
      if d == depth {
        var m := Predecessor(graph, from, q, depth - 1);
        assert m in hops;
        OneDistance(graph, from, m, hops[m], depth - 1);
      } else {
        assert q in hops;
      }
    }
  }

  lemma DistanceOfNew(graph: Graph, from: Peer, hops: map<Peer, nat>, depth: nat, m: Peer, q: Peer)
    requires depth > 1 && Levels(graph, from, hops, depth - 1)
    requires m in hops && hops[m] == depth - 1 && q in Peers(graph, m) && q !in hops
    ensures IsDistance(graph, from, q, depth)
  {
    hide PathTo;
    assert IsDistance(graph, from, m, depth - 1);
    LongerPath(graph, from, m, q, depth - 1);
    forall shorter: nat | shorter < depth ensures !PathTo(graph, from, q, shorter) {
      if PathTo(graph, from, q, shorter) {
        var d := SomeDistance(graph, from, q, shorter);
      }
    }
  }

  ghost function AllPeers(graph: Graph): set<Peer> {
    set peer, i | peer in graph && 0 <= i < |graph[peer]| :: graph[peer][i]
  }

  method MarkPeers(peers: seq<Peer>, hops: map<Peer, nat>, depth: nat) returns (r: map<Peer, nat>)
    ensures forall q :: q in r <==> q in hops || q in peers
    ensures forall q :: q in r ==> r[q] == if q in hops then hops[q] else depth
  {
    r := hops;
    var i := 0;
    while i < |peers|
      invariant i <= |peers|
      invariant forall q :: q in r <==> q in hops || q in peers[..i]
      invariant forall q :: q in r ==> r[q] == if q in hops then hops[q] else depth
    {
      if peers[i] !in hops {
        r := r[peers[i] := depth];
      }
      assert peers[..i + 1] == peers[..i] + [peers[i]];
      i := i + 1;
    }
    assert peers[..i] == peers;
  }

  /** One for-in loop. Keys that are added while it runs may be visited or not, whatever the engine does. */
  method NextLevel(graph: Graph, hops: map<Peer, nat>, depth: nat) returns (r: map<Peer, nat>)
    requires depth > 1 && forall q :: q in hops ==> 1 <= hops[q] < depth
    ensures Extends(graph, hops, depth, r)
  {
    r := hops;
    var todo := hops.Keys;
    var visited: set<Peer> := {};
    ghost var universe := hops.Keys + AllPeers(graph);
    while todo != {}
      invariant todo <= r.Keys <= universe && todo !! visited && hops.Keys <= todo + visited
      invariant forall q :: q in hops ==> q in r && r[q] == hops[q]
      invariant forall q :: q in r && q !in hops ==>
                  r[q] == depth && exists m :: m in hops && hops[m] == depth - 1 && q in Peers(graph, m)
      invariant forall m, q :: m in hops && m in visited && hops[m] == depth - 1 && q in Peers(graph, m) ==> q in r
      decreases universe - visited
    {
      var hop :| hop in todo;
      var before := r.Keys;
      if r[hop] == depth - 1 {
        assert hop in hops;
        NeighboursKnown(graph, hop);
        r := MarkPeers(Peers(graph, hop), r, depth);
      }
      var late: set<Peer> :| late <= r.Keys - before;
      visited := visited + {hop};
      todo := todo - {hop} + (late - visited);
    }
  }

  lemma NeighboursKnown(graph: Graph, peer: Peer)
    ensures forall q :: q in Peers(graph, peer) ==> q in AllPeers(graph)
  {
  }

  predicate IsEmpty(hops: map<Peer, nat>) { hops == map[] }

  /**
   The levels are exactly the shortest distances up to the maximum. An empty level object starts the search, also when an
   earlier level found nothing.
   */
  method CalculatePeerHops(graph: Graph, peer: Peer, peerHops: map<Peer, nat>, depth: nat, max: nat) returns (r: map<Peer, nat>)
    requires depth >= 1 && Levels(graph, peer, peerHops, depth - 1)
    ensures Levels(graph, peer, r, if max >= depth - 1 then max else depth - 1)
    decreases max + 1 - depth
  {
    hide PathTo, IsDistance;
    if depth > max {
      r := peerHops;
    } else {
      var hops;
      if IsEmpty(peerHops) {
        hops := MarkPeers(Peers(graph, peer), map[], depth);
        FirstLevel(graph, peer, peerHops, depth, hops);
      } else {
        LevelsBounded(graph, peer, peerHops, depth - 1);
        hops := NextLevel(graph, peerHops, depth);
        ExtendedLevels(graph, peer, peerHops, depth, hops);
      }
      r := CalculatePeerHops(graph, peer, hops, depth + 1, max);
    }
  }

  lemma LevelsBounded(graph: Graph, from: Peer, hops: map<Peer, nat>, depth: nat)
    requires Levels(graph, from, hops, depth) && hops != map[]
    ensures depth >= 1 && forall q :: q in hops ==> 1 <= hops[q] <= depth
  {
    var q :| q in hops;
  }

  /** Starting over on an empty object is right at any depth: if there is no first level, there is no later one. */
  lemma FirstLevel(graph: Graph, from: Peer, none: map<Peer, nat>, depth: nat, hops: map<Peer, nat>)
    requires depth >= 1 && Levels(graph, from, none, depth - 1) && none == map[]
    requires forall q :: q in hops <==> q in Peers(graph, from)
    requires forall q :: q in hops ==> hops[q] == depth
    ensures Levels(graph, from, hops, depth)
  {
    if depth == 1 {
      forall q, d: nat | d <= 1 && IsDistance(graph, from, q, d) ensures q in hops {
      }
    } else {
      NeighboursHaveLevels(graph, from, none, depth - 1);
      NoneInNothing(Peers(graph, from), none);
      forall q, d: nat | d <= depth ensures !IsDistance(graph, from, q, d) {
        NoPathWithoutFirst(graph, from, q, d);
      }
    }
  }

  lemma NeighboursHaveLevels(graph: Graph, from: Peer, hops: map<Peer, nat>, depth: nat)
    requires depth >= 1 && Levels(graph, from, hops, depth)
    ensures forall q :: q in Peers(graph, from) ==> q in hops
  {
    forall q | q in Peers(graph, from) ensures q in hops {
      assert IsDistance(graph, from, q, 1);
    }
  }

  lemma NoneInNothing(peers: seq<Peer>, hops: map<Peer, nat>)
    requires forall q :: q in peers ==> q in hops
    ensures hops == map[] ==> peers == []
  {
    if peers != [] {
      assert peers[0] in hops;
    }
  }

  lemma {:induction false} NoPathWithoutFirst(graph: Graph, from: Peer, to: Peer, length: nat)
    requires Peers(graph, from) == []
    ensures !PathTo(graph, from, to, length)
    decreases length
  {
    if length > 1 && PathTo(graph, from, to, length) {
      var mid :| PathTo(graph, from, mid, length - 1) && to in Peers(graph, mid);
      NoPathWithoutFirst(graph, from, mid, length - 1);
    }
  }

  /** A peer has a level exactly if that is its distance, and the distance is within the maximum. */
  ghost predicate AreDistances(graph: Graph, from: Peer, hops: map<Peer, nat>, max: nat) {
    forall q, d: nat :: (q in hops && hops[q] == d) <==> (d <= max && IsDistance(graph, from, q, d))
  }

  /** What calculateHops asks for: all distances up to the maximum, starting from nothing. */
  method HopsUpTo(graph: Graph, peer: Peer, max: nat) returns (r: map<Peer, nat>)
    ensures AreDistances(graph, peer, r, max)
  {
    hide IsDistance, PathTo;
    NothingAtZero(graph, peer);
    r := CalculatePeerHops(graph, peer, map[], 1, max);
    forall q, d: nat ensures (q in r && r[q] == d) <==> (d <= max && IsDistance(graph, peer, q, d)) {
      if d <= max && IsDistance(graph, peer, q, d) {
        OneDistance(graph, peer, q, d, r[q]);
      }
    }
  }

  lemma NothingAtZero(graph: Graph, peer: Peer)
    ensures Levels(graph, peer, map[], 0)
  {
  }

  // ---- hops by level ----

  /** hopsByLevel: every peer is listed once, under its level. */
  method HopsByLevel(hops: map<Peer, nat>) returns (byLevel: map<nat, seq<Peer>>)
    ensures forall q, level: nat :: (level in byLevel && q in byLevel[level]) <==> (q in hops && hops[q] == level)
    ensures forall level :: level in byLevel ==> byLevel[level] != [] && Distinct(byLevel[level])
  {
    byLevel := map[];
    var todo := hops.Keys;
    while todo != {}
      invariant todo <= hops.Keys
      invariant forall q, level: nat :: (level in byLevel && q in byLevel[level]) <==> (q in hops && q !in todo && hops[q] == level)
      invariant forall level :: level in byLevel ==> byLevel[level] != [] && Distinct(byLevel[level])
    {
      var hop :| hop in todo;
      var level := hops[hop];
      var listed := if level in byLevel then byLevel[level] else [];
      assert hop !in listed;
      byLevel := byLevel[level := listed + [hop]];
      todo := todo - {hop};
    }
  }

  // ---- all peers ----

  datatype PeerLevels = PeerLevels(peer: Peer, byLevel: map<nat, seq<Peer>>)

  ghost predicate RightLevels(graph: Graph, levels: PeerLevels, max: nat) {
    forall q, d: nat :: (d in levels.byLevel && q in levels.byLevel[d]) <==> (d <= max && IsDistance(graph, levels.peer, q, d))
  }

  /** calculateHops: for every known peer, the peers within six hops by their distance. */
  method CalculateHops(graph: Graph) returns (result: seq<PeerLevels>)
    ensures forall peer :: peer in graph <==> Covers(result, peer)
    ensures forall i, j :: 0 <= i < j < |result| ==> result[i].peer != result[j].peer
    ensures forall i :: 0 <= i < |result| ==> RightLevels(graph, result[i], 6)
  {
    hide PathTo;
    result := [];
    var todo := graph.Keys;
    while todo != {}
      invariant todo <= graph.Keys
      invariant forall peer :: peer in graph.Keys - todo ==> Covers(result, peer)
      invariant forall i :: 0 <= i < |result| ==> result[i].peer in graph.Keys - todo
      invariant forall i, j :: 0 <= i < j < |result| ==> result[i].peer != result[j].peer
      invariant forall i :: 0 <= i < |result| ==> RightLevels(graph, result[i], 6)
    {
      var peer :| peer in todo;
      var hops := HopsUpTo(graph, peer, 6);
      var byLevel := HopsByLevel(hops);
      ListedRight(graph, peer, hops, byLevel, 6);
      CoversMore(result, PeerLevels(peer, byLevel));
      result := result + [PeerLevels(peer, byLevel)];
      todo := todo - {peer};
    }
  }

  lemma ListedRight(graph: Graph, peer: Peer, hops: map<Peer, nat>, byLevel: map<nat, seq<Peer>>, max: nat)
    requires AreDistances(graph, peer, hops, max)
    requires forall q, d: nat :: (d in byLevel && q in byLevel[d]) <==> (q in hops && hops[q] == d)
    ensures RightLevels(graph, PeerLevels(peer, byLevel), max)
  {
    hide IsDistance;
    forall q, d: nat ensures (d in byLevel && q in byLevel[d]) <==> (d <= max && IsDistance(graph, peer, q, d)) {
      assert (q in hops && hops[q] == d) <==> (d <= max && IsDistance(graph, peer, q, d));
    }
  }

  ghost predicate Covers(result: seq<PeerLevels>, peer: Peer) {
    exists i :: 0 <= i < |result| && result[i].peer == peer
  }

  lemma CoversMore(result: seq<PeerLevels>, levels: PeerLevels)
    ensures forall peer :: Covers(result, peer) || peer == levels.peer ==> Covers(result + [levels], peer)
  {
    var longer := result + [levels];
    assert longer[|result|] == levels;
    forall peer | Covers(result, peer) ensures Covers(longer, peer) {
      var i :| 0 <= i < |result| && result[i].peer == peer;
      assert longer[i].peer == peer;
    }
  }
}
