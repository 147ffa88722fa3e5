/**
 Height histories: the list of heights at which a value changed, newest first
 (LevelDBWriter.updateHistory, RW.filterHistory and the reads that pick the entry in force at a height).
 */
module Histories {
  import opened Common

  ghost predicate Descending(history: seq<nat>) {
    forall i, j :: 0 <= i < j < |history| ==> history[i] > history[j]
  }

  /** partition(_ > threshold)._1 */
  function Above(history: seq<nat>, threshold: int): (r: seq<nat>)
    ensures forall x :: x in r <==> x in history && x > threshold
  {
    if history == [] then [] else
    (if history[0] > threshold then [history[0]] else []) + Above(history[1..], threshold)
  }

  /** partition(_ > threshold)._2, also filterNot(_ > threshold) */
  function NotAbove(history: seq<nat>, threshold: int): (r: seq<nat>)
    ensures forall x :: x in r <==> x in history && x <= threshold
  {
    if history == [] then [] else
    (if history[0] > threshold then [] else [history[0]]) + NotAbove(history[1..], threshold)
  }

  /** filterNot(_ == height) */
  function Without(history: seq<nat>, height: nat): (r: seq<nat>)
    ensures forall x :: x in r <==> x in history && x != height
  {
    if history == [] then [] else
    (if history[0] == height then [] else [history[0]]) + Without(history[1..], height)
  }

  function HeadOption<T>(s: seq<T>): Option<T> {
    if s == [] then None else Some(s[0])
  }

  /** The history after a change at `height`: everything above the threshold and the newest entry not above it. */
  function Updated(history: seq<nat>, height: nat, threshold: int): seq<nat> {
    [height] + Above(history, threshold) + NotAbove(history, threshold)[..if NotAbove(history, threshold) == [] then 0 else 1]
  }

  /** The heights whose values expire when the history is updated. */
  function Expired(history: seq<nat>, threshold: int): seq<nat> {
    NotAbove(history, threshold)[if NotAbove(history, threshold) == [] then 0 else 1..]
  }

  /** The entry in force at a height: history.filterNot(_ > height).headOption */
  function InForce(history: seq<nat>, height: int): Option<nat> {
    HeadOption(NotAbove(history, height))
  }

  /** Where a descending history crosses a threshold. */
  ghost function Cut(history: seq<nat>, threshold: int): (n: nat)
    ensures n <= |history|
  {
    if history == [] || history[0] <= threshold then 0 else 1 + Cut(history[1..], threshold)
  }

  lemma {:induction false} AllNotAbove(history: seq<nat>, threshold: int)
    requires forall i :: 0 <= i < |history| ==> history[i] <= threshold
    ensures Above(history, threshold) == [] && NotAbove(history, threshold) == history
  {
    if history != [] {
      AllNotAbove(history[1..], threshold);
    }
  }

  lemma DescendingTail(history: seq<nat>)
    requires Descending(history) && history != []
    ensures Descending(history[1..])
    ensures forall x :: x in history[1..] ==> x < history[0]
  {
    forall i, j | 0 <= i < j < |history[1..]| ensures history[1..][i] > history[1..][j] {
      assert history[i + 1] > history[j + 1];
    }
  }

  lemma {:induction false} DescendingCut(history: seq<nat>, threshold: int)
    requires Descending(history)
    ensures var n := Cut(history, threshold);
            && Above(history, threshold) == history[..n]
            && NotAbove(history, threshold) == history[n..]
  {
    if history != [] {
      DescendingTail(history);
      if history[0] > threshold {
        DescendingCut(history[1..], threshold);
        var m := Cut(history[1..], threshold);
        assert history[..1 + m] == [history[0]] + history[1..][..m];
        assert history[1 + m..] == history[1..][m..];
      } else {
        AllNotAbove(history, threshold);
      }
    }
  }

  /** In a descending history the entry in force at a height is the largest entry not above it. */
  lemma InForceIsLargest(history: seq<nat>, height: int, x: nat)
    requires Descending(history)
    ensures InForce(history, height) == Some(x) <==>
            x in history && x <= height && forall y :: y in history && y <= height ==> y <= x
  {
    DescendingCut(history, height);
    var rest := NotAbove(history, height);
    if rest != [] {
      assert rest == history[Cut(history, height)..];
      assert rest[0] in rest;
      forall y | y in rest ensures y <= rest[0] {
      }
    }
  }

  lemma UpdatedDescending(history: seq<nat>, height: nat, threshold: int)
    requires Descending(history)
    requires forall x :: x in history ==> x < height
    ensures Descending(Updated(history, height, threshold))
  {
    DescendingCut(history, threshold);
    var n := Cut(history, threshold);
    var m := if n < |history| then n + 1 else n;
    var updated := Updated(history, height, threshold);
    assert updated == [height] + history[..m];
    forall i, j | 0 <= i < j < |updated| ensures updated[i] > updated[j] {
      assert updated[j] == history[j - 1] && history[j - 1] in history;
    }
  }

  lemma RestOfDescending(history: seq<nat>, x: nat)
    requires Descending(history) && history != []
    ensures x in history[1..] <==> x in history && x != history[0]
  {
    if x in history && x != history[0] {
      var i :| 0 <= i < |history| && history[i] == x;
      assert history[1..][i - 1] == x;
    }
  }

  /** An update loses only what a newer entry not above the threshold supersedes. */
  lemma UpdatedMembers(history: seq<nat>, height: nat, threshold: int, x: nat)
    requires Descending(history)
    ensures x in Updated(history, height, threshold) <==>
            x == height || (x in history && (x > threshold || InForce(history, threshold) == Some(x)))
  {
    DescendingCut(history, threshold);
    var rest := NotAbove(history, threshold);
    if rest != [] {
      assert rest[..1] == [rest[0]];
    }
  }

  /** The expired heights are exactly the ones an update drops. */
  lemma ExpiredMembers(history: seq<nat>, threshold: int, x: nat)
    requires Descending(history)
    ensures x in Expired(history, threshold) <==>
            x in history && x <= threshold && InForce(history, threshold) != Some(x)
  {
    DescendingCut(history, threshold);
    var rest := NotAbove(history, threshold);
    if rest != [] {
      RestOfDescending(rest, x);
    }
  }

  lemma {:induction false} WithoutDescending(history: seq<nat>, height: nat)
    requires Descending(history)
    ensures Descending(Without(history, height))
  {
    if history != [] {
      DescendingTail(history);
      WithoutDescending(history[1..], height);
      var rest := Without(history[1..], height);
      forall i | 0 <= i < |rest| ensures rest[i] < history[0] {
        assert rest[i] in rest;
      }
    }
  }
}
