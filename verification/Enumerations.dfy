/** Listing finite sets in ascending order, as a scan over big-endian keys does. */
module Enumerations {
  ghost predicate Increasing(s: seq<nat>) {
    forall i, j :: 0 <= i < j < |s| ==> s[i] < s[j]
  }

  ghost predicate Distinct<T>(s: seq<T>) {
    forall i, j :: 0 <= i < j < |s| ==> s[i] != s[j]
  }

  ghost predicate IsLeast(m: nat, s: set<nat>) {
    m in s && forall x :: x in s ==> m <= x
  }

  lemma {:induction false} FindLeast(s: set<nat>) returns (m: nat)
    requires s != {}
    ensures IsLeast(m, s)
  {
    m :| m in s;
    var rest := s - {m};
    if rest == {} {
      assert s == {m};
    } else {
      var n := FindLeast(rest);
      m := if n < m then n else m;
      forall x | x in s ensures m <= x {
        assert x in rest || x !in rest;
      }
    }
  }

  lemma HasLeast(s: set<nat>)
    requires s != {}
    ensures exists m :: IsLeast(m, s)
  {
    var m := FindLeast(s);
  }

  function Least(s: set<nat>): (m: nat)
    requires s != {}
    ensures m in s && forall x :: x in s ==> m <= x
  {
    HasLeast(s);
    var m :| m in s && forall x :: x in s ==> m <= x;
    m
  }

  function Ascending(s: set<nat>): (r: seq<nat>)
    ensures forall x :: x in r <==> x in s
  {
    if s == {} then [] else [Least(s)] + Ascending(s - {Least(s)})
  }

  lemma ConsIncreases(x: nat, rest: seq<nat>)
    requires Increasing(rest)
    requires forall i :: 0 <= i < |rest| ==> x < rest[i]
    ensures Increasing([x] + rest)
  {
  }

  lemma {:induction false} AscendingIncreases(s: set<nat>)
    ensures Increasing(Ascending(s)) && |Ascending(s)| == |s|
  {
    if s != {} {
      var rest := Ascending(s - {Least(s)});
      AscendingIncreases(s - {Least(s)});
      hide Increasing;
      forall i | 0 <= i < |rest| ensures Least(s) < rest[i] {
        assert rest[i] in rest;
      }
      ConsIncreases(Least(s), rest);
    }
  }

  function Upto(n: nat): (r: seq<nat>)
    ensures |r| == n && forall i :: 0 <= i < n ==> r[i] == i
  {
    seq(n, i => i)
  }

  /** Scanning the numbers from k until n meets them in order. */
  lemma {:induction false} AscendingFrom(s: set<nat>, k: nat, n: nat)
    requires k <= n
    requires forall x: nat :: x in s <==> k <= x < n
    ensures Ascending(s) == Upto(n)[k..]
    decreases n - k
  {
    if k < n {
      assert k in s;
      assert Least(s) == k;
      AscendingFrom(s - {k}, k + 1, n);
      assert Upto(n)[k..] == [k] + Upto(n)[k + 1..];
    } else {
      assert s == {} by {
        if x :| x in s { assert false; }
      }
    }
  }

  lemma AscendingUpto(s: set<nat>, n: nat)
    requires forall x: nat :: x in s <==> x < n
    ensures Ascending(s) == Upto(n)
  {
    AscendingFrom(s, 0, n);
    assert Upto(n)[0..] == Upto(n);
  }
}
