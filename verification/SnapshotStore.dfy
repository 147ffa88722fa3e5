/** The matcher's snapshot store: an index of ids per persistence id, with metadata and data under each id. */
module SnapshotStore {
  import opened Common

  datatype SM = SM(seqNr: int, ts: int)
  datatype Criteria = Criteria(minSequenceNr: int, maxSequenceNr: int, minTimestamp: int, maxTimestamp: int)
  datatype Metadata = Metadata(persistenceId: string, sequenceNr: int, timestamp: int)

  /** A snapshot as its owner sees it. */
  datatype Saved = Saved(sm: SM, data: ByteStr)

  predicate MatchesCriteria(sm: SM, c: Criteria) {
    c.minSequenceNr <= sm.seqNr <= c.maxSequenceNr && c.minTimestamp <= sm.ts <= c.maxTimestamp
  }

  /** A timestamp of 0 stands for any. */
  predicate MatchesMetadata(sm: SM, m: Metadata) {
    sm.seqNr == m.sequenceNr && (m.timestamp == 0 || sm.ts == m.timestamp)
  }

  // ---- the plain meaning: a list, newest first ----

  function FindFirst(saved: seq<Saved>, c: Criteria): Option<Saved> {
    if saved == [] then None else if MatchesCriteria(saved[0].sm, c) then Some(saved[0]) else FindFirst(saved[1..], c)
  }

  function RemoveFirst(saved: seq<Saved>, m: Metadata): seq<Saved> {
    if saved == [] then [] else if MatchesMetadata(saved[0].sm, m) then saved[1..] else [saved[0]] + RemoveFirst(saved[1..], m)
  }

  function RemoveAll(saved: seq<Saved>, c: Criteria): seq<Saved> {
    if saved == [] then []
    else (if MatchesCriteria(saved[0].sm, c) then [] else [saved[0]]) + RemoveAll(saved[1..], c)
  }

  /** The criteria's bounds are inclusive: the snapshot found is the newest with both numbers in their ranges. */
  lemma {:induction false} FoundIsNewest(saved: seq<Saved>, c: Criteria)
    ensures FindFirst(saved, c) == None <==>
            forall i :: 0 <= i < |saved| ==> !(c.minSequenceNr <= saved[i].sm.seqNr && saved[i].sm.seqNr <= c.maxSequenceNr
                                              && c.minTimestamp <= saved[i].sm.ts && saved[i].sm.ts <= c.maxTimestamp)
    ensures forall i :: 0 <= i < |saved|
                        && c.minSequenceNr <= saved[i].sm.seqNr && saved[i].sm.seqNr <= c.maxSequenceNr
                        && c.minTimestamp <= saved[i].sm.ts && saved[i].sm.ts <= c.maxTimestamp
                        && (forall j :: 0 <= j < i ==> !(c.minSequenceNr <= saved[j].sm.seqNr && saved[j].sm.seqNr <= c.maxSequenceNr
                                                        && c.minTimestamp <= saved[j].sm.ts && saved[j].sm.ts <= c.maxTimestamp))
                        ==> FindFirst(saved, c) == Some(saved[i])
  {
    if saved != [] {
      var rest := saved[1..];
      FoundIsNewest(rest, c);
      assert forall i :: 0 <= i < |rest| ==> rest[i] == saved[i + 1];
    }
  }

  /** The first snapshot with the sequence number goes, if its timestamp is the given one or none is given. */
  lemma {:induction false} RemovedIsFirst(saved: seq<Saved>, m: Metadata, i: nat)
    requires i <= |saved|
    requires forall j :: 0 <= j < i ==> !(saved[j].sm.seqNr == m.sequenceNr && (m.timestamp == 0 || saved[j].sm.ts == m.timestamp))
    ensures i == |saved| ==> RemoveFirst(saved, m) == saved
    ensures i < |saved| && saved[i].sm.seqNr == m.sequenceNr && (m.timestamp == 0 || saved[i].sm.ts == m.timestamp)
            ==> RemoveFirst(saved, m) == saved[..i] + saved[i + 1..]
  {
    if i > 0 {
      var rest := saved[1..];
      RemovedIsFirst(rest, m, i - 1);
      assert saved == [saved[0]] + rest && (i < |saved| ==> saved[..i] == [saved[0]] + rest[..i - 1]);
    }
  }

  /** Of any snapshot among others exactly those with both numbers in their inclusive ranges go, and the others keep their order. */
  lemma {:induction false} RemovedIfInRange(newer: seq<Saved>, x: Saved, older: seq<Saved>, c: Criteria)
    ensures RemoveAll(newer + [x] + older, c) ==
            RemoveAll(newer, c)
            + (if c.minSequenceNr <= x.sm.seqNr && x.sm.seqNr <= c.maxSequenceNr && c.minTimestamp <= x.sm.ts && x.sm.ts <= c.maxTimestamp then [] else [x])
            + RemoveAll(older, c)
  {
    var all := newer + [x] + older;
    if newer == [] {
      assert all[0] == x && all[1..] == older;
    } else {
      assert all[0] == newer[0] && all[1..] == newer[1..] + [x] + older;
      RemovedIfInRange(newer[1..], x, older, c);
    }
  }

  /** What the matcher does once a snapshot is saved: everything with a lower sequence number goes, the new one alone is left. */
  lemma {:induction false} NewestIsLeft(newest: Saved, older: seq<Saved>)
    requires forall i :: 0 <= i < |older| ==> 0 <= older[i].sm.seqNr < newest.sm.seqNr && 0 <= older[i].sm.ts <= 0x7FFF_FFFF_FFFF_FFFF
    ensures RemoveAll([newest] + older, Criteria(0, newest.sm.seqNr - 1, 0, 0x7FFF_FFFF_FFFF_FFFF)) == [newest]
  {
    var c := Criteria(0, newest.sm.seqNr - 1, 0, 0x7FFF_FFFF_FFFF_FFFF);
    RemovedIfInRange([], newest, older, c);
    assert [] + [newest] + older == [newest] + older;
    if older != [] {
      NewestIsLeft(newest, older[1..]);
      RemovedIfInRange([], newest, older[1..], c);
      assert [] + [newest] + older[1..] == [newest] + older[1..];
    }
  }

  // ---- the tables ----

  type Table<V> = map<(string, int), V>

  ghost predicate StrictlyDescending(ids: seq<int>) {
    forall i, j :: 0 <= i < j < |ids| ==> ids[i] > ids[j]
  }

  ghost predicate AllStored(pid: string, ids: seq<int>, sms: Table<SM>, datas: Table<ByteStr>) {
    forall i :: 0 <= i < |ids| ==> (pid, ids[i]) in sms && (pid, ids[i]) in datas
  }

  /** What the ids stand for. */
  function Contents(pid: string, ids: seq<int>, sms: Table<SM>, datas: Table<ByteStr>): (r: seq<Saved>)
    requires AllStored(pid, ids, sms, datas)
    ensures |r| == |ids|
  {
    if ids == [] then [] else [Saved(sms[(pid, ids[0])], datas[(pid, ids[0])])] + Contents(pid, ids[1..], sms, datas)
  }

  lemma {:induction false} ContentsUnchanged(pid: string, ids: seq<int>, sms: Table<SM>, datas: Table<ByteStr>, sms': Table<SM>, datas': Table<ByteStr>)
    requires AllStored(pid, ids, sms, datas)
    requires forall i :: 0 <= i < |ids| ==> Lookup(sms', (pid, ids[i])) == Lookup(sms, (pid, ids[i])) && Lookup(datas', (pid, ids[i])) == Lookup(datas, (pid, ids[i]))
    ensures AllStored(pid, ids, sms', datas') && Contents(pid, ids, sms', datas') == Contents(pid, ids, sms, datas)
  {
    forall i | 0 <= i < |ids| ensures (pid, ids[i]) in sms' && (pid, ids[i]) in datas' {
      assert Lookup(sms', (pid, ids[i])) == Lookup(sms, (pid, ids[i])) && Lookup(datas', (pid, ids[i])) == Lookup(datas, (pid, ids[i]));
    }
    if ids != [] {
      assert Lookup(sms', (pid, ids[0])) == Lookup(sms, (pid, ids[0])) && Lookup(datas', (pid, ids[0])) == Lookup(datas, (pid, ids[0]));
      ContentsUnchanged(pid, ids[1..], sms, datas, sms', datas');
    }
  }

  // ---- the source's list operations on ids ----

  /** find(seqNr => ...matches(criteria)) */
  function FindId(pid: string, ids: seq<int>, sms: Table<SM>, matches: SM -> bool): Option<int>
    requires forall i :: 0 <= i < |ids| ==> (pid, ids[i]) in sms
  {
    if ids == [] then None else if matches(sms[(pid, ids[0])]) then Some(ids[0]) else FindId(pid, ids[1..], sms, matches)
  }

  /** filterNot(_ == id) */
  function FilterNot(ids: seq<int>, id: int): seq<int> {
    if ids == [] then [] else (if ids[0] == id then [] else [ids[0]]) + FilterNot(ids[1..], id)
  }

  /** partition by the criteria: the ids that match, and those that do not. */
  function Part(pid: string, ids: seq<int>, sms: Table<SM>, c: Criteria, matching: bool): (r: seq<int>)
    requires forall i :: 0 <= i < |ids| ==> (pid, ids[i]) in sms
    ensures forall id :: id in r <==> id in ids && (MatchesCriteria(sms[(pid, id)], c) <==> matching)
  {
    if ids == [] then []
    else (if MatchesCriteria(sms[(pid, ids[0])], c) == matching then [ids[0]] else []) + Part(pid, ids[1..], sms, c, matching)
  }

  /** sorted.reverse */
  function SortedReverse(ids: seq<int>): seq<int> {
    if ids == [] then [] else Insert(ids[0], SortedReverse(ids[1..]))
  }

  function Insert(x: int, sorted: seq<int>): seq<int> {
    if sorted == [] || x >= sorted[0] then [x] + sorted else [sorted[0]] + Insert(x, sorted[1..])
  }

  lemma {:induction false} AlreadySorted(ids: seq<int>)
    requires StrictlyDescending(ids)
    ensures SortedReverse(ids) == ids
  {
    if ids != [] {
      AlreadySorted(ids[1..]);
    }
  }

  lemma TailIsBelow(ids: seq<int>, x: int)
    requires StrictlyDescending(ids) && ids != [] && x in ids[1..]
    ensures x < ids[0]
  {
    var i :| 0 <= i < |ids[1..]| && ids[1..][i] == x;
    assert ids[i + 1] == x;
  }

  lemma {:induction false} FilterNotMembers(ids: seq<int>, id: int)
    requires StrictlyDescending(ids)
    ensures StrictlyDescending(FilterNot(ids, id))
    ensures forall x :: x in FilterNot(ids, id) <==> x in ids && x != id
  {
    if ids != [] {
      FilterNotMembers(ids[1..], id);
      var rest := FilterNot(ids[1..], id);
      forall i | 0 <= i < |rest| ensures rest[i] < ids[0] {
        assert rest[i] in rest;
        TailIsBelow(ids, rest[i]);
      }
    }
  }

  lemma {:induction false} PartDescends(pid: string, ids: seq<int>, sms: Table<SM>, c: Criteria, matching: bool)
    requires StrictlyDescending(ids) && forall i :: 0 <= i < |ids| ==> (pid, ids[i]) in sms
    ensures StrictlyDescending(Part(pid, ids, sms, c, matching))
  {
    if ids != [] {
      PartDescends(pid, ids[1..], sms, c, matching);
      var rest := Part(pid, ids[1..], sms, c, matching);
      forall i | 0 <= i < |rest| ensures rest[i] < ids[0] {
        assert rest[i] in rest;
        TailIsBelow(ids, rest[i]);
      }
    }
  }

  // ---- what the id operations mean ----

  lemma {:induction false} FoundIsFirst(pid: string, ids: seq<int>, sms: Table<SM>, datas: Table<ByteStr>, c: Criteria)
    requires AllStored(pid, ids, sms, datas)
    ensures var id := FindId(pid, ids, sms, sm => MatchesCriteria(sm, c));
            && (id.Some? ==> id.value in ids)
            && FindFirst(Contents(pid, ids, sms, datas), c) ==
               match id case None => None case Some(i) => Some(Saved(sms[(pid, i)], datas[(pid, i)]))
  {
    if ids != [] {
      FoundIsFirst(pid, ids[1..], sms, datas, c);
    }
  }

  lemma {:induction false} WithoutFound(pid: string, ids: seq<int>, sms: Table<SM>, datas: Table<ByteStr>, m: Metadata)
    requires AllStored(pid, ids, sms, datas) && StrictlyDescending(ids)
    ensures var id := FindId(pid, ids, sms, sm => MatchesMetadata(sm, m));
            && (id.Some? ==> id.value in ids)
            && (id.None? ==> RemoveFirst(Contents(pid, ids, sms, datas), m) == Contents(pid, ids, sms, datas))
            && (id.Some? ==>
                  AllStored(pid, FilterNot(ids, id.value), sms, datas) &&
                  Contents(pid, FilterNot(ids, id.value), sms, datas) == RemoveFirst(Contents(pid, ids, sms, datas), m))
  {
    if ids != [] {
      var id := FindId(pid, ids, sms, sm => MatchesMetadata(sm, m));
      var contents := Contents(pid, ids, sms, datas);
      assert contents[1..] == Contents(pid, ids[1..], sms, datas);
      if MatchesMetadata(sms[(pid, ids[0])], m) {
        NothingFiltered(ids[1..], ids[0]);
        assert FilterNot(ids, ids[0]) == ids[1..];
      } else {
        WithoutFound(pid, ids[1..], sms, datas, m);
        if id.Some? {
          assert id.value in ids[1..];
          var rest := FilterNot(ids[1..], id.value);
          assert FilterNot(ids, id.value) == [ids[0]] + rest;
          assert ([ids[0]] + rest)[1..] == rest;
        }
      }
    }
  }

  lemma {:induction false} NothingFiltered(ids: seq<int>, id: int)
    requires id !in ids
    ensures FilterNot(ids, id) == ids
  {
    if ids != [] {
      NothingFiltered(ids[1..], id);
    }
  }

  lemma {:induction false} PartIsRest(pid: string, ids: seq<int>, sms: Table<SM>, datas: Table<ByteStr>, c: Criteria)
    requires AllStored(pid, ids, sms, datas)
    ensures AllStored(pid, Part(pid, ids, sms, c, false), sms, datas)
    ensures Contents(pid, Part(pid, ids, sms, c, false), sms, datas) == RemoveAll(Contents(pid, ids, sms, datas), c)
  {
    if ids != [] {
      PartIsRest(pid, ids[1..], sms, datas, c);
      var rest, contents := Part(pid, ids[1..], sms, c, false), Contents(pid, ids, sms, datas);
      assert contents[0].sm == sms[(pid, ids[0])] && contents[1..] == Contents(pid, ids[1..], sms, datas);
      if MatchesCriteria(sms[(pid, ids[0])], c) {
        assert Part(pid, ids, sms, c, false) == rest;
        assert RemoveAll(contents, c) == RemoveAll(contents[1..], c);
      } else {
        assert Part(pid, ids, sms, c, false) == [ids[0]] + rest;
        assert ([ids[0]] + rest)[1..] == rest;
      }
    }
  }

  // ---- one persistence id ----

  /** Ids strictly descend, every listed id has metadata and data, and nothing else of the persistence id has. */
  ghost predicate Sound(pid: string, ids: seq<int>, sms: Table<SM>, datas: Table<ByteStr>) {
    && StrictlyDescending(ids)
    && AllStored(pid, ids, sms, datas)
    && forall id :: (pid, id) in sms || (pid, id) in datas ==> id in ids
  }

  ghost predicate SameFor(pid: string, sms: Table<SM>, datas: Table<ByteStr>, sms': Table<SM>, datas': Table<ByteStr>) {
    forall id :: SameAt(pid, id, sms, datas, sms', datas')
  }

  ghost predicate SameAt(pid: string, id: int, sms: Table<SM>, datas: Table<ByteStr>, sms': Table<SM>, datas': Table<ByteStr>) {
    Lookup(sms', (pid, id)) == Lookup(sms, (pid, id)) && Lookup(datas', (pid, id)) == Lookup(datas, (pid, id))
  }

  ghost function ListOf(pid: string, ids: seq<int>, sms: Table<SM>, datas: Table<ByteStr>): seq<Saved>
    requires Sound(pid, ids, sms, datas)
  {
    Contents(pid, ids, sms, datas)
  }

  lemma SameElsewhere(pid: string, ids: seq<int>, sms: Table<SM>, datas: Table<ByteStr>, sms': Table<SM>, datas': Table<ByteStr>)
    requires Sound(pid, ids, sms, datas) && SameFor(pid, sms, datas, sms', datas')
    ensures Sound(pid, ids, sms', datas') && ListOf(pid, ids, sms', datas') == ListOf(pid, ids, sms, datas)
  {
    forall i | 0 <= i < |ids| ensures Lookup(sms', (pid, ids[i])) == Lookup(sms, (pid, ids[i])) && Lookup(datas', (pid, ids[i])) == Lookup(datas, (pid, ids[i])) {
      assert SameAt(pid, ids[i], sms, datas, sms', datas');
    }
    ContentsUnchanged(pid, ids, sms, datas, sms', datas');
    forall id | (pid, id) in sms' || (pid, id) in datas' ensures id in ids {
      assert SameAt(pid, id, sms, datas, sms', datas');
    }
  }

  function NextId(ids: seq<int>): int { (if ids == [] then 0 else ids[0]) + 1 }

  lemma SavedInFront(pid: string, ids: seq<int>, sms: Table<SM>, datas: Table<ByteStr>, sm: SM, data: ByteStr)
    requires Sound(pid, ids, sms, datas)
    ensures var id := NextId(ids);
            && Sound(pid, [id] + ids, sms[(pid, id) := sm], datas[(pid, id) := data])
            && ListOf(pid, [id] + ids, sms[(pid, id) := sm], datas[(pid, id) := data]) == [Saved(sm, data)] + ListOf(pid, ids, sms, datas)
  {
    var id, all := NextId(ids), [NextId(ids)] + ids;
    assert all[1..] == ids;
    ContentsUnchanged(pid, ids, sms, datas, sms[(pid, id) := sm], datas[(pid, id) := data]);
    assert forall i :: 0 < i < |all| ==> all[i] == ids[i - 1];
    assert all[0] in all;
    assert forall x :: x in ids ==> x in all;
  }

  lemma RemovedFirst(pid: string, ids: seq<int>, sms: Table<SM>, datas: Table<ByteStr>, m: Metadata, id: int)
    requires Sound(pid, ids, sms, datas)
    requires FindId(pid, ids, sms, sm => MatchesMetadata(sm, m)) == Some(id)
    ensures var rest := FilterNot(ids, id);
            && Sound(pid, rest, sms - {(pid, id)}, datas - {(pid, id)})
            && ListOf(pid, rest, sms - {(pid, id)}, datas - {(pid, id)}) == RemoveFirst(ListOf(pid, ids, sms, datas), m)
  {
    var rest := FilterNot(ids, id);
    WithoutFound(pid, ids, sms, datas, m);
    FilterNotMembers(ids, id);
    forall i | 0 <= i < |rest| ensures rest[i] != id {
      assert rest[i] in rest;
    }
    ContentsUnchanged(pid, rest, sms, datas, sms - {(pid, id)}, datas - {(pid, id)});
  }

  lemma RemovedAll(pid: string, ids: seq<int>, sms: Table<SM>, datas: Table<ByteStr>, c: Criteria, sms': Table<SM>, datas': Table<ByteStr>)
    requires Sound(pid, ids, sms, datas)
    requires forall id :: Lookup(sms', (pid, id)) == if id in Part(pid, ids, sms, c, true) then None else Lookup(sms, (pid, id))
    requires forall id :: Lookup(datas', (pid, id)) == if id in Part(pid, ids, sms, c, true) then None else Lookup(datas, (pid, id))
    ensures var rest := SortedReverse(Part(pid, ids, sms, c, false));
            && Sound(pid, rest, sms', datas')
            && ListOf(pid, rest, sms', datas') == RemoveAll(ListOf(pid, ids, sms, datas), c)
  {
    var rest := Part(pid, ids, sms, c, false);
    PartDescends(pid, ids, sms, c, false);
    AlreadySorted(rest);
    PartIsRest(pid, ids, sms, datas, c);
    hide RemoveAll, SortedReverse, Contents, StrictlyDescending;
    forall i | 0 <= i < |rest| ensures Lookup(sms', (pid, rest[i])) == Lookup(sms, (pid, rest[i])) && Lookup(datas', (pid, rest[i])) == Lookup(datas, (pid, rest[i])) {
      assert rest[i] in rest;
    }
    ContentsUnchanged(pid, rest, sms, datas, sms', datas');
    OnlyRestStored(pid, ids, sms, datas, c, sms', datas');
  }

  lemma OnlyRestStored(pid: string, ids: seq<int>, sms: Table<SM>, datas: Table<ByteStr>, c: Criteria, sms': Table<SM>, datas': Table<ByteStr>)
    requires Sound(pid, ids, sms, datas)
    requires forall id :: Lookup(sms', (pid, id)) == if id in Part(pid, ids, sms, c, true) then None else Lookup(sms, (pid, id))
    requires forall id :: Lookup(datas', (pid, id)) == if id in Part(pid, ids, sms, c, true) then None else Lookup(datas, (pid, id))
    ensures forall id :: (pid, id) in sms' || (pid, id) in datas' ==> id in Part(pid, ids, sms, c, false)
  {
    hide StrictlyDescending;
    forall id | (pid, id) in sms' || (pid, id) in datas' ensures id in Part(pid, ids, sms, c, false) {
      assert Lookup(sms', (pid, id)).Some? || Lookup(datas', (pid, id)).Some?;
    }
  }

  class MatcherSnapshotStore {
    var histories: map<string, seq<int>>
    var sms: Table<SM>
    var datas: Table<ByteStr>

    function Ids(pid: string): seq<int>
      reads this
    {
      if pid in histories then histories[pid] else []
    }

    ghost predicate Valid()
      reads this
    {
      forall pid :: Sound(pid, Ids(pid), sms, datas)
    }

    /** The snapshots of a persistence id, newest first. */
    ghost function List(pid: string): seq<Saved>
      requires Valid()
      reads this
    {
      ListOf(pid, Ids(pid), sms, datas)
    }

    constructor ()
      ensures Valid() && forall pid :: List(pid) == []
    {
      histories, sms, datas := map[], map[], map[];
    }

    /** Saving puts the snapshot in front; its id may be one that was deleted before. */
    method Save(m: Metadata, data: ByteStr)
      requires Valid()
      modifies this
      ensures Valid()
      ensures Ids(m.persistenceId) == [if old(Ids(m.persistenceId)) == [] then 1 else old(Ids(m.persistenceId))[0] + 1] + old(Ids(m.persistenceId))
      ensures List(m.persistenceId) == [Saved(SM(m.sequenceNr, m.timestamp), data)] + old(List(m.persistenceId))
      ensures forall pid :: pid != m.persistenceId ==> List(pid) == old(List(pid))
    {
      hide Sound, ListOf;
      var pid := m.persistenceId;
      var previousHistory := Ids(pid);
      var nextId := NextId(previousHistory);
      ghost var sms0, datas0 := sms, datas;
      SavedInFront(pid, previousHistory, sms, datas, SM(m.sequenceNr, m.timestamp), data);
      histories := histories[pid := [nextId] + previousHistory];
      sms := sms[(pid, nextId) := SM(m.sequenceNr, m.timestamp)];
      datas := datas[(pid, nextId) := data];
      forall p | p != pid ensures Ids(p) == old(Ids(p)) && Sound(p, Ids(p), sms, datas) && ListOf(p, Ids(p), sms, datas) == old(List(p)) {
        assert Sound(p, old(Ids(p)), sms0, datas0);
        SameElsewhere(p, Ids(p), sms0, datas0, sms, datas);
      }
    }

    method Load(pid: string, c: Criteria) returns (r: Option<Saved>)
      requires Valid()
      ensures r == FindFirst(List(pid), c)
    {
      var ids := Ids(pid);
      assert Sound(pid, ids, sms, datas);
      FoundIsFirst(pid, ids, sms, datas, c);
      var id := FindId(pid, ids, sms, sm => MatchesCriteria(sm, c));
      if id.Some? {
        r := Some(Saved(sms[(pid, id.value)], datas[(pid, id.value)]));
      } else {
        r := None;
      }
    }

    /** Deletes the newest snapshot with the metadata, if there is one. */
    method Delete(m: Metadata)
      requires Valid()
      modifies this
      ensures Valid() && List(m.persistenceId) == RemoveFirst(old(List(m.persistenceId)), m)
      ensures forall pid :: pid != m.persistenceId ==> List(pid) == old(List(pid))
    {
      var pid := m.persistenceId;
      var history := Ids(pid);
      assert Sound(pid, history, sms, datas);
      WithoutFound(pid, history, sms, datas, m);
      var id := FindId(pid, history, sms, sm => MatchesMetadata(sm, m));
      hide Sound;
      if id.Some? {
        RemoveListed(m, id.value);
      }
    }

    method RemoveListed(m: Metadata, id: int)
      requires Valid()
      requires var pid := m.persistenceId;
               AllStored(pid, Ids(pid), sms, datas) && FindId(pid, Ids(pid), sms, sm => MatchesMetadata(sm, m)) == Some(id)
      modifies this
      ensures Valid() && List(m.persistenceId) == RemoveFirst(old(List(m.persistenceId)), m)
      ensures forall pid :: pid != m.persistenceId ==> List(pid) == old(List(pid))
    {
      hide Sound, ListOf, FindId, RemoveFirst, AllStored;
      var pid := m.persistenceId;
      var history := Ids(pid);
      ghost var sms0, datas0 := sms, datas;
      RemovedFirst(pid, history, sms, datas, m, id);
      histories := histories[pid := FilterNot(history, id)];
      sms := sms - {(pid, id)};
      datas := datas - {(pid, id)};
      forall p | p != pid ensures Ids(p) == old(Ids(p)) && Sound(p, Ids(p), sms, datas) && ListOf(p, Ids(p), sms, datas) == old(List(p)) {
        assert Sound(p, old(Ids(p)), sms0, datas0);
        SameElsewhere(p, Ids(p), sms0, datas0, sms, datas);
      }
    }

    /** Deletes every snapshot that matches. */
    method DeleteAll(pid: string, c: Criteria)
      requires Valid()
      modifies this
      ensures Valid() && List(pid) == RemoveAll(old(List(pid)), c)
      ensures forall p :: p != pid ==> List(p) == old(List(p))
    {
      var history := Ids(pid);
      assert Sound(pid, history, sms, datas);
      var toDelete, toKeep := Part(pid, history, sms, c, true), Part(pid, history, sms, c, false);
      hide Sound, ListOf, Part, SortedReverse, RemoveAll;
      ghost var sms0, datas0 := sms, datas;
      histories := histories[pid := SortedReverse(toKeep)];
      sms, datas := DeleteIds(pid, toDelete, sms, datas);
      RemovedAll(pid, history, sms0, datas0, c, sms, datas);
      forall p | p != pid ensures Ids(p) == old(Ids(p)) && Sound(p, Ids(p), sms, datas) && ListOf(p, Ids(p), sms, datas) == old(List(p)) {
        assert Sound(p, old(Ids(p)), sms0, datas0);
        SameElsewhere(p, Ids(p), sms0, datas0, sms, datas);
      }
    }
  }

  method DeleteIds(pid: string, ids: seq<int>, sms0: Table<SM>, datas0: Table<ByteStr>) returns (sms: Table<SM>, datas: Table<ByteStr>)
    ensures forall k :: Lookup(sms, k) == if k.0 == pid && k.1 in ids then None else Lookup(sms0, k)
    ensures forall k :: Lookup(datas, k) == if k.0 == pid && k.1 in ids then None else Lookup(datas0, k)
  {
    sms, datas := sms0, datas0;
    var i := 0;
    while i < |ids|
      invariant i <= |ids|
      invariant forall k :: Lookup(sms, k) == if k.0 == pid && k.1 in ids[..i] then None else Lookup(sms0, k)
      invariant forall k :: Lookup(datas, k) == if k.0 == pid && k.1 in ids[..i] then None else Lookup(datas0, k)
    {
      sms := sms - {(pid, ids[i])};
      datas := datas - {(pid, ids[i])};
      assert ids[..i + 1] == ids[..i] + [ids[i]];
      i := i + 1;
    }
    assert ids[..i] == ids;
  }
}
