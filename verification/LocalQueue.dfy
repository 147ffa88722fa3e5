/**
 The matcher's local event queue: events go to disk and to memory, and one consumer reads first from disk, then from memory.
 Most methods of the store are single atomic steps of the producer, the consumer or the operator, so that any order of calls
 is an interleaving; Enqueue and GetFrom are the steps in a row.
 */
module LocalQueue {
  import opened Common
  import opened Enumerations

  datatype Event = Event(timestamp: int, payload: string)
  datatype Delivery = Delivery(offset: int, event: Event)

  // ---- deliveries without gaps ----

  /** The next offset that would be new, or None if an offset was skipped. */
  ghost function Expected(from: int, ds: seq<Delivery>): Option<int> {
    if ds == [] then Some(from) else
    match Expected(from, ds[..|ds| - 1])
    case None => None
    case Some(e) =>
      var d := ds[|ds| - 1].offset;
      if d == e then Some(e + 1) else if d < e then Some(e) else None
  }

  /** The deliveries with already-seen offsets dropped. */
  ghost function Novel(from: int, ds: seq<Delivery>): seq<Delivery> {
    if ds == [] then [] else
    var before, d := Novel(from, ds[..|ds| - 1]), ds[|ds| - 1];
    if d.offset < from || exists i :: 0 <= i < |before| && before[i].offset == d.offset then before else before + [d]
  }

  /** Without a gap, the new deliveries are from, from + 1, and so on. */
  lemma {:induction false} NovelIsRange(from: int, ds: seq<Delivery>)
    requires Expected(from, ds).Some?
    ensures var e, new_ := Expected(from, ds).value, Novel(from, ds);
            |new_| == e - from && forall i :: 0 <= i < |new_| ==> new_[i].offset == from + i
  {
    if ds != [] {
      NovelIsRange(from, ds[..|ds| - 1]);
      var before, d := Novel(from, ds[..|ds| - 1]), ds[|ds| - 1].offset;
      if from <= d < from + |before| {
        assert before[d - from].offset == d;
      }
    }
  }

  lemma ExpectedMore(from: int, ds: seq<Delivery>, d: Delivery)
    requires Expected(from, ds).Some? && d.offset <= Expected(from, ds).value
    ensures var e := Expected(from, ds).value;
            Expected(from, ds + [d]) == Some(if d.offset == e then e + 1 else e)
  {
    assert (ds + [d])[..|ds|] == ds;
  }

  ghost predicate Rising(xs: seq<Delivery>) {
    forall i, j :: 0 <= i < j < |xs| ==> xs[i].offset < xs[j].offset
  }

  ghost predicate Has(xs: seq<Delivery>, o: int) {
    exists i :: 0 <= i < |xs| && xs[i].offset == o
  }

  /** A batch in rising order that has everything from the expected offset up to its end leaves no gap. */
  lemma {:induction false} BatchLeavesNoGap(from: int, ds: seq<Delivery>, xs: seq<Delivery>, end: int)
    requires Expected(from, ds).Some?
    requires Rising(xs) && forall i :: 0 <= i < |xs| ==> xs[i].offset < end
    requires forall o :: Expected(from, ds).value <= o < end ==> Has(xs, o)
    ensures var e := Expected(from, ds).value;
            Expected(from, ds + xs) == Some(if e > end then e else end)
  {
    var e := Expected(from, ds).value;
    if xs == [] {
      assert ds + xs == ds;
      assert !Has(xs, e);
    } else {
      var last := xs[|xs| - 1];
      var ys := xs[..|xs| - 1];
      var end' := if last.offset < e then e else last.offset;
      forall o | e <= o < last.offset ensures Has(ys, o) {
        assert Has(xs, o);
        var i :| 0 <= i < |xs| && xs[i].offset == o;
        assert ys[i].offset == o;
      }
      BatchLeavesNoGap(from, ds, ys, last.offset);
      assert ds + xs == (ds + ys) + [last];
      ExpectedMore(from, ds + ys, last);
      if end > e {
        assert Has(xs, end - 1);
      }
    }
  }

  // ---- the log ----

  /** Offsets from `low` to below `high`, as the log has them. */
  ghost predicate Segment(xs: seq<Delivery>, log: map<int, Event>, low: int, high: int) {
    && |xs| == high - low
    && forall i :: 0 <= i < |xs| ==> xs[i].offset == low + i && low + i in log && xs[i].event == log[low + i]
  }

  lemma SegmentMoves(xs: seq<Delivery>, ys: seq<Delivery>, log: map<int, Event>, low: int, mid: int, high: int)
    requires Segment(xs, log, low, mid) && Segment(ys, log, mid, high) && ys != []
    ensures Segment(xs + [ys[0]], log, low, mid + 1) && Segment(ys[1..], log, mid + 1, high)
  {
    var moved, rest := xs + [ys[0]], ys[1..];
    assert ys[0].offset == mid + 0;
    forall i | 0 <= i < |moved| ensures moved[i].offset == low + i && low + i in log && moved[i].event == log[low + i] {
      assert i < |xs| ==> moved[i] == xs[i];
    }
    forall i | 0 <= i < |rest| ensures rest[i].offset == mid + 1 + i && mid + 1 + i in log && rest[i].event == log[mid + 1 + i] {
      assert rest[i] == ys[i + 1];
    }
  }

  lemma SegmentSnoc(xs: seq<Delivery>, log: map<int, Event>, low: int, high: int)
    requires Segment(xs, log, low, high) && high in log
    ensures Segment(xs + [Delivery(high, log[high])], log, low, high + 1)
  {
  }

  /** Writing a new offset leaves what memory, consumer and client have. */
  lemma SegmentLonger(xs: seq<Delivery>, log: map<int, Event>, low: int, high: int, offset: int, event: Event)
    requires offset !in log && Segment(xs, log, low, high)
    ensures Segment(xs, log[offset := event], low, high)
  {
  }

  lemma LoggedLonger(ds: seq<Delivery>, log: map<int, Event>, offset: int, event: Event)
    requires AllLogged(ds, log) && offset !in log
    ensures AllLogged(ds, log[offset := event])
  {
  }

  lemma NothingYet(from: int, log: map<int, Event>, o: int)
    ensures Expected(from, []) == Some(from) && Segment([], log, o, o) && AllLogged([], log)
  {
  }

  lemma SegmentIsBatch(xs: seq<Delivery>, log: map<int, Event>, low: int, high: int)
    requires Segment(xs, log, low, high)
    ensures Rising(xs) && forall o :: low <= o < high ==> Has(xs, o)
  {
    forall o | low <= o < high ensures Has(xs, o) {
      assert xs[o - low].offset == o;
    }
  }

  /** The log has every offset up to the newest, and the disk everything of it that was not dropped. */
  ghost predicate DiskHolds(disk: map<nat, Event>, log: map<int, Event>, newest: int, dropped: int) {
    && (forall o :: o in log <==> 0 <= o <= newest)
    && (forall o: nat :: o in disk ==> o in log && disk[o] == log[o])
    && (forall o: nat :: o in log && o >= dropped ==> o in disk)
  }

  ghost predicate AllLogged(ds: seq<Delivery>, log: map<int, Event>) {
    forall i :: 0 <= i < |ds| ==> ds[i].offset in log && ds[i].event == log[ds[i].offset]
  }

  lemma OneMoreWritten(disk: map<nat, Event>, log: map<int, Event>, newest: int, dropped: int, e: Event)
    requires newest >= -1 && DiskHolds(disk, log, newest, dropped)
    ensures newest + 1 !in log && DiskHolds(disk[newest + 1 := e], log[newest + 1 := e], newest + 1, dropped)
  {
  }

  lemma DroppedBelow(disk: map<nat, Event>, rest: map<nat, Event>, log: map<int, Event>, newest: int, dropped: int, offset: int)
    requires DiskHolds(disk, log, newest, dropped)
    requires forall o: nat :: o in rest ==> o in disk && rest[o] == disk[o]
    requires forall o: nat :: o in disk && o >= offset ==> o in rest
    ensures DiskHolds(rest, log, newest, if dropped > offset then dropped else offset)
    ensures offset > newest ==> DiskHolds(rest, log, newest, if dropped > newest + 1 then dropped else newest + 1)
  {
  }

  /** Reading the disk in key order from an offset. */
  function Scan(disk: map<nat, Event>, offsets: seq<nat>): (r: seq<Delivery>)
    requires forall i :: 0 <= i < |offsets| ==> offsets[i] in disk
    ensures |r| == |offsets| && forall i :: 0 <= i < |r| ==> r[i] == Delivery(offsets[i], disk[offsets[i]])
  {
    if offsets == [] then [] else [Delivery(offsets[0], disk[offsets[0]])] + Scan(disk, offsets[1..])
  }

  function ReadFrom(disk: map<nat, Event>, offset: int): seq<Delivery> {
    var offsets := Ascending(set o | o in disk && o >= offset);
    assert forall i :: 0 <= i < |offsets| ==> offsets[i] in offsets;
    Scan(disk, offsets)
  }

  lemma ReadsInOrder(disk: map<nat, Event>, offset: int)
    ensures var xs := ReadFrom(disk, offset);
            && Rising(xs)
            && (forall o: nat :: o in disk && o >= offset ==> Has(xs, o))
            && (forall i :: 0 <= i < |xs| ==> xs[i].offset >= 0 && xs[i].offset >= offset && xs[i].offset in disk && xs[i].event == disk[xs[i].offset])
  {
    var offsets := Ascending(set o | o in disk && o >= offset);
    OffsetsRead(disk, offset, offsets);
    hide Increasing, Scan, Ascending;
    ScanRises(disk, offsets);
    forall o: nat | o in disk && o >= offset ensures Has(ReadFrom(disk, offset), o) {
      ScanHas(disk, offsets, o);
    }
  }

  lemma OffsetsRead(disk: map<nat, Event>, offset: int, offsets: seq<nat>)
    requires offsets == Ascending(set o | o in disk && o >= offset)
    ensures Increasing(offsets) && (forall o: nat :: o in offsets <==> o in disk && o >= offset)
    ensures forall i :: 0 <= i < |offsets| ==> offsets[i] in disk
    ensures ReadFrom(disk, offset) == Scan(disk, offsets)
  {
    hide Increasing, Scan;
    AscendingIncreases(set o | o in disk && o >= offset);
    assert forall i :: 0 <= i < |offsets| ==> offsets[i] in offsets;
  }

  lemma {:induction false} GapStays(from: int, ds: seq<Delivery>, xs: seq<Delivery>)
    requires Expected(from, ds) == None
    ensures Expected(from, ds + xs) == None
  {
    if xs == [] {
      assert ds + xs == ds;
    } else {
      assert (ds + xs)[..|ds + xs| - 1] == ds + xs[..|xs| - 1];
      GapStays(from, ds, xs[..|xs| - 1]);
    }
  }

  /** A rising batch without the expected offset leaves a gap exactly if it has a later one. */
  lemma {:induction false} MissingLeavesGap(from: int, ds: seq<Delivery>, xs: seq<Delivery>)
    requires Expected(from, ds).Some? && Rising(xs) && !Has(xs, Expected(from, ds).value)
    ensures Expected(from, ds + xs) ==
            if forall i :: 0 <= i < |xs| ==> xs[i].offset < Expected(from, ds).value then Expected(from, ds) else None
  {
    var e := Expected(from, ds).value;
    if xs == [] {
      assert ds + xs == ds;
    } else {
      var before, last := xs[..|xs| - 1], xs[|xs| - 1];
      forall i | 0 <= i < |before| ensures before[i].offset != e {
        assert xs[i].offset != e;
      }
      MissingLeavesGap(from, ds, before);
      assert (ds + xs)[..|ds + xs| - 1] == ds + before;
      assert last.offset != e;
    }
  }

  /** With the expected offset gone from disk, reading on from disk skips events exactly if later ones are left. */
  lemma GapAfterDrop(disk: map<nat, Event>, from: int, ds: seq<Delivery>, low: int)
    requires Expected(from, ds).Some? && low <= Expected(from, ds).value
    requires forall o: nat :: o in disk ==> o != Expected(from, ds).value
    ensures Expected(from, ds + ReadFrom(disk, low)).Some? <==> forall o: nat :: o in disk ==> o < Expected(from, ds).value
  {
    var e, xs := Expected(from, ds).value, ReadFrom(disk, low);
    ReadsInOrder(disk, low);
    forall i | 0 <= i < |xs| ensures xs[i].offset != e {
    }
    MissingLeavesGap(from, ds, xs);
    forall o: nat | o in disk && o >= e ensures exists i :: 0 <= i < |xs| && xs[i].offset >= e {
      assert Has(xs, o);
    }
  }

  lemma ScanRises(disk: map<nat, Event>, offsets: seq<nat>)
    requires forall i :: 0 <= i < |offsets| ==> offsets[i] in disk
    requires Increasing(offsets)
    ensures Rising(Scan(disk, offsets))
  {
  }

  lemma ScanHas(disk: map<nat, Event>, offsets: seq<nat>, o: nat)
    requires forall i :: 0 <= i < |offsets| ==> offsets[i] in disk
    requires o in offsets
    ensures Has(Scan(disk, offsets), o)
  {
    var i :| 0 <= i < |offsets| && offsets[i] == o;
    assert Scan(disk, offsets)[i].offset == o;
  }

  // ---- the store, its producer and its consumer ----

  datatype Producer = Idle | Allocated(offset: int, event: Event) | Written(offset: int, event: Event) | Added(offset: int)
  datatype Consumer = Waiting | ReadingDisk | Polling(xs: seq<Delivery>)

  class LocalQueueStore {
    var disk: map<nat, Event>
    var lqOldestIdx: int
    var lqNewestIdx: int
    var newestIdx: int
    var inMemQueue: seq<Delivery>
    var startInMemOffset: Option<int>
    var producer: Producer
    var consumer: Consumer
    var lastUnreadOffset: int
    ghost var log: map<int, Event> // everything ever written, under its offset
    ghost var dropped: int // offsets below may be gone from disk
    ghost var firstInMem: int // the first offset this process puts into memory
    ghost var from: int
    ghost var delivered: seq<Delivery>
    ghost var expected: int

    ghost predicate DiskValid()
      reads this
    {
      lqNewestIdx >= -1 && DiskHolds(disk, log, lqNewestIdx, dropped) && dropped <= expected
    }

    /** Up to where the producer has filled the memory queue. */
    ghost function Filled(): int
      reads this
    {
      if producer.Written? then producer.offset else lqNewestIdx + 1
    }

    ghost predicate ProducerValid()
      reads this
    {
      match producer
      case Idle => newestIdx == lqNewestIdx
      case Allocated(o, _) => o == newestIdx == lqNewestIdx + 1
      case Written(o, e) => o == newestIdx == lqNewestIdx && o in log && log[o] == e
      case Added(o) => o == newestIdx == lqNewestIdx
    }

    /** How many offsets the consumer holds that it polled but has not delivered. */
    ghost function InFlight(): nat
      reads this
    {
      if consumer.Polling? then |consumer.xs| else 0
    }

    ghost predicate MemoryValid()
      reads this
    {
      var head := Filled() - |inMemQueue|;
      && Segment(inMemQueue, log, head, Filled())
      && firstInMem <= head - InFlight()
      && (head == firstInMem || head - InFlight() <= expected)
      && (startInMemOffset.Some? ==> startInMemOffset.value == firstInMem)
      && (startInMemOffset == None ==> firstInMem == if producer.Added? then producer.offset else Filled())
      && (consumer.Polling? ==> Segment(consumer.xs, log, head - InFlight(), head) && head - InFlight() <= expected)
    }

    ghost predicate DeliveriesValid()
      reads this
    {
      && 0 <= from <= expected && Expected(from, delivered) == Some(expected)
      && lastUnreadOffset <= expected
      && AllLogged(delivered, log)
    }

    ghost predicate Valid()
      reads this
    {
      DiskValid() && ProducerValid() && MemoryValid() && DeliveriesValid()
    }

    /** Opens the store on a disk, empty or as an earlier process left it at any moment; a consumer starts at an offset not dropped. */
    constructor (disk: map<nat, Event>, lqOldestIdx: int, lqNewestIdx: int, from: int, ghost log: map<int, Event>, ghost dropped: int)
      requires lqNewestIdx >= -1 && DiskHolds(disk, log, lqNewestIdx, dropped) && from >= 0 && dropped <= from
      ensures Valid() && this.log == log && this.disk == disk && this.from == from && delivered == []
      ensures this.lqOldestIdx == lqOldestIdx && this.lqNewestIdx == lqNewestIdx && expected == from
    {
      hide Expected, Segment, DiskHolds, AllLogged;
      NothingYet(from, log, lqNewestIdx + 1);
      this.disk, this.lqOldestIdx, this.lqNewestIdx, newestIdx := disk, lqOldestIdx, lqNewestIdx, lqNewestIdx;
      inMemQueue, startInMemOffset, producer, consumer, lastUnreadOffset := [], None, Idle, Waiting, from;
      this.log, this.dropped, firstInMem, this.from, delivered, expected := log, dropped, lqNewestIdx + 1, from, [], from;
    }

    /** What the client has seen, repeated offsets dropped, is the log from its first offset on, without gap or repetition. */
    lemma NothingLost()
      requires Valid()
      ensures var new_ := Novel(from, delivered);
              && |new_| == expected - from
              && forall i :: 0 <= i < |new_| ==> new_[i].offset == from + i
    {
      NovelIsRange(from, delivered);
    }

    // ---- steps of enqueue ----

    method Allocate(event: Event)
      requires Valid() && producer.Idle?
      modifies this`newestIdx, this`producer
      ensures Valid() && producer == Allocated(newestIdx, event) && newestIdx !in log
    {
      hide Expected, Segment;
      newestIdx := newestIdx + 1;
      producer := Allocated(newestIdx, event);
    }

    /** An offset is never written twice. */
    method Write()
      requires Valid() && producer.Allocated?
      modifies this`disk, this`lqNewestIdx, this`producer, this`log
      ensures Valid() && producer == Written(old(producer).offset, old(producer).event)
      ensures old(producer).offset !in old(log) && log == old(log)[old(producer).offset := old(producer).event]
      ensures old(producer).offset >= 0 && disk == old(disk)[old(producer).offset := old(producer).event]
    {
      hide Expected, DiskHolds, Segment, AllLogged;
      var offset, event := producer.offset, producer.event;
      OneMoreWritten(disk, log, lqNewestIdx, dropped, event);
      ghost var head := Filled() - |inMemQueue|;
      SegmentLonger(inMemQueue, log, head, Filled(), offset, event);
      if consumer.Polling? {
        SegmentLonger(consumer.xs, log, head - InFlight(), head, offset, event);
      }
      LoggedLonger(delivered, log, offset, event);
      disk := disk[offset := event];
      lqNewestIdx := offset;
      log := log[offset := event];
      producer := Written(offset, event);
    }

    method AddToMemory()
      requires Valid() && producer.Written?
      modifies this`inMemQueue, this`producer
      ensures Valid() && producer == Added(old(producer).offset)
      ensures inMemQueue == old(inMemQueue) + [Delivery(old(producer).offset, old(producer).event)]
    {
      hide Expected, Segment;
      SegmentSnoc(inMemQueue, log, Filled() - |inMemQueue|, producer.offset);
      inMemQueue := inMemQueue + [Delivery(producer.offset, producer.event)];
      producer := Added(producer.offset);
    }

    /** The marker is only set once, to the first offset in memory. */
    method Mark()
      requires Valid() && producer.Added?
      modifies this`startInMemOffset, this`producer
      ensures Valid() && producer == Idle
      ensures startInMemOffset == if old(startInMemOffset) == None then Some(old(producer).offset) else old(startInMemOffset)
    {
      hide Expected, Segment;
      if startInMemOffset == None {
        startInMemOffset := Some(producer.offset);
      }
      producer := Idle;
    }

    /** enqueue */
    method Enqueue(event: Event) returns (offset: int)
      requires Valid() && producer.Idle?
      modifies this`newestIdx, this`producer, this`disk, this`lqNewestIdx, this`log, this`inMemQueue, this`startInMemOffset
      ensures Valid() && producer.Idle?
      ensures offset == old(lqNewestIdx) + 1 == lqNewestIdx && offset >= 0 && offset !in old(log)
      ensures log == old(log)[offset := event] && disk == old(disk)[offset := event]
      ensures inMemQueue == old(inMemQueue) + [Delivery(offset, event)]
    {
      Allocate(event);
      offset := newestIdx;
      Write();
      AddToMemory();
      Mark();
    }

    // ---- steps of getFrom ----

    /** The consumer may still see no marker after the producer has set it. */
    method Decide(seesMarker: bool)
      requires Valid() && consumer.Waiting?
      modifies this`consumer
      ensures Valid() && !consumer.Waiting?
      ensures consumer.Polling? <==> seesMarker && startInMemOffset.Some? && startInMemOffset.value <= lastUnreadOffset
      ensures consumer.Polling? ==> consumer.xs == []
    {
      hide Expected;
      if seesMarker && startInMemOffset.Some? && startInMemOffset.value <= lastUnreadOffset {
        consumer := Polling([]);
      } else {
        consumer := ReadingDisk;
      }
    }

    /** Hands a batch to the client and asks behind its last event next time. */
    method Deliver(xs: seq<Delivery>)
      requires Expected(from, delivered + xs).Some? && from >= 0
      requires forall i :: 0 <= i < |xs| ==> xs[i].offset < Expected(from, delivered + xs).value
      requires DeliveriesValid() && forall i :: 0 <= i < |xs| ==> xs[i].offset in log && xs[i].event == log[xs[i].offset]
      modifies this`lastUnreadOffset, this`consumer, this`delivered, this`expected
      ensures DeliveriesValid() && consumer == Waiting
      ensures delivered == old(delivered) + xs && Expected(from, delivered) == Some(expected)
      ensures lastUnreadOffset == if xs == [] then old(lastUnreadOffset) else xs[|xs| - 1].offset + 1
    {
      hide Expected, Segment;
      ghost var e := Expected(from, delivered + xs).value;
      ExpectedGrows(from, delivered, xs);
      delivered, expected := delivered + xs, e;
      consumer := Waiting;
      if xs != [] {
        lastUnreadOffset := xs[|xs| - 1].offset + 1;
      }
    }

    method ReadDisk() returns (xs: seq<Delivery>)
      requires Valid() && consumer.ReadingDisk?
      modifies this`lastUnreadOffset, this`consumer, this`delivered, this`expected
      ensures Valid() && consumer == Waiting && delivered == old(delivered) + xs
      ensures lastUnreadOffset == if xs == [] then old(lastUnreadOffset) else xs[|xs| - 1].offset + 1
      ensures xs == ReadFrom(disk, if old(lastUnreadOffset) > 0 then old(lastUnreadOffset) else 0)
    {
      hide Segment, ReadFrom, Expected, Rising;
      var offset := if lastUnreadOffset > 0 then lastUnreadOffset else 0;
      xs := ReadFrom(disk, offset);
      ReadsInOrder(disk, offset);
      forall o | expected <= o < lqNewestIdx + 1 ensures Has(xs, o) {
        assert o in log && o in disk;
      }
      BatchLeavesNoGap(from, delivered, xs, lqNewestIdx + 1);
      Deliver(xs);
    }

    method Poll()
      requires Valid() && consumer.Polling? && inMemQueue != []
      modifies this`inMemQueue, this`consumer
      ensures Valid() && consumer == Polling(old(consumer).xs + [old(inMemQueue)[0]]) && inMemQueue == old(inMemQueue)[1..]
    {
      hide Expected, Segment;
      var x := inMemQueue[0];
      ghost var head := Filled() - |inMemQueue|;
      SegmentMoves(consumer.xs, inMemQueue, log, head - |consumer.xs|, head, Filled());
      inMemQueue := inMemQueue[1..];
      consumer := Polling(consumer.xs + [x]);
    }

    method FinishPolling() returns (xs: seq<Delivery>)
      requires Valid() && consumer.Polling?
      modifies this`lastUnreadOffset, this`consumer, this`delivered, this`expected
      ensures Valid() && consumer == Waiting && xs == old(consumer).xs && delivered == old(delivered) + xs
      ensures lastUnreadOffset == if xs == [] then old(lastUnreadOffset) else xs[|xs| - 1].offset + 1
    {
      hide Expected;
      xs := consumer.xs;
      ghost var head := Filled() - |inMemQueue|;
      SegmentIsBatch(xs, log, head - |xs|, head);
      BatchLeavesNoGap(from, delivered, xs, head);
      Deliver(xs);
    }

    /** getFrom(lastUnreadOffset, maxElements) */
    method GetFrom(maxElements: nat) returns (xs: seq<Delivery>)
      requires Valid() && consumer.Waiting?
      modifies this`inMemQueue, this`lastUnreadOffset, this`consumer, this`delivered, this`expected
      ensures Valid() && consumer.Waiting? && delivered == old(delivered) + xs
      ensures lastUnreadOffset == if xs == [] then old(lastUnreadOffset) else xs[|xs| - 1].offset + 1
      ensures if startInMemOffset.Some? && startInMemOffset.value <= old(lastUnreadOffset) then
                var n := if |old(inMemQueue)| < maxElements then |old(inMemQueue)| else maxElements;
                xs == old(inMemQueue)[..n] && inMemQueue == old(inMemQueue)[n..]
              else
                && xs == ReadFrom(disk, if old(lastUnreadOffset) > 0 then old(lastUnreadOffset) else 0) && inMemQueue == old(inMemQueue)
                && Rising(xs) && (forall o: nat :: o in disk && o >= old(lastUnreadOffset) ==> Has(xs, o))
                && (forall i :: 0 <= i < |xs| ==> xs[i].offset >= old(lastUnreadOffset) && xs[i].offset >= 0
                                                  && xs[i].offset in disk && xs[i].event == disk[xs[i].offset])
    {
      hide Expected, Segment, ReadFrom, DiskHolds, AllLogged;
      Decide(true);
      if consumer.ReadingDisk? {
        ReadsInOrder(disk, if lastUnreadOffset > 0 then lastUnreadOffset else 0);
        xs := ReadDisk();
      } else {
        while inMemQueue != [] && |consumer.xs| < maxElements
          invariant Valid() && consumer.Polling? && delivered == old(delivered)
          invariant |consumer.xs| <= maxElements && old(inMemQueue) == consumer.xs + inMemQueue
          invariant lastUnreadOffset == old(lastUnreadOffset)
          decreases |inMemQueue|
        {
          Poll();
        }
        xs := FinishPolling();
      }
    }

    // ---- the operator ----

    /**
     Deletes the offsets below the given one from disk. Nothing is lost to the consumer as long as these are offsets it has
     seen, or none that it has yet to see was written; lemma GapAfterDrop says what happens otherwise.
     */
    method DropUntil(offset: int)
      requires Valid()
      modifies this`disk, this`lqOldestIdx, this`dropped
      ensures lqOldestIdx == offset && DiskHolds(disk, log, lqNewestIdx, dropped)
      ensures Valid() <==> offset <= expected || lqNewestIdx < expected
      ensures forall o: nat :: o in disk <==> o in old(disk) && !((if old(lqOldestIdx) > 0 then old(lqOldestIdx) else 0) <= o < offset)
      ensures forall o: nat :: o in disk ==> disk[o] == old(disk)[o]
    {
      hide Expected, Segment, DiskHolds, AllLogged;
      DeleteRange(if lqOldestIdx > 0 then lqOldestIdx else 0, offset);
      DroppedBelow(old(disk), disk, log, lqNewestIdx, dropped, offset);
      lqOldestIdx := offset;
      ghost var end := if offset <= lqNewestIdx then offset else lqNewestIdx + 1;
      dropped := if dropped > end then dropped else end;
    }

    method DeleteRange(low: nat, high: int)
      modifies this`disk
      ensures forall o: nat :: o in disk <==> o in old(disk) && !(low <= o < high)
      ensures forall o: nat :: o in disk ==> disk[o] == old(disk)[o]
    {
      var i := low;
      while i < high
        invariant low <= i && (i <= high || i == low)
        invariant forall o: nat :: o in disk <==> o in old(disk) && !(low <= o < i)
        invariant forall o: nat :: o in disk ==> disk[o] == old(disk)[o]
      {
        disk := disk - {i};
        i := i + 1;
      }
    }

    /** The newest offset, unless it is being written or has been dropped. */
    method NewestOffset() returns (r: Option<int>)
      requires Valid()
      ensures r.Some? ==> r.value == newestIdx && newestIdx in log && forall o :: o in log ==> o <= r.value
      ensures r == None ==> producer.Allocated? || newestIdx < 0 || newestIdx < dropped
    {
      if newestIdx >= 0 && newestIdx in disk {
        r := Some(newestIdx);
      } else {
        r := None;
      }
    }
  }

  lemma {:induction false} ExpectedGrows(from: int, ds: seq<Delivery>, xs: seq<Delivery>)
    requires Expected(from, ds + xs).Some?
    ensures Expected(from, ds).Some? && Expected(from, ds).value <= Expected(from, ds + xs).value
  {
    if xs == [] {
      assert ds + xs == ds;
    } else {
      assert (ds + xs)[..|ds + xs| - 1] == ds + xs[..|xs| - 1];
      ExpectedGrows(from, ds, xs[..|xs| - 1]);
    }
  }
}
