/** Rollbacks of several blocks, and runs that mix appends and rollbacks in any order. */
module ChainRuns {
  import opened Common
  import opened Types
  import opened Histories
  import opened Versions
  import opened Tables
  import opened Batches
  import opened ChainBlocks
  import opened ChainAddressTxs
  import opened ChainState
  import opened ChainIndexes
  import opened ChainNode

  // ---- doRollback ----

  predicate CanStepBack(db: Tables, target: nat) {
    db.blocks.height > target && db.blocks.height in db.blocks.stored.header
  }

  /** The store after rolling blocks back one at a time until the target height. */
  function RolledBack(db: Tables, target: nat): Tables
    decreases db.blocks.height
  {
    if CanStepBack(db, target) then RolledBack(RollbackTables(db, db.blocks.height), target) else db
  }

  /** The block put together from its stored header and transactions. */
  function StoredBlock(t: BlockTables, height: nat): Block
    requires height in t.header
  {
    Block(t.header[height], Bare(TransactionsAt(t, height)))
  }

  /** The discarded blocks, oldest first. */
  function Discarded(db: Tables, target: nat): seq<Block>
    decreases db.blocks.height
  {
    if CanStepBack(db, target)
    then Discarded(RollbackTables(db, db.blocks.height), target) + [StoredBlock(db.blocks.stored, db.blocks.height)]
    else []
  }

  ghost function BlocksAbove(chain: Chain, target: nat): seq<Block> {
    if chain.Height() <= target then [] else BlocksAbove(chain.below, target) + [chain.Block()]
  }

  ghost predicate CoveredAbove(chain: Chain, target: nat, addressId: map<Address, nat>) {
    chain.Height() > target ==> Covered(chain.update, addressId) && CoveredAbove(chain.below, target, addressId)
  }

  /**
   A rollback to a height always gives the blocks, addresses, lists and indexes of the chain cut there, and returns exactly
   the blocks that stood above it, oldest first, with their transactions in order. If these are covered the state is the
   shorter chain's too. When they are not, module Survivors says what is left.
   */
  lemma {:induction false} RollbackToTarget(db: Tables, chain: Chain, target: nat)
    requires Anchored(db, chain)
    requires db.blocks.safeRollbackHeight < target <= chain.Height()
    ensures Anchored(RolledBack(db, target), chain.Upto(target))
    ensures Discarded(db, target) == BlocksAbove(chain, target)
    ensures RolledBack(db, target).addresses == db.addresses
    ensures RolledBack(db, target).blocks.safeRollbackHeight == db.blocks.safeRollbackHeight
    ensures Stored(db, chain) && CoveredAbove(chain, target, db.addresses.addressId) ==> Stored(RolledBack(db, target), chain.Upto(target))
    decreases chain.Height()
  {
    hide Stored, Anchored, Covered, RollbackKeys, CommitState, CommitAddressTxs, RollbackStateBatch, RollbackAddressTxBatch, CommitBlocks;
    AnchoredHeight(db, chain);
    if chain.Height() > target {
      RollbackKeepsAnchor(db, chain);
      if Stored(db, chain) {
        RollbackRestoresStore(db, chain);
      }
      RollbackToTarget(RollbackTables(db, chain.Height()), chain.below, target);
    }
  }

  lemma CoveredRollback(db: Tables, chain: Chain, target: nat)
    requires Stored(db, chain) && db.blocks.safeRollbackHeight < target <= chain.Height()
    requires CoveredAbove(chain, target, db.addresses.addressId)
    ensures Stored(RolledBack(db, target), chain.Upto(target))
    ensures RolledBack(db, target).addresses == db.addresses
    ensures RolledBack(db, target).blocks.safeRollbackHeight == db.blocks.safeRollbackHeight
  {
    hide Stored, Anchored, CoveredAbove, RolledBack, Represents;
    StoredIsAnchored(db, chain);
    RollbackToTarget(db, chain, target);
  }

  lemma {:induction false} UptoBelow(chain: Chain, height: nat)
    requires 1 <= height <= chain.Height()
    ensures chain.Upto(height).Grown? && chain.Upto(height).below == chain.Upto(height - 1)
  {
    if height < chain.Height() {
      UptoBelow(chain.below, height);
    }
  }

  lemma HeightOfStore(db: Tables, chain: Chain)
    requires Stored(db, chain)
    ensures db.blocks.height == chain.Height() && db.blocks.safeRollbackHeight <= chain.Height()
  {
    hide AddressesStored, ListsStored, StateStored, Indexed, IdsKnown;
    HeightOfStored(db.blocks, chain);
  }

  // ---- one key at a time ----

  /** What the store has of a key is faithful to the chain. */
  ghost predicate KeyKept(db: Tables, chain: Chain, key: VersionKey) {
    Keeps(HistoryOf(db.state.history, key), db.state.value, Deltas(chain), key, Floor(key, db.blocks.safeRollbackHeight))
  }

  lemma StoredKeys(db: Tables, chain: Chain)
    ensures Stored(db, chain) <==> Anchored(db, chain) && forall key :: KeyKept(db, chain, key)
  {
    hide Stored, Anchored, Keeps;
    StoredIsAnchored(db, chain);
    var safe := db.blocks.safeRollbackHeight;
    if Represents(db.state.history, db.state.value, Deltas(chain), safe) {
      forall key ensures KeyKept(db, chain, key) {
      }
    }
    if forall key :: KeyKept(db, chain, key) {
      forall key ensures Keeps(HistoryOf(db.state.history, key), db.state.value, Deltas(chain), key, Floor(key, safe)) {
        assert KeyKept(db, chain, key);
      }
    }
  }

  lemma KeptLatest(db: Tables, chain: Chain, key: VersionKey)
    requires Anchored(db, chain) && KeyKept(db, chain, key)
    ensures LatestValue(db.state, key) == ValueAt(Deltas(chain), key, chain.Height())
  {
    hide Anchored, Keeps, Latest, ValueAt;
    AnchoredHeight(db, chain);
    LatestOfKept(db.state.history, db.state.value, Deltas(chain), key, Floor(key, db.blocks.safeRollbackHeight));
  }

  /** Histories descend and have only heights of the chain. */
  lemma KeptDescends(db: Tables, chain: Chain, key: VersionKey)
    requires KeyKept(db, chain, key)
    ensures Descending(HistoryOf(db.state.history, key))
    ensures forall i :: i in HistoryOf(db.state.history, key) ==> 1 <= i <= chain.Height()
  {
    hide LastChange, Descending;
  }

  // ---- what can be read depends only on the chain ----

  /** Every read of a latest value answers with the chain's value, whatever was appended, pruned and rolled back before. */
  lemma LatestReads(db: Tables, chain: Chain, key: VersionKey)
    requires Stored(db, chain)
    ensures LatestValue(db.state, key) == ValueAt(Deltas(chain), key, chain.Height())
  {
    HeightOfStore(db, chain);
    LatestMatchesChain(db.state.history, db.state.value, Deltas(chain), key, db.blocks.safeRollbackHeight);
  }

  /** So does every read at a height that is not below the floor of the key. */
  lemma PastReads(db: Tables, chain: Chain, key: VersionKey, height: nat)
    requires Stored(db, chain)
    requires Floor(key, db.blocks.safeRollbackHeight) <= height <= chain.Height()
    ensures ReadAt(db.state.history, db.state.value, key, height) == ValueAt(Deltas(chain), key, height)
  {
    ReadsMatchChain(db.state.history, db.state.value, Deltas(chain), key, db.blocks.safeRollbackHeight, height);
  }

  lemma HistoryDescends(db: Tables, chain: Chain, key: VersionKey)
    requires Stored(db, chain)
    ensures Descending(HistoryOf(db.state.history, key))
    ensures forall i :: i in HistoryOf(db.state.history, key) ==> 1 <= i <= chain.Height()
  {
    hide Stored, Anchored, KeyKept, Descending;
    StoredKeys(db, chain);
    KeptDescends(db, chain, key);
  }

  /** Two stores with the same chain answer alike: the same latest values, blocks, transactions, score and address lists. */
  lemma SameChainSameReads(a: Tables, b: Tables, chain: Chain, key: VersionKey, id: nat)
    requires Stored(a, chain) && Stored(b, chain)
    ensures LatestValue(a.state, key) == LatestValue(b.state, key)
    ensures a.blocks.height == b.blocks.height && a.blocks.stored == b.blocks.stored
    ensures ScoreAt(a.blocks, a.blocks.height) == ScoreAt(b.blocks, b.blocks.height)
    ensures SeqNr(a.addressTxs, id) == SeqNr(b.addressTxs, id) && a.addressTxs.hn == b.addressTxs.hn
  {
    hide ValidChain, Replay, StateStored, Indexed, IdsKnown, AddressesStored, ReplayLists, AllListed;
    LatestReads(a, chain, key);
    LatestReads(b, chain, key);
    assert SeqNr(a.addressTxs, id) == Count(chain, id) == SeqNr(b.addressTxs, id);
  }

  // ---- runs ----

  datatype Step = AppendStep(update: Update) | RollbackStep(target: nat)

  ghost predicate Permitted(db: Tables, chain: Chain, step: Step) {
    match step
    case AppendStep(u) => Acceptable(db, u)
    case RollbackStep(target) =>
      && db.blocks.safeRollbackHeight < target <= chain.Height()
      && CoveredAbove(chain, target, db.addresses.addressId)
  }

  ghost function StepTables(db: Tables, chain: Chain, step: Step, maxRollbackDepth: nat): Tables
    requires Permitted(db, chain, step)
  {
    match step
    case AppendStep(u) => After(db, u, maxRollbackDepth)
    case RollbackStep(target) => RolledBack(db, target)
  }

  ghost function StepChain(db: Tables, chain: Chain, step: Step): Chain
    requires Permitted(db, chain, step)
  {
    match step
    case AppendStep(u) => Grown(chain, u, ChangesOf(db.state, u))
    case RollbackStep(target) => chain.Upto(target)
  }

  /** The store and chain a run of permitted steps leads to. */
  ghost predicate Run(db: Tables, chain: Chain, steps: seq<Step>, maxRollbackDepth: nat, last: Tables, lastChain: Chain)
    decreases |steps|
  {
    if steps == [] then last == db && lastChain == chain
    else
      && Permitted(db, chain, steps[0])
      && Run(StepTables(db, chain, steps[0], maxRollbackDepth), StepChain(db, chain, steps[0]), steps[1..], maxRollbackDepth, last, lastChain)
  }

  /** Every run keeps the store faithful to its chain, however appends, pruning and rollbacks follow each other. */
  lemma {:induction false} RunKeepsStore(db: Tables, chain: Chain, steps: seq<Step>, maxRollbackDepth: nat, last: Tables, lastChain: Chain)
    requires Stored(db, chain) && Run(db, chain, steps, maxRollbackDepth, last, lastChain)
    ensures Stored(last, lastChain)
    decreases |steps|
  {
    hide Stored, Acceptable, After, RolledBack, CoveredAbove;
    if steps != [] {
      match steps[0]
      case AppendStep(u) =>
        AppendKeepsStore(db, chain, u, maxRollbackDepth);
        RunKeepsStore(After(db, u, maxRollbackDepth), Grown(chain, u, ChangesOf(db.state, u)), steps[1..], maxRollbackDepth, last, lastChain);
      case RollbackStep(target) =>
        CoveredRollback(db, chain, target);
        RunKeepsStore(RolledBack(db, target), chain.Upto(target), steps[1..], maxRollbackDepth, last, lastChain);
    }
  }

  function EmptyTables(): Tables {
    Tables(Blocks(0, 0, map[], BlockTables(map[], map[], map[], map[])), Addresses(0, map[], map[]),
           State(map[], map[], map[], map[], map[]), AddressTxs(map[], map[]), Indexes(0, map[], map[], map[], map[], map[]))
  }

  lemma EmptyStore()
    ensures Stored(EmptyTables(), Start)
  {
    var s := EmptyTables().state;
    forall asset ensures AssetIndexed(EmptyTables().indexes, s, asset) {
      assert Holders(EmptyTables().indexes, asset) == [];
    }
    forall key ensures Keeps(HistoryOf(s.history, key), s.value, [], key, Floor(key, 0)) {
    }
  }

  /**
   Rollback undoes append over whole runs: wherever a run later returns to a chain, every latest value, the stored blocks
   and the score read as they did when the chain first stood.
   */
  lemma ReturningRunReadsAlike(before: Tables, chain: Chain, steps: seq<Step>, maxRollbackDepth: nat, after: Tables, key: VersionKey)
    requires Stored(before, chain) && Run(before, chain, steps, maxRollbackDepth, after, chain)
    ensures LatestValue(after.state, key) == LatestValue(before.state, key)
    ensures after.blocks.height == before.blocks.height && after.blocks.stored == before.blocks.stored
    ensures ScoreAt(after.blocks, after.blocks.height) == ScoreAt(before.blocks, before.blocks.height)
  {
    RunKeepsStore(before, chain, steps, maxRollbackDepth, after, chain);
    SameChainSameReads(before, after, chain, key, 0);
  }
}
