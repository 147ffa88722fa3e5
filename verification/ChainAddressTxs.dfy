/** The transaction lists of addresses against the chain: one entry for each block that touched the address, oldest first. */
module ChainAddressTxs {
  import opened Common
  import opened Types
  import opened Tables
  import opened Batches
  import opened ChainBlocks
  import Versions

  type Entry = (nat, seq<(nat, nat)>)

  /** The update lists its transactions as the source requires. */
  ghost predicate Listed(u: Update) {
    DistinctIds(u.block.transactions) && ListedInBlock(u)
  }

  /** How many blocks of the chain touched the address. */
  ghost function Count(chain: Chain, id: nat): nat {
    if chain.Start? then 0 else Count(chain.below, id) + if id in chain.update.addressTransactions then 1 else 0
  }

  ghost predicate AllListed(chain: Chain) {
    chain.Grown? ==> Listed(chain.update) && AllListed(chain.below)
  }

  ghost function EntryOf(u: Update, id: nat, height: nat): Entry
    requires Listed(u) && id in u.addressTransactions
  {
    (height, TypeNums(u.block.transactions, u.addressTransactions[id]))
  }

  ghost function EntryPuts(below: Chain, u: Update, height: nat): Writes<(nat, nat), Entry>
    requires Listed(u)
  {
    map p | p in EntryPlaces(below, u) :: Some(EntryOf(u, p.0, height))
  }

  /** The next free place in the list of each address the block touches. */
  ghost function EntryPlaces(below: Chain, u: Update): (r: set<(nat, nat)>)
    ensures forall p :: p in r <==> p.0 in u.addressTransactions && p.1 == Count(below, p.0) + 1
  {
    set id | id in u.addressTransactions :: (id, Count(below, id) + 1)
  }

  /** The lists that the blocks of the chain alone would have built. */
  ghost function ReplayLists(chain: Chain): map<(nat, nat), Entry>
    requires AllListed(chain)
  {
    if chain.Start? then map[] else Commit(ReplayLists(chain.below), EntryPuts(chain.below, chain.update, chain.Height()))
  }

  ghost predicate ListsStored(a: AddressTxs, chain: Chain) {
    && AllListed(chain)
    && (forall id :: SeqNr(a, id) == Count(chain, id))
    && a.hn == ReplayLists(chain)
  }

  lemma EntryPutAt(below: Chain, u: Update, height: nat, id: nat, s: nat)
    requires Listed(u)
    ensures Lookup(EntryPuts(below, u, height), (id, s)) ==
            if id in u.addressTransactions && s == Count(below, id) + 1 then Some(Some(EntryOf(u, id, height))) else None
  {
    hide Count, EntryOf, DistinctIds, ListedInBlock;
  }

  /** The entries of an address are numbered from 1 without gaps, at heights of the chain. */
  lemma {:induction false} EntriesNumbered(chain: Chain, id: nat, s: nat)
    requires AllListed(chain)
    ensures (id, s) in ReplayLists(chain) <==> 1 <= s <= Count(chain, id)
    ensures (id, s) in ReplayLists(chain) ==> 1 <= ReplayLists(chain)[(id, s)].0 <= chain.Height()
  {
    hide EntryPuts, Commit, Listed;
    if chain.Grown? {
      EntriesNumbered(chain.below, id, s);
      EntryPutAt(chain.below, chain.update, chain.Height(), id, s);
      CommitAt(ReplayLists(chain.below), EntryPuts(chain.below, chain.update, chain.Height()), (id, s));
    }
  }

  lemma HNPutAt(a: AddressTxs, u: Update, height: nat, id: nat, s: nat)
    requires Listed(u)
    ensures Lookup(HNPuts(a, u, height), (id, s)) ==
            if id in u.addressTransactions && s == SeqNr(a, id) + 1 then Some(Some(EntryOf(u, id, height))) else None
  {
    hide TypeNums, SeqNr;
  }

  lemma SamePuts(a: AddressTxs, chain: Chain, u: Update)
    requires Listed(u)
    requires forall id :: SeqNr(a, id) == Count(chain, id)
    ensures HNPuts(a, u, chain.Height() + 1) == EntryPuts(chain, u, chain.Height() + 1)
  {
    hide HNPuts, EntryPuts, DistinctIds, ListedInBlock, Count, SeqNr, EntryOf;
    var h := chain.Height() + 1;
    var left, right := HNPuts(a, u, h), EntryPuts(chain, u, h);
    forall p: (nat, nat) ensures Lookup(left, p) == Lookup(right, p) {
      EntryPutAt(chain, u, h, p.0, p.1);
      HNPutAt(a, u, h, p.0, p.1);
      assert SeqNr(a, p.0) == Count(chain, p.0);
    }
    SameTable(left, right);
  }

  lemma AppendKeepsLists(a: AddressTxs, chain: Chain, u: Update, changes: Versions.Changes, after: AddressTxs)
    requires ListsStored(a, chain) && Listed(u)
    requires after == CommitAddressTxs(a, AppendAddressTxBatch(a, u, chain.Height() + 1))
    ensures ListsStored(after, Grown(chain, u, changes))
  {
    hide Commit, EntryPuts, HNPuts, Listed;
    var longer := Grown(chain, u, changes);
    SamePuts(a, chain, u);
    assert ReplayLists(longer) == Commit(ReplayLists(chain), EntryPuts(chain, u, chain.Height() + 1));
    forall id ensures SeqNr(after, id) == Count(longer, id) {
      assert SeqNr(a, id) == Count(chain, id);
    }
  }

  /** An address ends at the top of the chain exactly if the last block touched it. */
  lemma EndsAtTop(a: AddressTxs, chain: Chain, id: nat)
    requires ListsStored(a, chain) && chain.Grown?
    ensures EndsAt(a, id, chain.Height()) <==> id in chain.update.addressTransactions
  {
    hide Commit, EntryPuts, Listed;
    var s := SeqNr(a, id);
    assert s == Count(chain, id);
    EntriesNumbered(chain, id, s);
    EntriesNumbered(chain.below, id, s);
    EntryPutAt(chain.below, chain.update, chain.Height(), id, s);
    CommitAt(ReplayLists(chain.below), EntryPuts(chain.below, chain.update, chain.Height()), (id, s));
  }

  ghost function EntryDeletes(a: AddressTxs, ids: set<nat>, height: nat): Writes<(nat, nat), Entry> {
    RollbackAddressTxBatch(a, ids, height).hn
  }

  lemma EntryDeleteAt(a: AddressTxs, ids: set<nat>, height: nat, id: nat, s: nat)
    ensures Lookup(EntryDeletes(a, ids, height), (id, s)) ==
            if id in ids && EndsAt(a, id, height) && s == SeqNr(a, id) then Some(None) else None
  {
    hide EndsAt, SeqNr;
  }

  lemma RollbackKeepsEntries(a: AddressTxs, chain: Chain, ids: set<nat>)
    requires ListsStored(a, chain) && chain.Grown?
    requires chain.update.addressTransactions.Keys <= ids
    ensures Commit(a.hn, EntryDeletes(a, ids, chain.Height())) == ReplayLists(chain.below)
  {
    hide Commit, EntryPuts, Listed, EntryDeletes, EndsAt;
    var puts, deletes := EntryPuts(chain.below, chain.update, chain.Height()), EntryDeletes(a, ids, chain.Height());
    forall p: (nat, nat) ensures p in puts <==> p in deletes
                         ensures p in puts ==> puts[p].Some? && p !in ReplayLists(chain.below)
                         ensures p in deletes ==> deletes[p].None?
    {
      EndsAtTop(a, chain, p.0);
      assert SeqNr(a, p.0) == Count(chain, p.0);
      EntryPutAt(chain.below, chain.update, chain.Height(), p.0, p.1);
      EntryDeleteAt(a, ids, chain.Height(), p.0, p.1);
      EntriesNumbered(chain.below, p.0, p.1);
    }
    CommitUndone(ReplayLists(chain.below), puts, deletes);
  }

  /** Rolling the last block back restores the lists, provided the addresses it touched are among the recorded ones. */
  lemma RollbackKeepsLists(a: AddressTxs, chain: Chain, ids: set<nat>, after: AddressTxs)
    requires ListsStored(a, chain) && chain.Grown?
    requires chain.update.addressTransactions.Keys <= ids
    requires after == CommitAddressTxs(a, RollbackAddressTxBatch(a, ids, chain.Height()))
    ensures ListsStored(after, chain.below)
  {
    hide Commit, EntryPuts, Listed, ReplayLists;
    RollbackKeepsEntries(a, chain, ids);
    forall id ensures SeqNr(after, id) == Count(chain.below, id) {
      EndsAtTop(a, chain, id);
      assert SeqNr(a, id) == Count(chain, id);
    }
  }
}
