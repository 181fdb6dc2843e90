/** What each elementary move of the chain does to the ledgers of the two tiers. */
module ChainLedgers {
  import opened Prelude
  import opened Blocks
  import opened Apply
  import opened ChainSpec

  /** Each head block applies on the ledger below it. */
  lemma LedgerStep(p: Protocol, c: Chain, k: nat)
    requires Valid(p, c) && k < |c.head|
    ensures Extend(p, LedgerAt(p, c, k), c.head[k].block) == Ok(LedgerAt(p, c, k + 1))
  {
    hide Extend;
    var upTo := c.head[..k + 1];
    ReplayPrefix(p, FinalLedger(p, c), c.head, k + 1);
    assert upTo == c.head[..k] + [c.head[k]];
    ReplaySnoc(p, FinalLedger(p, c), c.head[..k], c.head[k]);
  }

  lemma ReplayNothing(p: Protocol, base: Ledger)
    ensures Replay(p, base, []) == Some(base) && After(p, base, []) == base
  {
  }

  lemma TruncateLedgers(p: Protocol, c: Chain, kept: nat)
    requires Valid(p, c) && kept <= |c.head|
    ensures Valid(p, Truncate(c, kept))
    ensures FinalLedger(p, Truncate(c, kept)) == FinalLedger(p, c)
    ensures HeadLedger(p, Truncate(c, kept)) == LedgerAt(p, c, kept)
  {
    hide Extend;
    ReplayPrefix(p, FinalLedger(p, c), c.head, kept);
  }

  lemma PushLedgers(p: Protocol, c: Chain, kept: nat, entry: Entry)
    requires Valid(p, c) && kept <= |c.head|
    requires Extend(p, LedgerAt(p, c, kept), entry.block).Ok?
    ensures Valid(p, Push(c, kept, entry))
    ensures FinalLedger(p, Push(c, kept, entry)) == FinalLedger(p, c)
    ensures HeadLedger(p, Push(c, kept, entry)) == Extend(p, LedgerAt(p, c, kept), entry.block).value
  {
    hide Extend;
    ReplayPrefix(p, FinalLedger(p, c), c.head, kept);
    ReplaySnoc(p, FinalLedger(p, c), c.head[..kept], entry);
  }

  /** Finalizing a head prefix moves the boundary and leaves the head ledger alone. */
  lemma FinalizeLedgers(p: Protocol, c: Chain, i: nat)
    requires Valid(p, c) && i < |c.head|
    ensures Valid(p, FinalizeThrough(c, i))
    ensures FinalLedger(p, FinalizeThrough(c, i)) == LedgerAt(p, c, i + 1)
    ensures HeadLedger(p, FinalizeThrough(c, i)) == HeadLedger(p, c)
  {
    hide Extend;
    var moved, rest := c.head[..i + 1], c.head[i + 1..];
    ReplayPrefix(p, FinalLedger(p, c), c.head, i + 1);
    ReplayConcat(p, c.base, c.final, moved);
    assert moved + rest == c.head;
    ReplayConcat(p, FinalLedger(p, c), moved, rest);
  }

  lemma AppendLedgers(p: Protocol, c: Chain, entry: Entry)
    requires Valid(p, c)
    requires Extend(p, FinalLedger(p, c), entry.block).Ok?
    ensures var r := c.(final := c.final + [entry], head := [], stall := None);
            && Valid(p, r)
            && FinalLedger(p, r) == HeadLedger(p, r) == Extend(p, FinalLedger(p, c), entry.block).value
  {
    hide Extend;
    ReplaySnoc(p, c.base, c.final, entry);
  }

  /** Tips: the last head block, or the final tip when the head is empty. */
  lemma HeadTipIsLast(p: Protocol, c: Chain)
    requires Valid(p, c)
    ensures HeadLedger(p, c).tip ==
            if c.head != [] then Some(TipOf(c.head[|c.head| - 1].block)) else FinalLedger(p, c).tip
  {
  }

  /** Heights are consecutive, and a tip's id counts the blocks applied since the base. */
  lemma ChainHeights(p: Protocol, c: Chain)
    requires Valid(p, c)
    ensures Height(FinalLedger(p, c).tip) == Height(c.base.tip) + |c.final|
    ensures Height(HeadLedger(p, c).tip) == Height(c.base.tip) + |c.final| + |c.head|
    ensures forall k :: 0 <= k < |c.head| ==>
              c.head[k].block.header.blockId == Height(FinalLedger(p, c).tip) + 1 + k
  {
    hide Extend;
    ReplayContiguous(p, c.base, c.final);
    ReplayContiguous(p, FinalLedger(p, c), c.head);
  }
}
