/** What two nodes must agree on, whatever each of them was fed. */
module Agreement {
  import opened Prelude
  import opened Blocks
  import opened Apply
  import opened ChainSpec
  import opened ChainLedgers
  import opened ChainRuns

  function BlocksIn(entries: set<Entry>): set<Block> {
    set e | e in entries :: e.block
  }

  /** The same hashed content and the same hash. */
  predicate SameBlock(a: Block, b: Block) {
    Hashable(a) == Hashable(b) && a.header.hash == b.header.hash
  }

  /** Such blocks have the same effect. */
  lemma ExtendReadsHashedFields(p: Protocol, ledger: Ledger, a: Block, b: Block)
    requires SameBlock(a, b)
    ensures Extend(p, ledger, a) == Extend(p, ledger, b)
  {
  }

  ghost predicate SameContent(a: seq<Entry>, b: seq<Entry>) {
    && |a| == |b|
    && forall k :: 0 <= k < |a| ==> SameBlock(a[k].block, b[k].block)
  }

  lemma SameContentSnoc(a: seq<Entry>, b: seq<Entry>, x: Entry, y: Entry)
    requires SameContent(a, b)
    requires SameBlock(x.block, y.block)
    ensures SameContent(a + [x], b + [y])
  {
  }

  /** Logs of equal content lead to equal ledgers. */
  lemma {:induction false} SameContentSameLedger(p: Protocol, base: Ledger, a: seq<Entry>, b: seq<Entry>)
    requires SameContent(a, b)
    ensures Replay(p, base, a) == Replay(p, base, b)
    decreases |a|
  {
    hide Extend;
    if a != [] {
      var n := |a| - 1;
      SameContentSameLedger(p, base, a[..n], b[..n]);
      var r := Replay(p, base, a[..n]);
      if r.Some? {
        ExtendReadsHashedFields(p, r.value, a[n].block, b[n].block);
      }
    }
  }

  /** A shared last hash forces the same content all the way down to the base. */
  lemma {:induction false} SameTipSameContent(p: Protocol, base: Ledger, a: seq<Entry>, b: seq<Entry>, all: set<Entry>)
    requires Replay(p, base, a).Some? && Replay(p, base, b).Some?
    requires (forall e :: e in a ==> e in all) && (forall e :: e in b ==> e in all)
    requires CollisionFree(p, BlocksIn(all))
    requires a != [] && b != []
    requires a[|a| - 1].block.header.hash == b[|b| - 1].block.header.hash
    ensures SameContent(a, b)
    decreases |a|
  {
    hide Extend, Replay, CollisionFree, BlocksIn, SameContent;
    LastBlocksAgree(p, base, a, b, all);
    var n := |a| - 1;
    assert a == a[..n] + [a[n]] && b == b[..n] + [b[n]];
    if n > 0 {
      ReplayPrefix(p, base, a, n);
      ReplayPrefix(p, base, b, n);
      SameTipSameContent(p, base, a[..n], b[..n], all);
    } else {
      NothingSameContent();
      assert a[..n] == [] && b[..n] == [];
    }
    SameContentSnoc(a[..n], b[..n], a[n], b[n]);
  }

  lemma NothingSameContent()
    ensures SameContent([], [])
  {
  }

  /** A shared last hash means the same height, the same content, and a shared parent hash. */
  lemma LastBlocksAgree(p: Protocol, base: Ledger, a: seq<Entry>, b: seq<Entry>, all: set<Entry>)
    requires Replay(p, base, a).Some? && Replay(p, base, b).Some?
    requires (forall e :: e in a ==> e in all) && (forall e :: e in b ==> e in all)
    requires CollisionFree(p, BlocksIn(all))
    requires a != [] && b != []
    requires a[|a| - 1].block.header.hash == b[|b| - 1].block.header.hash
    ensures |a| == |b|
    ensures Hashable(a[|a| - 1].block) == Hashable(b[|a| - 1].block)
    ensures |a| > 1 ==> a[|a| - 2].block.header.hash == b[|a| - 2].block.header.hash
  {
    hide Extend, Replay;
    ReplayContiguous(p, base, a);
    ReplayContiguous(p, base, b);
    var x, y := a[|a| - 1], b[|b| - 1];
    assert x in all && y in all;
    assert x.block in BlocksIn(all) && y.block in BlocksIn(all);
    assert Hashable(x.block) == Hashable(y.block);
  }

  /** The log behind one tier: the final blocks, or those plus the head. */
  function TierLog(c: Chain, head: bool): seq<Entry> {
    if head then c.final + c.head else c.final
  }

  function TierLedger(p: Protocol, c: Chain, head: bool): Ledger {
    if head then HeadLedger(p, c) else FinalLedger(p, c)
  }

  lemma TierReplays(p: Protocol, c: Chain, head: bool)
    requires Valid(p, c)
    ensures Replay(p, c.base, TierLog(c, head)) == Some(TierLedger(p, c, head))
  {
    hide Extend;
    if head {
      ReplayConcat(p, c.base, c.final, c.head);
    }
  }

  predicate SameTipHash(a: Option<Tip>, b: Option<Tip>) {
    match (a, b)
    case (None, None) => true
    case (Some(s), Some(t)) => s.hash == t.hash
    case _ => false
  }

  /**
   * Agreement. Two nodes started on the same state, fed any two event streams, hold equal
   * ledgers on any two tiers whose tips carry the same hash, unless the blocks they were
   * delivered contain a hash collision.
   */
  lemma Agreement(p: Protocol, initial: V03State, es: seq<Event>, fs: seq<Event>, tierE: bool, tierF: bool)
    requires CollisionFree(p, BlocksIn(DeliveredAll(es) + DeliveredAll(fs)))
    ensures var c, d := Run(p, New(initial), es), Run(p, New(initial), fs);
            SameTipHash(TierLedger(p, c, tierE).tip, TierLedger(p, d, tierF).tip) ==>
              TierLedger(p, c, tierE) == TierLedger(p, d, tierF)
  {
    hide Extend, Replay, After, Run, CollisionFree;
    var base := Ledger(initial, None);
    var c, d := Run(p, New(initial), es), Run(p, New(initial), fs);
    FreshValid(p, base);
    RunFacts(p, base, es, tierE);
    RunFacts(p, base, fs, tierF);
    var a, b := TierLog(c, tierE), TierLog(d, tierF);
    if SameTipHash(TierLedger(p, c, tierE).tip, TierLedger(p, d, tierF).tip) {
      TipOfLog(p, base, a);
      TipOfLog(p, base, b);
      if a != [] {
        SameTipSameContent(p, base, a, b, DeliveredAll(es) + DeliveredAll(fs));
        SameContentSameLedger(p, base, a, b);
      }
    }
  }

  lemma RunFacts(p: Protocol, base: Ledger, es: seq<Event>, head: bool)
    ensures var c := Run(p, FromFinal(base), es);
            && Replay(p, base, TierLog(c, head)) == Some(TierLedger(p, c, head))
            && forall e :: e in TierLog(c, head) ==> e in DeliveredAll(es)
  {
    hide Extend, Replay, After, Run;
    var c := Run(p, FromFinal(base), es);
    FreshValid(p, base);
    RunValid(p, FromFinal(base), es);
    RunEntries(p, FromFinal(base), es);
    FinalityIsIrreversible(p, FromFinal(base), [], es);
    assert [] + es == es;
    RunNothing(p, FromFinal(base));
    TierReplays(p, c, head);
    forall e | e in TierLog(c, head)
      ensures e in DeliveredAll(es)
    {
      assert e in Entries(c);
    }
  }

  lemma RunNothing(p: Protocol, c: Chain)
    ensures Run(p, c, []) == c
  {
  }

  lemma TipOfLog(p: Protocol, base: Ledger, log: seq<Entry>)
    requires Replay(p, base, log).Some?
    ensures Replay(p, base, log).value.tip ==
            if log == [] then base.tip else Some(TipOf(log[|log| - 1].block))
    ensures log == [] ==> Replay(p, base, log) == Some(base)
  {
  }

  lemma RunBase(p: Protocol, c: Chain, es: seq<Event>)
    ensures Run(p, c, es).base == c.base
  {
    FinalityIsIrreversible(p, c, [], es);
    assert [] + es == es;
  }

  /** One message carries one block: equal messages at one height carry equal hashes. */
  ghost predicate MessagesConsistent(entries: set<Entry>) {
    forall x, y :: x in entries && y in entries && x.thisMsg == y.thisMsg
                   && x.block.header.blockId == y.block.header.blockId ==>
      x.block.header.hash == y.block.header.hash
  }
}
