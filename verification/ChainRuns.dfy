/** Whole runs of the chain: any events, in any order, from any starting point. */
module ChainRuns {
  import opened Prelude
  import opened Blocks
  import opened Apply
  import opened ChainSpec
  import opened ChainLedgers

  /**
   * Everything that can happen to a node. A restart is `Reopened` followed by one
   * `RestoredHead` for each persisted head block.
   */
  datatype Event =
    | Adopted(msg: MsgId, block: Block)
    | Produced(msg: MsgId, block: Block)
    | Orphaned(msg: MsgId, block: Block)
    | Update(orphaned: seq<(MsgId, Block)>, adopted: seq<(MsgId, Block)>)
    | Finalized(msg: MsgId, block: Block, l1Slot: nat)
    | RestoredHead(block: Block)
    | Reopened

  function Step(p: Protocol, c: Chain, e: Event): (Chain, seq<AcceptOutcome>) {
    match e
    case Adopted(msg, block) => var r := Adopt(p, c, msg, block); (r.0, [r.1])
    case Produced(msg, block) => var r := Produce(p, c, msg, block); (r.0, [r.1])
    case Orphaned(msg, block) => (Orphan(c, msg, block), [])
    case Update(orphaned, adopted) => ChannelUpdate(p, c, orphaned, adopted)
    case Finalized(msg, block, l1Slot) => var r := Finalize(p, c, msg, block, l1Slot); (r.0, [r.1])
    case RestoredHead(block) =>
      (match Restore(p, c, block) case Ok(d) => (d, [Applied]) case Err(e) => (c, [Parked(e)]))
    case Reopened => (Reopen(c), [])
  }

  function Run(p: Protocol, c: Chain, es: seq<Event>): Chain {
    if es == [] then c else Step(p, Run(p, c, es[..|es| - 1]), es[|es| - 1]).0
  }

  // ---- Every reachable chain replays -------------------------------------------------------

  lemma AdoptValid(p: Protocol, c: Chain, msg: MsgId, block: Block)
    requires Valid(p, c)
    ensures Valid(p, Adopt(p, c, msg, block).0)
    ensures FinalLedger(p, Adopt(p, c, msg, block).0) == FinalLedger(p, c)
  {
    hide Extend, Replay, After;
    if Adopt(p, c, msg, block).1 == Applied {
      PushLedgers(p, c, KeptBelow(c.head, block), Entry(msg, block));
    }
  }

  lemma {:induction false} AdoptAllValid(p: Protocol, c: Chain, adopted: seq<(MsgId, Block)>)
    requires Valid(p, c)
    ensures Valid(p, AdoptAll(p, c, adopted).0)
    ensures FinalLedger(p, AdoptAll(p, c, adopted).0) == FinalLedger(p, c)
    decreases |adopted|
  {
    hide Extend, Replay, After, Adopt;
    if adopted != [] {
      var n := |adopted| - 1;
      AdoptAllValid(p, c, adopted[..n]);
      AdoptValid(p, AdoptAll(p, c, adopted[..n]).0, adopted[n].0, adopted[n].1);
    }
  }

  lemma OrphanValid(p: Protocol, c: Chain, msg: MsgId, block: Block)
    requires Valid(p, c)
    ensures Valid(p, Orphan(c, msg, block))
  {
    hide Extend, Replay, After;
    var i := HeadPosition(c.head, msg, block);
    if i.Some? {
      TruncateLedgers(p, c, i.value);
    }
  }

  lemma UpdateValid(p: Protocol, c: Chain, orphaned: seq<(MsgId, Block)>, adopted: seq<(MsgId, Block)>)
    requires Valid(p, c)
    ensures Valid(p, ChannelUpdate(p, c, orphaned, adopted).0)
  {
    hide Extend, Replay, After, AdoptAll;
    var i := EarliestOrphan(c.head, orphaned);
    if i.Some? {
      TruncateLedgers(p, c, i.value);
    }
    AdoptAllValid(p, OrphanBatch(c, orphaned), adopted);
  }

  lemma FinalizeParentValid(p: Protocol, c: Chain, block: Block)
    requires Valid(p, c)
    ensures Valid(p, FinalizeParent(c, block))
    ensures HeadLedger(p, FinalizeParent(c, block)) == HeadLedger(p, c)
  {
    hide Extend, Replay, After;
    var i := ParentPosition(c.head, block);
    if i.Some? {
      FinalizeLedgers(p, c, i.value);
    }
  }

  lemma FinalizeDirectValid(p: Protocol, c: Chain, msg: MsgId, block: Block, l1Slot: nat)
    requires Valid(p, c)
    ensures Valid(p, FinalizeDirect(p, c, msg, block, l1Slot).0)
  {
    hide Extend, Replay, After;
    if FinalizeDirect(p, c, msg, block, l1Slot).1 == Applied {
      AppendLedgers(p, c, Entry(msg, block));
    }
  }

  lemma FinalizeValid(p: Protocol, c: Chain, msg: MsgId, block: Block, l1Slot: nat)
    requires Valid(p, c)
    ensures Valid(p, Finalize(p, c, msg, block, l1Slot).0)
  {
    hide Extend, Replay, After, FinalizeDirect;
    var i := HeadPosition(c.head, msg, block);
    if i.Some? {
      FinalizeLedgers(p, c, i.value);
    } else {
      FinalizeParentValid(p, c, block);
      FinalizeDirectValid(p, FinalizeParent(c, block), msg, block, l1Slot);
    }
  }

  lemma RestoreValid(p: Protocol, c: Chain, block: Block)
    requires Valid(p, c) && Restore(p, c, block).Ok?
    ensures Valid(p, Restore(p, c, block).value)
  {
    hide Extend, Replay, After;
    assert c.head[..|c.head|] == c.head;
    PushLedgers(p, c, |c.head|, Entry(Sentinel(block), block));
  }

  lemma ReopenValid(p: Protocol, c: Chain)
    requires Valid(p, c)
    ensures Valid(p, Reopen(c)) && FinalLedger(p, Reopen(c)) == HeadLedger(p, Reopen(c)) == FinalLedger(p, c)
  {
    ReplayNothing(p, FinalLedger(p, c));
  }

  lemma StepValid(p: Protocol, c: Chain, e: Event)
    requires Valid(p, c)
    ensures Valid(p, Step(p, c, e).0)
  {
    hide Extend, Replay, After, Adopt, Finalize, ChannelUpdate, Orphan, Restore, Reopen;
    match e
    case Adopted(msg, block) => AdoptValid(p, c, msg, block);
    case Produced(msg, block) => AdoptValid(p, c, msg, block);
    case Orphaned(msg, block) => OrphanValid(p, c, msg, block);
    case Update(orphaned, adopted) => UpdateValid(p, c, orphaned, adopted);
    case Finalized(msg, block, l1Slot) => FinalizeValid(p, c, msg, block, l1Slot);
    case RestoredHead(block) =>
      if Restore(p, c, block).Ok? {
        RestoreValid(p, c, block);
      }
    case Reopened => ReopenValid(p, c);
  }

  /**
   * Whatever happens, the head replays on the final tier and the final tier on the base, with
   * head ids contiguous from the final tip: replaying held blocks can never fail.
   */
  lemma {:induction false} RunValid(p: Protocol, c: Chain, es: seq<Event>)
    requires Valid(p, c)
    ensures var r := Run(p, c, es);
            && Valid(p, r)
            && (forall k :: 0 <= k < |r.head| ==>
                  r.head[k].block.header.blockId == Height(FinalLedger(p, r).tip) + 1 + k)
    decreases |es|
  {
    hide Extend, Replay, After, Step;
    if es != [] {
      RunValid(p, c, es[..|es| - 1]);
      StepValid(p, Run(p, c, es[..|es| - 1]), es[|es| - 1]);
    }
    ChainHeights(p, Run(p, c, es));
  }

  lemma FreshValid(p: Protocol, ledger: Ledger)
    ensures Valid(p, FromFinal(ledger))
  {
  }

  // ---- What adopting and producing do, by height -------------------------------------------

  /** With contiguous ids, an adopted block keeps exactly the head blocks below its height. */
  lemma KeptBelowHeight(p: Protocol, c: Chain, block: Block)
    requires Valid(p, c)
    requires Height(FinalLedger(p, c).tip) < block.header.blockId
    ensures var below := block.header.blockId - Height(FinalLedger(p, c).tip) - 1;
            KeptBelow(c.head, block) == if below <= |c.head| then below else |c.head|
  {
    hide Extend, Replay, After;
    ChainHeights(p, c);
    var above := (e: Entry) => e.block.header.blockId >= block.header.blockId;
    var below := block.header.blockId - Height(FinalLedger(p, c).tip) - 1;
    if below < |c.head| {
      FirstIndexUnique(c.head, above, below);
    }
  }

  /** A block no higher than any head block keeps none of them. */
  lemma KeptBelowBottom(head: seq<Entry>, block: Block)
    requires head != [] ==> block.header.blockId <= head[0].block.header.blockId
    ensures KeptBelow(head, block) == 0
  {
  }

  lemma LedgerHeight(p: Protocol, c: Chain, kept: nat)
    requires Valid(p, c) && kept <= |c.head|
    ensures Height(LedgerAt(p, c, kept).tip) == Height(FinalLedger(p, c).tip) + kept
  {
    hide Extend, Replay, After;
    TruncateLedgers(p, c, kept);
    ChainHeights(p, Truncate(c, kept));
    ChainHeights(p, c);
  }

  /**
   * An adopted block is applied exactly when it lies above the final tip, is not held already,
   * and is valid on the replay of the head below its own height; it then replaces everything
   * from that height on. In every other case the chain is untouched: one that is held or lies
   * at or below the final tip counts as applied already, and any other is parked with the error
   * it meets there, or on the head tip if it lies above that.
   */
  lemma AdoptExact(p: Protocol, c: Chain, msg: MsgId, block: Block)
    requires Valid(p, c)
    ensures var h := Height(FinalLedger(p, c).tip);
            var id := block.header.blockId;
            var r := Adopt(p, c, msg, block);
            && (r.1 == Applied <==>
                  && h < id <= h + |c.head| + 1
                  && (forall e :: e in c.head ==> !Matches(e, msg, block))
                  && Extend(p, LedgerAt(p, c, id - h - 1), block).Ok?)
            && (r.1 == Applied ==> r.0 == c.(head := c.head[..id - h - 1] + [Entry(msg, block)]))
            && (r.1 != Applied ==> r.0 == c)
            && (r.1 == AlreadyApplied <==>
                  || (exists e :: e in c.head && Matches(e, msg, block))
                  || (FinalLedger(p, c).tip.Some? && id <= h))
            && (r.1.Parked? ==>
                  var below := if id <= h then 0 else if id - h - 1 <= |c.head| then id - h - 1 else |c.head|;
                  Extend(p, LedgerAt(p, c, below), block) == Err(r.1.error))
  {
    hide Extend, Replay, After;
    var h := Height(FinalLedger(p, c).tip);
    var id := block.header.blockId;
    var kept := KeptBelow(c.head, block);
    if id <= h {
      ChainHeights(p, c);
      KeptBelowBottom(c.head, block);
    }
    assert HeadPosition(c.head, msg, block).None? <==> forall e :: e in c.head ==> !Matches(e, msg, block);
    LedgerHeight(p, c, kept);
    if Extend(p, LedgerAt(p, c, kept), block).Ok? {
      ExtendLinks(p, LedgerAt(p, c, kept), block);
    }
    if h < id {
      KeptBelowHeight(p, c, block);
    }
  }

  /** A produced block never displaces anything: the chain is unchanged or one longer. */
  lemma ProduceExact(p: Protocol, c: Chain, msg: MsgId, block: Block)
    requires Valid(p, c)
    ensures var r := Produce(p, c, msg, block);
            && (r.1 == Applied <==> Extend(p, HeadLedger(p, c), block).Ok?)
            && (r.1 == Applied ==> r.0 == c.(head := c.head + [Entry(msg, block)]))
            && (r.1 != Applied ==> r.0 == c)
            && (r.1 == AlreadyApplied <==>
                  HeadLedger(p, c).tip.Some? && block.header.blockId <= Height(HeadLedger(p, c).tip))
            && (r.1.Parked? ==> Extend(p, HeadLedger(p, c), block) == Err(r.1.error))
  {
    hide Extend, Replay, After, Adopt;
    AdoptExact(p, c, msg, block);
    HeadTipIsLast(p, c);
    ChainHeights(p, c);
    assert c.head[..|c.head|] == c.head;
    if Extend(p, HeadLedger(p, c), block).Ok? {
      ExtendLinks(p, HeadLedger(p, c), block);
    }
  }

  // ---- Finality ----------------------------------------------------------------------------

  /**
   * How far the parent a finalized block names lets finality advance: past the first head block
   * with that hash, or not at all.
   */
  predicate ParentBoundary(head: seq<Entry>, block: Block, n: nat) {
    if n == 0 then
      forall j :: 0 <= j < |head| ==> head[j].block.header.hash != block.header.prevBlockHash
    else
      && n <= |head| && head[n - 1].block.header.hash == block.header.prevBlockHash
      && forall j :: 0 <= j < n - 1 ==> head[j].block.header.hash != block.header.prevBlockHash
  }

  /**
   * What becomes of a finalized block that is not held, once the first `n` head blocks are final:
   * valid on them, it is appended and the head rebased onto it; else the rest of the head stays,
   * and the block is a re-delivery at or below the final tip, or is parked.
   */
  ghost predicate FinalizedAt(p: Protocol, c: Chain, n: nat, msg: MsgId, block: Block, l1Slot: nat,
                              d: Chain, outcome: AcceptOutcome)
    requires n <= |c.head|
  {
    var ledger, stall := LedgerAt(p, c, n), if n == 0 then c.stall else None;
    match Extend(p, ledger, block)
    case Ok(_) =>
      outcome == Applied && d == c.(final := c.final + c.head[..n] + [Entry(msg, block)], head := [], stall := None)
    case Err(e) =>
      var rest := c.(final := c.final + c.head[..n], head := c.head[n..], stall := stall);
      if ledger.tip.Some? && (block.header.blockId < ledger.tip.value.blockId || ledger.tip.value == TipOf(block))
      then outcome == AlreadyApplied && d == rest
      else outcome == Parked(e) && d == rest.(stall := RecordStall(stall, block, l1Slot, e))
  }

  /**
   * Finalizing, by position. A held block moves the head up to its own height into the final
   * tier. Any other first moves the head up to the parent it names, if that is held, and is then
   * taken on the final tier so reached.
   */
  lemma FinalizeExact(p: Protocol, c: Chain, msg: MsgId, block: Block, l1Slot: nat)
    requires Valid(p, c)
    ensures var (d, outcome) := Finalize(p, c, msg, block, l1Slot);
            if exists e :: e in c.head && Matches(e, msg, block) then
              var i := block.header.blockId - Height(FinalLedger(p, c).tip) - 1;
              && 0 <= i < |c.head| && outcome == Applied
              && d == c.(final := c.final + c.head[..i + 1], head := c.head[i + 1..], stall := None)
            else
              exists n: nat :: n <= |c.head| && ParentBoundary(c.head, block, n)
                          && FinalizedAt(p, c, n, msg, block, l1Slot, d, outcome)
  {
    hide Extend, Replay, After, FinalizeDirect;
    var i := HeadPosition(c.head, msg, block);
    assert i.Some? <==> exists e :: e in c.head && Matches(e, msg, block);
    if i.Some? {
      ChainHeights(p, c);
    } else {
      var parent := ParentPosition(c.head, block);
      var n := if parent.Some? then parent.value + 1 else 0;
      assert ParentBoundary(c.head, block, n);
      DirectAt(p, c, n, msg, block, l1Slot);
    }
  }

  /** The chain whose first `n` head blocks are final. */
  function FinalUpTo(c: Chain, n: nat): Chain
    requires n <= |c.head|
  {
    if n == 0 then c else FinalizeThrough(c, n - 1)
  }

  lemma DirectAt(p: Protocol, c: Chain, n: nat, msg: MsgId, block: Block, l1Slot: nat)
    requires Valid(p, c) && n <= |c.head|
    ensures var (d, outcome) := FinalizeDirect(p, FinalUpTo(c, n), msg, block, l1Slot);
            FinalizedAt(p, c, n, msg, block, l1Slot, d, outcome)
  {
    hide Extend, Replay, After;
    if n > 0 {
      FinalizeLedgers(p, c, n - 1);
    } else {
      ReplayNothing(p, FinalLedger(p, c));
      assert c.head[..0] == [] && c.head[0..] == c.head;
      assert c.final + [] == c.final;
    }
    if Extend(p, LedgerAt(p, c, n), block).Ok? {
      ExtendLinks(p, LedgerAt(p, c, n), block);
    }
  }

  /**
   * So an applied block is at the final tip, and one that is not applied leaves the log, the
   * head tip and the head state as they were.
   */
  lemma FinalizeMoves(p: Protocol, c: Chain, msg: MsgId, block: Block, l1Slot: nat)
    requires Valid(p, c)
    ensures var (d, outcome) := Finalize(p, c, msg, block, l1Slot);
            && (outcome == Applied ==> Height(FinalLedger(p, d).tip) == block.header.blockId)
            && (outcome != Applied ==> d.final + d.head == c.final + c.head && HeadLedger(p, d) == HeadLedger(p, c))
            && ((exists e :: e in c.head && Matches(e, msg, block)) ==>
                  d.final + d.head == c.final + c.head && HeadLedger(p, d) == HeadLedger(p, c))
  {
    hide Extend, Replay, After, FinalizeDirect, FinalizeParent, FinalizeThrough;
    var i := HeadPosition(c.head, msg, block);
    assert i.Some? <==> exists e :: e in c.head && Matches(e, msg, block);
    if i.Some? {
      HeldFinalizes(p, c, i.value);
      ChainHeights(p, c);
    } else {
      FinalizeParentValid(p, c, block);
      ClaimedParent(c, block);
      FinalizeDirectExact(p, FinalizeParent(c, block), msg, block, l1Slot);
      if Finalize(p, c, msg, block, l1Slot).1 != Applied {
        SameBlocksSameLedgers(p, FinalizeParent(c, block), Finalize(p, c, msg, block, l1Slot).0);
      }
    }
  }

  lemma SameBlocksSameLedgers(p: Protocol, c: Chain, d: Chain)
    requires c.base == d.base && c.final == d.final && c.head == d.head
    ensures FinalLedger(p, c) == FinalLedger(p, d) && HeadLedger(p, c) == HeadLedger(p, d)
  {
  }

  lemma HeldFinalizes(p: Protocol, c: Chain, i: nat)
    requires Valid(p, c) && i < |c.head|
    ensures var r := FinalizeThrough(c, i);
            && Height(FinalLedger(p, r).tip) == Height(FinalLedger(p, c).tip) + i + 1
            && r.final + r.head == c.final + c.head
            && HeadLedger(p, r) == HeadLedger(p, c)
  {
    hide Extend, Replay, After;
    FinalizeLedgers(p, c, i);
    LedgerHeight(p, c, i + 1);
    assert c.head == c.head[..i + 1] + c.head[i + 1..];
  }

  lemma ClaimedParent(c: Chain, block: Block)
    ensures FinalizeParent(c, block).final + FinalizeParent(c, block).head == c.final + c.head
  {
    var i := ParentPosition(c.head, block);
    if i.Some? {
      assert c.head == c.head[..i.value + 1] + c.head[i.value + 1..];
    }
  }

  lemma FinalizeDirectExact(p: Protocol, c: Chain, msg: MsgId, block: Block, l1Slot: nat)
    requires Valid(p, c)
    ensures var r := FinalizeDirect(p, c, msg, block, l1Slot);
            && (r.1 == Applied <==> Extend(p, FinalLedger(p, c), block).Ok?)
            && (r.1 == Applied ==>
                  && FinalLedger(p, r.0).tip == Some(TipOf(block))
                  && r.0.final == c.final + [Entry(msg, block)] && r.0.head == [])
            && (r.1 != Applied ==>
                  r.0.base == c.base && r.0.final == c.final && r.0.head == c.head)
  {
    hide Extend, Replay, After;
    if Extend(p, FinalLedger(p, c), block).Ok? {
      AppendLedgers(p, c, Entry(msg, block));
      ExtendLinks(p, FinalLedger(p, c), block);
    }
  }

  /** No step forgets or rewrites a finalized block. */
  lemma StepFinalGrows(p: Protocol, c: Chain, e: Event)
    ensures c.final <= Step(p, c, e).0.final && Step(p, c, e).0.base == c.base
  {
    hide Extend, Replay, After;
    if e.Update? {
      AdoptAllFinal(p, OrphanBatch(c, e.orphaned), e.adopted);
    }
  }

  lemma {:induction false} AdoptAllFinal(p: Protocol, c: Chain, adopted: seq<(MsgId, Block)>)
    ensures var r := AdoptAll(p, c, adopted).0;
            r.final == c.final && r.base == c.base && r.stall == c.stall
    decreases |adopted|
  {
    hide Extend, Replay, After;
    if adopted != [] {
      AdoptAllFinal(p, c, adopted[..|adopted| - 1]);
    }
  }

  /** Over any run the finalized blocks only grow, by appending. */
  lemma {:induction false} FinalityIsIrreversible(p: Protocol, c: Chain, es: seq<Event>, later: seq<Event>)
    ensures Run(p, c, es).final <= Run(p, c, es + later).final
    ensures Run(p, c, es).base == Run(p, c, es + later).base
    decreases |later|
  {
    hide Extend, Replay, After, Step;
    if later == [] {
      assert es + later == es;
    } else {
      var n := |later| - 1;
      FinalityIsIrreversible(p, c, es, later[..n]);
      var all := es + later;
      assert all[..|all| - 1] == es + later[..n];
      StepFinalGrows(p, Run(p, c, es + later[..n]), later[n]);
    }
  }

  // ---- Orphans -----------------------------------------------------------------------------

  /** An orphan cuts the head below its own height if it is held, and does nothing otherwise. */
  lemma OrphanExact(p: Protocol, c: Chain, msg: MsgId, block: Block)
    requires Valid(p, c)
    ensures var h := Height(FinalLedger(p, c).tip);
            if exists e :: e in c.head && Matches(e, msg, block) then
              && h < block.header.blockId <= h + |c.head|
              && Orphan(c, msg, block) == c.(head := c.head[..block.header.blockId - h - 1])
            else Orphan(c, msg, block) == c
  {
    hide Extend, Replay, After;
    ChainHeights(p, c);
    assert HeadPosition(c.head, msg, block).Some? <==> exists e :: e in c.head && Matches(e, msg, block);
  }

  /** Reverting the orphans one after another. */
  function OrphanEach(c: Chain, orphaned: seq<(MsgId, Block)>): Chain {
    if orphaned == [] then c
    else
      var n := |orphaned| - 1;
      Orphan(OrphanEach(c, orphaned[..n]), orphaned[n].0, orphaned[n].1)
  }

  /** One truncation at the earliest orphan is reverting them one by one. */
  lemma {:induction false} OrphanBatchIsEach(c: Chain, orphaned: seq<(MsgId, Block)>)
    ensures OrphanBatch(c, orphaned) == OrphanEach(c, orphaned)
    decreases |orphaned|
  {
    if orphaned != [] {
      var n := |orphaned| - 1;
      var (msg, block) := orphaned[n];
      OrphanBatchIsEach(c, orphaned[..n]);
      var e := EarliestOrphan(c.head, orphaned[..n]);
      var matching := (entry: Entry) => Matches(entry, msg, block);
      if e.Some? {
        FirstIndexPrefix(c.head, matching, e.value);
        if HeadPosition(c.head, msg, block).Some? && HeadPosition(c.head, msg, block).value < e.value {
          var i := HeadPosition(c.head, msg, block).value;
          assert c.head[..e.value][..i] == c.head[..i];
        }
      }
    }
  }

  /** The earliest orphan is the least position any of them matches. */
  lemma {:induction false} EarliestIsLeast(head: seq<Entry>, orphaned: seq<(MsgId, Block)>)
    ensures var e := EarliestOrphan(head, orphaned);
            && (e.Some? ==> exists j :: 0 <= j < |orphaned|
                                        && HeadPosition(head, orphaned[j].0, orphaned[j].1) == e)
            && (forall j :: 0 <= j < |orphaned| ==>
                  var i := HeadPosition(head, orphaned[j].0, orphaned[j].1);
                  i.Some? ==> e.Some? && e.value <= i.value)
    decreases |orphaned|
  {
    if orphaned != [] {
      var n := |orphaned| - 1;
      EarliestIsLeast(head, orphaned[..n]);
    }
  }

  /** Orphans may arrive in any order. */
  lemma OrphanOrderIrrelevant(c: Chain, orphaned: seq<(MsgId, Block)>, reordered: seq<(MsgId, Block)>)
    requires multiset(orphaned) == multiset(reordered)
    ensures OrphanEach(c, orphaned) == OrphanEach(c, reordered) == OrphanBatch(c, orphaned)
  {
    OrphanBatchIsEach(c, orphaned);
    OrphanBatchIsEach(c, reordered);
    EarliestIsLeast(c.head, orphaned);
    EarliestIsLeast(c.head, reordered);
    assert forall o :: o in orphaned <==> o in multiset(orphaned);
    assert forall o :: o in reordered <==> o in multiset(reordered);
    var e, f := EarliestOrphan(c.head, orphaned), EarliestOrphan(c.head, reordered);
    if e.Some? {
      var j :| 0 <= j < |orphaned| && HeadPosition(c.head, orphaned[j].0, orphaned[j].1) == e;
      assert orphaned[j] in reordered;
    }
    if f.Some? {
      var j :| 0 <= j < |reordered| && HeadPosition(c.head, reordered[j].0, reordered[j].1) == f;
      assert reordered[j] in orphaned;
    }
  }

  // ---- Updates and restored blocks ---------------------------------------------------------

  /** One chain before each adoption and one after the last, with the outcome of each. */
  ghost predicate AdoptionTrace(p: Protocol, adopted: seq<(MsgId, Block)>, outcomes: seq<AcceptOutcome>,
                                t: seq<Chain>)
  {
    && |t| == |adopted| + 1 && |outcomes| == |adopted|
    && forall k :: 0 <= k < |adopted| ==> Adopt(p, t[k], adopted[k].0, adopted[k].1) == (t[k + 1], outcomes[k])
  }

  lemma {:induction false} AdoptionsTraced(p: Protocol, c: Chain, adopted: seq<(MsgId, Block)>) returns (t: seq<Chain>)
    ensures AdoptionTrace(p, adopted, AdoptAll(p, c, adopted).1, t)
    ensures t[0] == c && t[|adopted|] == AdoptAll(p, c, adopted).0
    decreases |adopted|
  {
    hide Adopt;
    if adopted == [] {
      return [c];
    }
    var n := |adopted| - 1;
    t := AdoptionsTraced(p, c, adopted[..n]);
    t := t + [AdoptAll(p, c, adopted).0];
  }

  /** An update reverts its orphans one by one, then adopts in order; outcomes align with `adopted`. */
  lemma UpdateExact(p: Protocol, c: Chain, orphaned: seq<(MsgId, Block)>, adopted: seq<(MsgId, Block)>)
    ensures var (d, outcomes) := ChannelUpdate(p, c, orphaned, adopted);
            exists t :: AdoptionTrace(p, adopted, outcomes, t) && t[0] == OrphanEach(c, orphaned) && t[|adopted|] == d
  {
    hide Adopt;
    OrphanBatchIsEach(c, orphaned);
    var t := AdoptionsTraced(p, OrphanBatch(c, orphaned), adopted);
  }

  /** A restored block extends the head under its own hash as message id, or changes nothing. */
  lemma RestoreExact(p: Protocol, c: Chain, block: Block)
    ensures match Extend(p, HeadLedger(p, c), block)
            case Ok(_) =>
              Restore(p, c, block) == Ok(c.(head := c.head + [Entry(MsgId(block.header.hash.bytes), block)]))
            case Err(e) => Restore(p, c, block) == Err(e)
  {
    hide Extend, Replay, After;
    assert c.head[..|c.head|] == c.head;
  }

  // ---- Stall accounting --------------------------------------------------------------------

  datatype ParkedBlock = ParkedBlock(block: Block, l1Slot: nat, error: BlockIngestError)

  /** The finalized blocks parked since the final tip last moved or the node restarted, oldest first. */
  function ParkedSince(p: Protocol, c: Chain, es: seq<Event>): seq<ParkedBlock> {
    if es == [] then []
    else
      var n := |es| - 1;
      var before := Run(p, c, es[..n]);
      var (after, outcomes) := Step(p, before, es[n]);
      var kept := if FinalLedger(p, after).tip == FinalLedger(p, before).tip && !es[n].Reopened?
                  then ParkedSince(p, c, es[..n]) else [];
      if es[n].Finalized? && |outcomes| == 1 && outcomes[0].Parked?
      then kept + [ParkedBlock(es[n].block, es[n].l1Slot, outcomes[0].error)]
      else kept
  }

  /** The stall record a list of parked blocks amounts to. */
  function StallOf(parked: seq<ParkedBlock>): Option<StallReason> {
    if parked == [] then None
    else
      var first, later := parked[0], |parked| - 1;
      var header := first.block.header;
      Some(StallReason(Some(header.blockId), Some(header.hash), Some(header.prevBlockHash), first.l1Slot,
                       first.error, Some(header.timestamp), if later <= U64_MAX then later else U64_MAX))
  }

  /** The final tip moves exactly when the final tier grows. */
  lemma FinalTipMoves(p: Protocol, c: Chain, d: Chain)
    requires Valid(p, c) && Valid(p, d) && c.base == d.base && c.final <= d.final
    ensures FinalLedger(p, c).tip == FinalLedger(p, d).tip <==> c.final == d.final
  {
    hide Extend, Replay, After;
    ChainHeights(p, c);
    ChainHeights(p, d);
    if c.final != d.final {
      assert |c.final| < |d.final|;
    }
  }

  /** A step's effect on the stall: cleared when the tier grows or on reopening, then one record if parked. */
  lemma StepStall(p: Protocol, c: Chain, e: Event)
    requires Valid(p, c)
    ensures var (d, outcomes) := Step(p, c, e);
            var kept := if d.final == c.final && !e.Reopened? then c.stall else None;
            d.stall == if e.Finalized? && |outcomes| == 1 && outcomes[0].Parked?
                       then RecordStall(kept, e.block, e.l1Slot, outcomes[0].error) else kept
  {
    hide Extend, Replay, After, FinalizeDirect, FirstIndex;
    match e
    case Update(orphaned, adopted) =>
      AdoptAllFinal(p, OrphanBatch(c, orphaned), adopted);
    case Finalized(msg, block, l1Slot) =>
      var parent := FinalizeParent(c, block);
      assert parent.final == c.final ==> parent.stall == c.stall;
      FinalizeDirectStall(p, parent, msg, block, l1Slot);
    case _ =>
  }

  lemma FinalizeDirectStall(p: Protocol, c: Chain, msg: MsgId, block: Block, l1Slot: nat)
    ensures var (d, outcome) := FinalizeDirect(p, c, msg, block, l1Slot);
            match outcome
            case Applied => |d.final| > |c.final| && d.stall == None
            case AlreadyApplied => d == c
            case Parked(e) => d.final == c.final && d.stall == RecordStall(c.stall, block, l1Slot, e)
  {
    hide Extend, Replay, After;
  }

  /**
   * At any point of any run the stall record says exactly what was parked since the final tip
   * last moved or the node restarted: nothing, or the first parked block verbatim with a saturating count of the rest.
   */
  lemma {:induction false} StallTellsHistory(p: Protocol, c: Chain, es: seq<Event>)
    requires Valid(p, c) && c.stall == None
    ensures Run(p, c, es).stall == StallOf(ParkedSince(p, c, es))
    decreases |es|
  {
    hide Extend, Replay, After, Step;
    if es != [] {
      var n := |es| - 1;
      var before := Run(p, c, es[..n]);
      var after := Run(p, c, es);
      StallTellsHistory(p, c, es[..n]);
      RunValid(p, c, es[..n]);
      RunValid(p, c, es);
      StepFinalGrows(p, before, es[n]);
      FinalTipMoves(p, before, after);
      StepStall(p, before, es[n]);
    }
  }

  // ---- Provenance --------------------------------------------------------------------------

  /** Every message and block an event can put into the log. */
  function Delivered(e: Event): set<Entry> {
    match e
    case Adopted(msg, block) => {Entry(msg, block)}
    case Produced(msg, block) => {Entry(msg, block)}
    case Orphaned(_, _) => {}
    case Update(_, adopted) => set d | d in adopted :: Entry(d.0, d.1)
    case Finalized(msg, block, _) => {Entry(msg, block)}
    case RestoredHead(block) => {Entry(Sentinel(block), block)}
    case Reopened => {}
  }

  function DeliveredAll(es: seq<Event>): set<Entry> {
    if es == [] then {} else DeliveredAll(es[..|es| - 1]) + Delivered(es[|es| - 1])
  }

  function Entries(c: Chain): set<Entry> {
    (set e | e in c.final) + (set e | e in c.head)
  }

  lemma AdoptEntries(p: Protocol, c: Chain, msg: MsgId, block: Block)
    ensures Entries(Adopt(p, c, msg, block).0) <= Entries(c) + {Entry(msg, block)}
  {
    hide Extend, Replay, After;
  }

  lemma {:induction false} AdoptAllEntries(p: Protocol, c: Chain, adopted: seq<(MsgId, Block)>)
    ensures Entries(AdoptAll(p, c, adopted).0) <= Entries(c) + set d | d in adopted :: Entry(d.0, d.1)
    decreases |adopted|
  {
    hide Adopt, Entries;
    if adopted != [] {
      var n := |adopted| - 1;
      AdoptAllEntries(p, c, adopted[..n]);
      AdoptEntries(p, AdoptAll(p, c, adopted[..n]).0, adopted[n].0, adopted[n].1);
      assert adopted[n] in adopted;
    }
  }

  lemma TruncateEntries(c: Chain, kept: nat)
    requires kept <= |c.head|
    ensures Entries(Truncate(c, kept)) <= Entries(c)
  {
  }

  lemma FinalizeThroughEntries(c: Chain, i: nat)
    requires i < |c.head|
    ensures Entries(FinalizeThrough(c, i)) <= Entries(c)
  {
  }

  lemma FinalizeDirectEntries(p: Protocol, c: Chain, msg: MsgId, block: Block, l1Slot: nat)
    ensures Entries(FinalizeDirect(p, c, msg, block, l1Slot).0) <= Entries(c) + {Entry(msg, block)}
  {
    hide Extend, Replay, After;
  }

  lemma RestoreEntries(p: Protocol, c: Chain, block: Block)
    requires Restore(p, c, block).Ok?
    ensures Entries(Restore(p, c, block).value) <= Entries(c) + {Entry(Sentinel(block), block)}
  {
    hide Extend, Replay, After;
  }

  lemma ReopenEntries(c: Chain)
    ensures Entries(Reopen(c)) <= Entries(c)
  {
  }

  lemma StepEntries(p: Protocol, c: Chain, e: Event)
    ensures Entries(Step(p, c, e).0) <= Entries(c) + Delivered(e)
  {
    hide Adopt, AdoptAll, FinalizeDirect, FinalizeThrough, Truncate, Entries, HeadPosition, ParentPosition,
      Restore, Reopen;
    match e
    case Adopted(msg, block) => AdoptEntries(p, c, msg, block);
    case Produced(msg, block) => AdoptEntries(p, c, msg, block);
    case Orphaned(msg, block) =>
      var i := HeadPosition(c.head, msg, block);
      if i.Some? {
        TruncateEntries(c, i.value);
      }
    case Update(orphaned, adopted) =>
      var i := EarliestOrphan(c.head, orphaned);
      if i.Some? {
        TruncateEntries(c, i.value);
      }
      AdoptAllEntries(p, OrphanBatch(c, orphaned), adopted);
    case Finalized(msg, block, l1Slot) =>
      var i, parent := HeadPosition(c.head, msg, block), ParentPosition(c.head, block);
      if i.Some? {
        FinalizeThroughEntries(c, i.value);
      } else {
        if parent.Some? {
          FinalizeThroughEntries(c, parent.value);
        }
        FinalizeDirectEntries(p, FinalizeParent(c, block), msg, block, l1Slot);
      }
    case RestoredHead(block) =>
      if Restore(p, c, block).Ok? {
        RestoreEntries(p, c, block);
      }
    case Reopened => ReopenEntries(c);
  }

  /** Nothing is ever in the log that was not delivered. */
  lemma {:induction false} RunEntries(p: Protocol, c: Chain, es: seq<Event>)
    ensures Entries(Run(p, c, es)) <= Entries(c) + DeliveredAll(es)
    decreases |es|
  {
    hide Step;
    if es != [] {
      RunEntries(p, c, es[..|es| - 1]);
      StepEntries(p, Run(p, c, es[..|es| - 1]), es[|es| - 1]);
    }
  }
}
