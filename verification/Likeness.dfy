/**
 * When two nodes that look alike can be told apart.
 *
 * Message ids are the only part of a head that no ledger shows. What follows is exactly which
 * events look at them in a way that makes a difference.
 */
module Likeness {
  import opened Prelude
  import opened Blocks
  import opened Apply
  import opened ChainSpec
  import opened ChainLedgers
  import opened ChainRuns
  import opened Agreement

  ghost predicate SameBlocks(a: seq<Entry>, b: seq<Entry>) {
    |a| == |b| && forall i :: 0 <= i < |a| ==> a[i].block == b[i].block
  }

  /** What a node can be told apart by: both ledgers and the held blocks. */
  ghost predicate SameView(p: Protocol, c: Chain, d: Chain) {
    && FinalLedger(p, c) == FinalLedger(p, d)
    && HeadLedger(p, c) == HeadLedger(p, d)
    && SameBlocks(c.head, d.head)
  }

  /** Two chains that look alike. Only the message ids of held blocks and the stall may differ. */
  ghost predicate Alike(p: Protocol, c: Chain, d: Chain) {
    Valid(p, c) && Valid(p, d) && SameView(p, c, d)
  }

  /** Replaying reads blocks, not message ids. */
  lemma {:induction false} ReplayReadsBlocks(p: Protocol, base: Ledger, a: seq<Entry>, b: seq<Entry>)
    requires SameBlocks(a, b)
    ensures Replay(p, base, a) == Replay(p, base, b)
    decreases |a|
  {
    hide Extend;
    if a != [] {
      var n := |a| - 1;
      ReplayReadsBlocks(p, base, a[..n], b[..n]);
    }
  }

  // ---- Which events tell two alike nodes apart ---------------------------------------------

  /** Both hold another block than `block` at its height, and `msg` is its message id in one only. */
  ghost predicate Told(c: Chain, d: Chain, msg: MsgId, block: Block) {
    exists i :: 0 <= i < |c.head| && i < |d.head|
                && c.head[i].block.header.blockId == block.header.blockId
                && c.head[i].block.header.hash != block.header.hash
                && (c.head[i].thisMsg == msg) != (d.head[i].thisMsg == msg)
  }

  ghost predicate AdoptionsTell(p: Protocol, c: Chain, d: Chain, adopted: seq<(MsgId, Block)>) {
    adopted != [] &&
    var n := |adopted| - 1;
    || AdoptionsTell(p, c, d, adopted[..n])
    || Told(AdoptAll(p, c, adopted[..n]).0, AdoptAll(p, d, adopted[..n]).0, adopted[n].0, adopted[n].1)
  }

  /** Produced and restored blocks extend the head and are never looked up, so they tell nothing. */
  ghost predicate Tells(p: Protocol, c: Chain, d: Chain, e: Event) {
    match e
    case Adopted(msg, block) => Told(c, d, msg, block)
    case Orphaned(msg, block) => Told(c, d, msg, block)
    case Finalized(msg, block, _) => Told(c, d, msg, block)
    case Update(orphaned, adopted) =>
      || EarliestOrphan(c.head, orphaned) != EarliestOrphan(d.head, orphaned)
      || AdoptionsTell(p, OrphanBatch(c, orphaned), OrphanBatch(d, orphaned), adopted)
    case _ => false
  }

  /** The position of a block is the same in both heads exactly if its message does not tell. */
  lemma SamePositionIff(p: Protocol, c: Chain, d: Chain, msg: MsgId, block: Block)
    requires Alike(p, c, d)
    ensures HeadPosition(c.head, msg, block) == HeadPosition(d.head, msg, block) <==> !Told(c, d, msg, block)
  {
    hide Extend, Replay, After;
    var matching := (e: Entry) => Matches(e, msg, block);
    if Told(c, d, msg, block) {
      var i :| 0 <= i < |c.head| && i < |d.head|
               && c.head[i].block.header.blockId == block.header.blockId
               && c.head[i].block.header.hash != block.header.hash
               && (c.head[i].thisMsg == msg) != (d.head[i].thisMsg == msg);
      ChainHeights(p, c);
      ChainHeights(p, d);
      if Matches(c.head[i], msg, block) {
        FirstIndexUnique(c.head, matching, i);
      } else {
        FirstIndexUnique(d.head, matching, i);
      }
    } else {
      FirstIndexPointwise(c.head, matching, d.head, matching);
    }
  }

  lemma SameOtherPositions(c: Chain, d: Chain, block: Block)
    requires SameBlocks(c.head, d.head)
    ensures ReorgPosition(c.head, block) == ReorgPosition(d.head, block)
    ensures ParentPosition(c.head, block) == ParentPosition(d.head, block)
    ensures KeptBelow(c.head, block) == KeptBelow(d.head, block)
  {
    var above := (e: Entry) => e.block.header.blockId >= block.header.blockId;
    FirstIndexPointwise(c.head, above, d.head, above);
    var parent := (e: Entry) => e.block.header.hash == block.header.prevBlockHash;
    FirstIndexPointwise(c.head, parent, d.head, parent);
  }

  lemma SameLedgerAt(p: Protocol, c: Chain, d: Chain, k: nat)
    requires SameView(p, c, d) && k <= |c.head|
    ensures LedgerAt(p, c, k) == LedgerAt(p, d, k)
  {
    ReplayReadsBlocks(p, FinalLedger(p, c), c.head[..k], d.head[..k]);
  }

  lemma PushAlike(p: Protocol, c: Chain, d: Chain, kept: nat, entry: Entry)
    requires Alike(p, c, d) && kept <= |c.head|
    requires Extend(p, LedgerAt(p, c, kept), entry.block).Ok?
    ensures Alike(p, Push(c, kept, entry), Push(d, kept, entry))
  {
    hide Extend, Replay, After;
    SameLedgerAt(p, c, d, kept);
    PushLedgers(p, c, kept, entry);
    PushLedgers(p, d, kept, entry);
  }

  lemma TruncateAlike(p: Protocol, c: Chain, d: Chain, k: nat)
    requires Alike(p, c, d) && k <= |c.head|
    ensures Alike(p, Truncate(c, k), Truncate(d, k))
  {
    hide Extend, Replay, After;
    TruncateLedgers(p, c, k);
    TruncateLedgers(p, d, k);
    SameLedgerAt(p, c, d, k);
  }

  /** A held block's message told apart makes one node see a re-delivery where the other does not. */
  lemma AdoptIff(p: Protocol, c: Chain, d: Chain, msg: MsgId, block: Block)
    requires Alike(p, c, d)
    ensures Adopt(p, c, msg, block).1 == Adopt(p, d, msg, block).1 <==> !Told(c, d, msg, block)
    ensures !Told(c, d, msg, block) ==> Alike(p, Adopt(p, c, msg, block).0, Adopt(p, d, msg, block).0)
  {
    hide Extend, Replay, After, Told, FirstIndex;
    SamePositionIff(p, c, d, msg, block);
    SameOtherPositions(c, d, block);
    var kept := KeptBelow(c.head, block);
    SameLedgerAt(p, c, d, kept);
    if Told(c, d, msg, block) {
      ChainHeights(p, c);
      ChainHeights(p, d);
    } else if Adopt(p, c, msg, block).1 == Applied {
      PushAlike(p, c, d, kept, Entry(msg, block));
    }
  }

  lemma OrphanIff(p: Protocol, c: Chain, d: Chain, msg: MsgId, block: Block)
    requires Alike(p, c, d)
    ensures Alike(p, Orphan(c, msg, block), Orphan(d, msg, block)) <==> !Told(c, d, msg, block)
  {
    hide Extend, Replay, After, Told, FirstIndex, Valid, HeadLedger;
    SamePositionIff(p, c, d, msg, block);
    var i := HeadPosition(c.head, msg, block);
    if !Told(c, d, msg, block) && i.Some? {
      TruncateAlike(p, c, d, i.value);
    }
  }

  lemma BatchIff(p: Protocol, c: Chain, d: Chain, orphaned: seq<(MsgId, Block)>)
    requires Alike(p, c, d)
    ensures Alike(p, OrphanBatch(c, orphaned), OrphanBatch(d, orphaned))
            <==> EarliestOrphan(c.head, orphaned) == EarliestOrphan(d.head, orphaned)
  {
    hide Extend, Replay, After, FirstIndex, Valid, HeadLedger;
    var i := EarliestOrphan(c.head, orphaned);
    if i == EarliestOrphan(d.head, orphaned) && i.Some? {
      TruncateAlike(p, c, d, i.value);
    }
  }

  lemma {:induction false} AdoptAllIff(p: Protocol, c: Chain, d: Chain, adopted: seq<(MsgId, Block)>)
    requires Alike(p, c, d)
    ensures AdoptAll(p, c, adopted).1 == AdoptAll(p, d, adopted).1 <==> !AdoptionsTell(p, c, d, adopted)
    ensures !AdoptionsTell(p, c, d, adopted) ==> Alike(p, AdoptAll(p, c, adopted).0, AdoptAll(p, d, adopted).0)
    decreases |adopted|
  {
    hide Extend, Replay, After, Adopt, Told, Alike;
    if adopted != [] {
      var n := |adopted| - 1;
      AdoptAllIff(p, c, d, adopted[..n]);
      AdoptAllLength(p, c, adopted[..n]);
      AdoptAllLength(p, d, adopted[..n]);
      var c', d' := AdoptAll(p, c, adopted[..n]), AdoptAll(p, d, adopted[..n]);
      if !AdoptionsTell(p, c, d, adopted[..n]) {
        AdoptIff(p, c'.0, d'.0, adopted[n].0, adopted[n].1);
      }
      LastOutcome(c'.1, d'.1, Adopt(p, c'.0, adopted[n].0, adopted[n].1).1,
                  Adopt(p, d'.0, adopted[n].0, adopted[n].1).1);
    }
  }

  lemma {:induction false} AdoptAllLength(p: Protocol, c: Chain, adopted: seq<(MsgId, Block)>)
    ensures |AdoptAll(p, c, adopted).1| == |adopted|
    decreases |adopted|
  {
    hide Adopt;
    if adopted != [] {
      AdoptAllLength(p, c, adopted[..|adopted| - 1]);
    }
  }

  lemma LastOutcome<T>(a: seq<T>, b: seq<T>, x: T, y: T)
    requires |a| == |b|
    ensures a + [x] == b + [y] <==> a == b && x == y
  {
    if a + [x] == b + [y] {
      assert (a + [x])[..|a|] == a && (b + [y])[..|b|] == b;
      assert (a + [x])[|a|] == x && (b + [y])[|b|] == y;
    }
  }

  lemma FinalizeThroughAlike(p: Protocol, c: Chain, d: Chain, i: nat)
    requires Alike(p, c, d) && i < |c.head|
    ensures Alike(p, FinalizeThrough(c, i), FinalizeThrough(d, i))
  {
    hide Extend, Replay, After;
    FinalizeLedgers(p, c, i);
    FinalizeLedgers(p, d, i);
    SameLedgerAt(p, c, d, i + 1);
  }

  lemma FinalizeDirectAlike(p: Protocol, c: Chain, d: Chain, msg: MsgId, block: Block, l1Slot: nat)
    requires Alike(p, c, d)
    ensures FinalizeDirect(p, c, msg, block, l1Slot).1 == FinalizeDirect(p, d, msg, block, l1Slot).1
    ensures Alike(p, FinalizeDirect(p, c, msg, block, l1Slot).0, FinalizeDirect(p, d, msg, block, l1Slot).0)
  {
    hide Extend, Replay, After;
    if FinalizeDirect(p, c, msg, block, l1Slot).1 == Applied {
      AppendLedgers(p, c, Entry(msg, block));
      AppendLedgers(p, d, Entry(msg, block));
    }
  }

  /** Finalizing by a message that tells leaves two different final tips, or two outcomes. */
  lemma FinalizeApart(p: Protocol, c: Chain, d: Chain, msg: MsgId, block: Block, l1Slot: nat)
    requires Alike(p, c, d) && Told(c, d, msg, block)
    requires HeadPosition(c.head, msg, block).Some?
    ensures var (c', x) := Finalize(p, c, msg, block, l1Slot);
            var (d', y) := Finalize(p, d, msg, block, l1Slot);
            x != y || FinalLedger(p, c') != FinalLedger(p, d')
  {
    hide Extend, Replay, After, FinalizeDirect, FirstIndex;
    SamePositionIff(p, c, d, msg, block);
    var i := HeadPosition(c.head, msg, block).value;
    ToldHash(p, c, d, msg, block, i);
    HeldTip(p, c, i);
    FinalizeParentValid(p, d, block);
    FinalizeDirectExact(p, FinalizeParent(d, block), msg, block, l1Slot);
  }

  /** A message that tells is found in one head only, on a block of another hash. */
  lemma ToldHash(p: Protocol, c: Chain, d: Chain, msg: MsgId, block: Block, i: nat)
    requires Alike(p, c, d) && Told(c, d, msg, block)
    requires HeadPosition(c.head, msg, block) == Some(i)
    ensures c.head[i].block.header.hash != block.header.hash
    ensures HeadPosition(d.head, msg, block) == None
  {
    hide Extend, Replay, After;
    ChainHeights(p, c);
    ChainHeights(p, d);
  }

  lemma HeldTip(p: Protocol, c: Chain, i: nat)
    requires Valid(p, c) && i < |c.head|
    ensures FinalLedger(p, FinalizeThrough(c, i)).tip == Some(TipOf(c.head[i].block))
  {
    hide Extend, Replay, After;
    FinalizeLedgers(p, c, i);
    LedgerStep(p, c, i);
    ExtendLinks(p, LedgerAt(p, c, i), c.head[i].block);
  }

  lemma FinalizeAlike(p: Protocol, c: Chain, d: Chain, msg: MsgId, block: Block, l1Slot: nat)
    requires Alike(p, c, d) && !Told(c, d, msg, block)
    ensures Finalize(p, c, msg, block, l1Slot).1 == Finalize(p, d, msg, block, l1Slot).1
    ensures Alike(p, Finalize(p, c, msg, block, l1Slot).0, Finalize(p, d, msg, block, l1Slot).0)
  {
    hide Extend, Replay, After, Told, FinalizeDirect, FirstIndex;
    SamePositionIff(p, c, d, msg, block);
    SameOtherPositions(c, d, block);
    var i, parent := HeadPosition(c.head, msg, block), ParentPosition(c.head, block);
    if i.Some? {
      FinalizeThroughAlike(p, c, d, i.value);
    } else {
      if parent.Some? {
        FinalizeThroughAlike(p, c, d, parent.value);
      }
      FinalizeDirectAlike(p, FinalizeParent(c, block), FinalizeParent(d, block), msg, block, l1Slot);
    }
  }

  lemma ToldSymmetric(p: Protocol, c: Chain, d: Chain, msg: MsgId, block: Block)
    requires Alike(p, c, d)
    ensures Told(c, d, msg, block) == Told(d, c, msg, block)
  {
  }

  lemma FinalizeIff(p: Protocol, c: Chain, d: Chain, msg: MsgId, block: Block, l1Slot: nat)
    requires Alike(p, c, d)
    ensures var (c', x) := Finalize(p, c, msg, block, l1Slot);
            var (d', y) := Finalize(p, d, msg, block, l1Slot);
            x == y && Alike(p, c', d') <==> !Told(c, d, msg, block)
  {
    hide Extend, Replay, After, Told, Finalize, FirstIndex;
    if !Told(c, d, msg, block) {
      FinalizeAlike(p, c, d, msg, block, l1Slot);
    } else {
      SamePositionIff(p, c, d, msg, block);
      if HeadPosition(c.head, msg, block).Some? {
        FinalizeApart(p, c, d, msg, block, l1Slot);
      } else {
        ToldSymmetric(p, c, d, msg, block);
        FinalizeApart(p, d, c, msg, block, l1Slot);
      }
    }
  }

  lemma RestoreAlike(p: Protocol, c: Chain, d: Chain, block: Block)
    requires Alike(p, c, d)
    ensures match (Restore(p, c, block), Restore(p, d, block))
            case (Ok(c'), Ok(d')) => Alike(p, c', d')
            case (Err(x), Err(y)) => x == y
            case _ => false
  {
    hide Extend, Replay, After;
    assert c.head[..|c.head|] == c.head && d.head[..|d.head|] == d.head;
    if Restore(p, c, block).Ok? {
      PushAlike(p, c, d, |c.head|, Entry(Sentinel(block), block));
    }
  }

  lemma ReopenAlike(p: Protocol, c: Chain, d: Chain)
    requires Alike(p, c, d)
    ensures Alike(p, Reopen(c), Reopen(d))
  {
    hide Extend, Replay, After;
    ReopenValid(p, c);
    ReopenValid(p, d);
  }

  /** A produced block lies above the whole head, so its message is never looked up. */
  lemma ProduceAlike(p: Protocol, c: Chain, d: Chain, msg: MsgId, block: Block)
    requires Alike(p, c, d)
    ensures Produce(p, c, msg, block).1 == Produce(p, d, msg, block).1
    ensures Alike(p, Produce(p, c, msg, block).0, Produce(p, d, msg, block).0)
  {
    hide Extend, Replay, After, Adopt;
    if !AtOrBelow(HeadLedger(p, c).tip, block) {
      ChainHeights(p, c);
      ChainHeights(p, d);
      assert !Told(c, d, msg, block);
      AdoptIff(p, c, d, msg, block);
    }
  }

  /** The orphans and the adoptions of an update come as two events. */
  predicate Separate(e: Event) {
    e.Update? ==> e.orphaned == [] || e.adopted == []
  }

  /** Alike nodes stay alike and answer alike exactly if the event tells nothing. */
  lemma StepIff(p: Protocol, c: Chain, d: Chain, e: Event)
    requires Alike(p, c, d)
    ensures !Tells(p, c, d, e) ==> Step(p, c, e).1 == Step(p, d, e).1 && Alike(p, Step(p, c, e).0, Step(p, d, e).0)
    ensures Tells(p, c, d, e) && Separate(e) ==>
              Step(p, c, e).1 != Step(p, d, e).1 || !Alike(p, Step(p, c, e).0, Step(p, d, e).0)
  {
    hide Extend, Replay, After, Adopt, Finalize, Told, Orphan, OrphanBatch, Alike, Restore, Reopen, Produce,
      AdoptionsTell;
    match e
    case Adopted(msg, block) => AdoptIff(p, c, d, msg, block);
    case Produced(msg, block) => ProduceAlike(p, c, d, msg, block);
    case Orphaned(msg, block) => OrphanIff(p, c, d, msg, block);
    case Update(orphaned, adopted) =>
      BatchIff(p, c, d, orphaned);
      if EarliestOrphan(c.head, orphaned) == EarliestOrphan(d.head, orphaned) {
        AdoptAllIff(p, OrphanBatch(c, orphaned), OrphanBatch(d, orphaned), adopted);
      }
    case Finalized(msg, block, l1Slot) => FinalizeIff(p, c, d, msg, block, l1Slot);
    case RestoredHead(block) => RestoreAlike(p, c, d, block);
    case Reopened => ReopenAlike(p, c, d);
  }

  // ---- Whole runs --------------------------------------------------------------------------

  /** After the first `k` events both have given the same outcomes and look alike. */
  ghost predicate AlikeAt(p: Protocol, c: Chain, d: Chain, es: seq<Event>, k: nat)
    requires k <= |es|
  {
    && Outcomes(p, c, es[..k]) == Outcomes(p, d, es[..k])
    && Alike(p, Run(p, c, es[..k]), Run(p, d, es[..k]))
  }

  ghost predicate TellsAt(p: Protocol, c: Chain, d: Chain, es: seq<Event>, k: nat)
    requires k < |es|
  {
    Tells(p, Run(p, c, es[..k]), Run(p, d, es[..k]), es[k])
  }

  function Outcomes(p: Protocol, c: Chain, es: seq<Event>): (r: seq<seq<AcceptOutcome>>)
    ensures |r| == |es|
  {
    if es == [] then []
    else
      var n := |es| - 1;
      Outcomes(p, c, es[..n]) + [Step(p, Run(p, c, es[..n]), es[n]).1]
  }

  lemma RunNext(p: Protocol, c: Chain, es: seq<Event>, k: nat)
    requires k < |es|
    ensures Run(p, c, es[..k + 1]) == Step(p, Run(p, c, es[..k]), es[k]).0
    ensures Outcomes(p, c, es[..k + 1]) == Outcomes(p, c, es[..k]) + [Step(p, Run(p, c, es[..k]), es[k]).1]
  {
    hide Step;
    assert es[..k + 1][..k] == es[..k];
  }

  lemma PointIff(p: Protocol, c: Chain, d: Chain, es: seq<Event>, k: nat)
    requires k < |es| && AlikeAt(p, c, d, es, k)
    ensures !TellsAt(p, c, d, es, k) ==> AlikeAt(p, c, d, es, k + 1)
    ensures TellsAt(p, c, d, es, k) && Separate(es[k]) ==> !AlikeAt(p, c, d, es, k + 1)
  {
    hide Step, Alike, Tells, Run, Outcomes;
    var c', d', e := Run(p, c, es[..k]), Run(p, d, es[..k]), es[k];
    RunNext(p, c, es, k);
    RunNext(p, d, es, k);
    StepIff(p, c', d', e);
    LastOutcome(Outcomes(p, c, es[..k]), Outcomes(p, d, es[..k]), Step(p, c', e).1, Step(p, d', e).1);
  }

  lemma {:induction false} UntoldStayAlike(p: Protocol, c: Chain, d: Chain, es: seq<Event>, n: nat)
    requires Alike(p, c, d) && n <= |es|
    requires forall k :: 0 <= k < n ==> !TellsAt(p, c, d, es, k)
    ensures AlikeAt(p, c, d, es, n)
    decreases n
  {
    hide Alike, Step, TellsAt;
    if n > 0 {
      UntoldStayAlike(p, c, d, es, n - 1);
      PointIff(p, c, d, es, n - 1);
    }
  }

  /**
   * Two alike nodes fed the same events are indistinguishable throughout if and only if no
   * event brings, for another block than the one held at its height, the message id that only
   * one of them holds that block under.
   */
  lemma AlikeForeverIff(p: Protocol, c: Chain, d: Chain, es: seq<Event>)
    requires Alike(p, c, d)
    ensures (forall k :: 0 <= k < |es| ==> !TellsAt(p, c, d, es, k)) ==>
              forall k :: 0 <= k <= |es| ==> AlikeAt(p, c, d, es, k)
    ensures (forall k :: 0 <= k <= |es| ==> AlikeAt(p, c, d, es, k)) ==>
              forall k :: 0 <= k < |es| && Separate(es[k]) ==> !TellsAt(p, c, d, es, k)
  {
    hide Alike, AlikeAt, TellsAt;
    if forall k :: 0 <= k < |es| ==> !TellsAt(p, c, d, es, k) {
      forall n | 0 <= n <= |es|
        ensures AlikeAt(p, c, d, es, n)
      {
        UntoldStayAlike(p, c, d, es, n);
      }
    }
    if forall k :: 0 <= k <= |es| ==> AlikeAt(p, c, d, es, k) {
      forall k | 0 <= k < |es| && Separate(es[k])
        ensures !TellsAt(p, c, d, es, k)
      {
        assert AlikeAt(p, c, d, es, k) && AlikeAt(p, c, d, es, k + 1);
        PointIff(p, c, d, es, k);
      }
    }
  }

  /** An update's truncation and its adoptions are two updates. */
  lemma UpdateSeparates(p: Protocol, c: Chain, orphaned: seq<(MsgId, Block)>, adopted: seq<(MsgId, Block)>)
    ensures Step(p, c, Update(orphaned, adopted))
            == Step(p, Step(p, c, Update(orphaned, [])).0, Update([], adopted))
    ensures Step(p, c, Update(orphaned, [])).1 == []
  {
  }

  /** The events with every update split in two. */
  function Separated(es: seq<Event>): (r: seq<Event>)
    ensures forall e :: e in r ==> Separate(e)
  {
    if es == [] then []
    else
      var n := |es| - 1;
      Separated(es[..n]) +
      match es[n]
      case Update(orphaned, adopted) => [Update(orphaned, []), Update([], adopted)]
      case e => [e]
  }

  /** Splitting the updates changes nothing but where one can look. */
  lemma {:induction false} SeparatedRuns(p: Protocol, c: Chain, es: seq<Event>)
    ensures Run(p, c, Separated(es)) == Run(p, c, es)
    decreases |es|
  {
    hide Step;
    if es != [] {
      var n := |es| - 1;
      var before, all := Separated(es[..n]), Separated(es);
      SeparatedRuns(p, c, es[..n]);
      if es[n].Update? {
        var o, a := es[n].orphaned, es[n].adopted;
        UpdateSeparates(p, Run(p, c, es[..n]), o, a);
        var cut := before + [Update(o, [])];
        assert cut[..|cut| - 1] == before;
        assert all[..|all| - 1] == cut;
      } else {
        assert all[..|all| - 1] == before;
      }
    }
  }

  // ---- When nothing tells ------------------------------------------------------------------

  /** Every message an event mentions with the block it carries, orphans included. */
  function Mentioned(e: Event): set<Entry> {
    Delivered(e) +
    match e
    case Orphaned(msg, block) => {Entry(msg, block)}
    case Update(orphaned, _) => set o | o in orphaned :: Entry(o.0, o.1)
    case _ => {}
  }

  function MentionedAll(es: seq<Event>): set<Entry> {
    if es == [] then {} else MentionedAll(es[..|es| - 1]) + Mentioned(es[|es| - 1])
  }

  /** With consistent messages, nothing can be told. */
  lemma ConsistentNotTold(c: Chain, d: Chain, msg: MsgId, block: Block, all: set<Entry>)
    requires SameBlocks(c.head, d.head)
    requires Entries(c) <= all && Entries(d) <= all && Entry(msg, block) in all
    requires MessagesConsistent(all)
    ensures !Told(c, d, msg, block)
  {
    forall i | 0 <= i < |c.head| && i < |d.head|
      ensures c.head[i] in all && d.head[i] in all
    {
      assert c.head[i] in Entries(c) && d.head[i] in Entries(d);
    }
    assert Entry(msg, block) in all;
  }

  lemma {:induction false} ConsistentAdoptions(p: Protocol, c: Chain, d: Chain, adopted: seq<(MsgId, Block)>,
                                               all: set<Entry>)
    requires Alike(p, c, d) && Entries(c) <= all && Entries(d) <= all && MessagesConsistent(all)
    requires forall a :: a in adopted ==> Entry(a.0, a.1) in all
    ensures !AdoptionsTell(p, c, d, adopted)
    decreases |adopted|
  {
    hide Extend, Replay, After, Adopt, AdoptAll, MessagesConsistent, Told, Entries, HeadLedger, FinalLedger;
    if adopted != [] {
      var n := |adopted| - 1;
      ConsistentAdoptions(p, c, d, adopted[..n], all);
      AdoptAllIff(p, c, d, adopted[..n]);
      AdoptAllEntries(p, c, adopted[..n]);
      AdoptAllEntries(p, d, adopted[..n]);
      assert adopted[n] in adopted;
      ConsistentNotTold(AdoptAll(p, c, adopted[..n]).0, AdoptAll(p, d, adopted[..n]).0,
                        adopted[n].0, adopted[n].1, all);
    }
  }

  lemma {:induction false} ConsistentOrphans(p: Protocol, c: Chain, d: Chain, orphaned: seq<(MsgId, Block)>,
                                             all: set<Entry>)
    requires Alike(p, c, d) && Entries(c) <= all && Entries(d) <= all && MessagesConsistent(all)
    requires forall o :: o in orphaned ==> Entry(o.0, o.1) in all
    ensures EarliestOrphan(c.head, orphaned) == EarliestOrphan(d.head, orphaned)
    decreases |orphaned|
  {
    hide MessagesConsistent, Told, Entries, HeadLedger, FinalLedger, HeadPosition;
    if orphaned != [] {
      var n := |orphaned| - 1;
      ConsistentOrphans(p, c, d, orphaned[..n], all);
      assert orphaned[n] in orphaned;
      ConsistentNotTold(c, d, orphaned[n].0, orphaned[n].1, all);
      SamePositionIff(p, c, d, orphaned[n].0, orphaned[n].1);
    }
  }

  lemma BatchEntries(c: Chain, orphaned: seq<(MsgId, Block)>)
    ensures Entries(OrphanBatch(c, orphaned)) <= Entries(c)
  {
  }

  lemma ConsistentEvent(p: Protocol, c: Chain, d: Chain, e: Event, all: set<Entry>)
    requires Alike(p, c, d) && Entries(c) <= all && Entries(d) <= all
    requires MessagesConsistent(all) && Mentioned(e) <= all
    ensures !Tells(p, c, d, e)
  {
    hide MessagesConsistent, Told, Entries, AdoptionsTell, OrphanBatch, HeadLedger, FinalLedger;
    match e
    case Adopted(msg, block) => ConsistentNotTold(c, d, msg, block, all);
    case Orphaned(msg, block) => ConsistentNotTold(c, d, msg, block, all);
    case Finalized(msg, block, _) => ConsistentNotTold(c, d, msg, block, all);
    case Update(orphaned, adopted) =>
      assert forall o :: o in orphaned ==> Entry(o.0, o.1) in Mentioned(e);
      assert forall a :: a in adopted ==> Entry(a.0, a.1) in Mentioned(e);
      ConsistentOrphans(p, c, d, orphaned, all);
      BatchIff(p, c, d, orphaned);
      BatchEntries(c, orphaned);
      BatchEntries(d, orphaned);
      ConsistentAdoptions(p, OrphanBatch(c, orphaned), OrphanBatch(d, orphaned), adopted, all);
    case _ =>
  }

  lemma {:induction false} ConsistentRun(p: Protocol, c: Chain, d: Chain, es: seq<Event>, n: nat)
    requires Alike(p, c, d) && n <= |es|
    requires MessagesConsistent(Entries(c) + Entries(d) + MentionedAll(es))
    ensures forall k :: 0 <= k < n ==> !TellsAt(p, c, d, es, k)
    decreases n
  {
    hide Alike, MessagesConsistent, Tells, Entries, Run;
    if n > 0 {
      var k := n - 1;
      ConsistentRun(p, c, d, es, k);
      UntoldStayAlike(p, c, d, es, k);
      RunEntries(p, c, es[..k]);
      RunEntries(p, d, es[..k]);
      MentionedPrefix(es, k);
      ConsistentEvent(p, Run(p, c, es[..k]), Run(p, d, es[..k]), es[k], Entries(c) + Entries(d) + MentionedAll(es));
    }
  }

  lemma {:induction false} MentionedPrefix(es: seq<Event>, k: nat)
    requires k < |es|
    ensures DeliveredAll(es[..k]) <= MentionedAll(es) && Mentioned(es[k]) <= MentionedAll(es)
    decreases |es|
  {
    var n := |es| - 1;
    if k < n {
      MentionedPrefix(es[..n], k);
      assert es[..n][..k] == es[..k];
    } else {
      DeliveredAreMentioned(es[..n]);
    }
  }

  lemma {:induction false} DeliveredAreMentioned(es: seq<Event>)
    ensures DeliveredAll(es) <= MentionedAll(es)
    decreases |es|
  {
    if es != [] {
      DeliveredAreMentioned(es[..|es| - 1]);
    }
  }
}
