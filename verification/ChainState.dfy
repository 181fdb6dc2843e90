/**
 * The running form of the chain: both tiers' states are cached, updated in place, and kept
 * equal to what the model gets by replaying. Wherever the system relies on a block applying
 * ("validated head blocks must replay"), the failing branch is shown unreachable.
 */
module ChainStates {
  import opened Prelude
  import opened Blocks
  import opened Apply
  import opened ChainSpec
  import opened ChainLedgers

  class ChainState {
    const p: Protocol

    var finalState: V03State
    var finalTip: Option<Tip>
    var finalStall: Option<StallReason>
    var headState: V03State
    var headBlocks: seq<Entry>

    ghost var base: Ledger
    ghost var final: seq<Entry>

    ghost function Model(): Chain
      reads this
    {
      Chain(base, final, headBlocks, finalStall)
    }

    /** The final tier's cache is what replaying gives. */
    ghost predicate FinalCached()
      reads this
    {
      ChainSpec.Valid(p, Model()) && Ledger(finalState, finalTip) == FinalLedger(p, Model())
    }

    /** Both caches are exactly what replaying gives. */
    ghost predicate Cached()
      reads this
    {
      FinalCached() && headState == HeadLedger(p, Model()).state
    }

    constructor FromFinal(p: Protocol, finalState: V03State, finalTip: Option<Tip>)
      ensures this.p == p && Cached()
      ensures Model() == ChainSpec.FromFinal(Ledger(finalState, finalTip))
    {
      this.p := p;
      this.headState := finalState;
      this.finalState := finalState;
      this.finalTip := finalTip;
      this.headBlocks := [];
      this.finalStall := None;
      base, final := Ledger(finalState, finalTip), [];
    }

    constructor New(p: Protocol, initialState: V03State)
      ensures this.p == p && Cached()
      ensures Model() == ChainSpec.New(initialState)
    {
      this.p := p;
      this.headState := initialState;
      this.finalState := initialState;
      this.finalTip := None;
      this.headBlocks := [];
      this.finalStall := None;
      base, final := Ledger(initialState, None), [];
    }

    function HeadTip(): (tip: Option<Tip>)
      requires Cached()
      reads this
      ensures tip == HeadLedger(p, Model()).tip
    {
      HeadTipIsLast(p, Model());
      if headBlocks != [] then Some(TipOf(headBlocks[|headBlocks| - 1].block)) else finalTip
    }

    /** State and tip after the first `count` head blocks, replayed on the final tier. */
    method ReplayHeadPrefix(count: nat) returns (state: V03State, tip: Option<Tip>)
      requires FinalCached() && count <= |headBlocks|
      ensures Ledger(state, tip) == LedgerAt(p, Model(), count)
    {
      hide Extend;
      state, tip := finalState, finalTip;
      for i := 0 to count
        invariant Ledger(state, tip) == LedgerAt(p, Model(), i)
      {
        LedgerStep(p, Model(), i);
        var failure, next := ApplyBlockInPlace(p, tip, headBlocks[i].block, state);
        assert failure == None;
        state, tip := next, Some(TipOf(headBlocks[i].block));
      }
    }

    method ApplyAdopted(msg: MsgId, block: Block) returns (outcome: AcceptOutcome)
      requires Cached()
      modifies this`headState, this`headBlocks
      ensures Cached()
      ensures (Model(), outcome) == Adopt(p, old(Model()), msg, block)
    {
      hide Extend, Replay, After, FirstIndex;
      if HeadPosition(headBlocks, msg, block).Some? {
        return AlreadyApplied;
      }
      if finalTip.Some? && block.header.blockId <= finalTip.value.blockId {
        return AlreadyApplied;
      }
      var reorgAt := ReorgPosition(headBlocks, block);
      var scratch, tip := headState, HeadTip();
      if reorgAt.Some? {
        scratch, tip := ReplayHeadPrefix(reorgAt.value);
      }
      ghost var kept := KeptBelow(headBlocks, block);
      assert headBlocks[..|headBlocks|] == headBlocks;
      assert Ledger(scratch, tip) == LedgerAt(p, Model(), kept);
      var failure, next := ApplyBlockInPlace(p, tip, block, scratch);
      if failure.Some? {
        return Parked(failure.value);
      }
      PushLedgers(p, Model(), kept, Entry(msg, block));
      if reorgAt.Some? {
        headBlocks := headBlocks[..reorgAt.value];
      }
      headState := next;
      headBlocks := headBlocks + [Entry(msg, block)];
      return Applied;
    }

    method ApplyProduced(msg: MsgId, block: Block) returns (outcome: AcceptOutcome)
      requires Cached()
      modifies this`headState, this`headBlocks
      ensures Cached()
      ensures (Model(), outcome) == Produce(p, old(Model()), msg, block)
    {
      hide Extend, Replay, After, Adopt;
      var tip := HeadTip();
      if tip.Some? && block.header.blockId <= tip.value.blockId {
        return AlreadyApplied;
      }
      outcome := ApplyAdopted(msg, block);
    }

    /** Rebuilds the head state from the final tier plus the current head blocks. */
    method RederiveHead()
      requires FinalCached()
      modifies this`headState
      ensures Cached()
    {
      hide Extend, Replay, After;
      var state, _ := ReplayHeadPrefix(|headBlocks|);
      assert headBlocks[..|headBlocks|] == headBlocks;
      headState := state;
    }

    /** Cuts the head before position `i` and re-derives the head state. */
    method TruncateHead(i: nat)
      requires Cached() && i <= |headBlocks|
      modifies this`headState, this`headBlocks
      ensures Cached()
      ensures Model() == Truncate(old(Model()), i)
    {
      hide Extend, Replay, After;
      TruncateLedgers(p, Model(), i);
      headBlocks := headBlocks[..i];
      RederiveHead();
    }

    method RevertOrphan(msg: MsgId, block: Block)
      requires Cached()
      modifies this`headState, this`headBlocks
      ensures Cached()
      ensures Model() == Orphan(old(Model()), msg, block)
    {
      var position := HeadPosition(headBlocks, msg, block);
      if position.Some? {
        TruncateHead(position.value);
      }
    }

    /** The earliest head position an orphan of the batch occupies. */
    method FindEarliest(orphaned: seq<(MsgId, Block)>) returns (earliest: Option<nat>)
      ensures earliest == EarliestOrphan(headBlocks, orphaned)
    {
      earliest := None;
      for i := 0 to |orphaned|
        invariant earliest == EarliestOrphan(headBlocks, orphaned[..i])
      {
        assert orphaned[..i + 1][..i] == orphaned[..i];
        var position := HeadPosition(headBlocks, orphaned[i].0, orphaned[i].1);
        if position.Some? && (earliest.None? || position.value < earliest.value) {
          earliest := position;
        }
      }
      assert orphaned[..|orphaned|] == orphaned;
    }

    method ApplyChannelUpdate(orphaned: seq<(MsgId, Block)>, adopted: seq<(MsgId, Block)>)
      returns (outcomes: seq<AcceptOutcome>)
      requires Cached()
      modifies this`headState, this`headBlocks
      ensures Cached()
      ensures (Model(), outcomes) == ChannelUpdate(p, old(Model()), orphaned, adopted)
    {
      hide Extend, Replay, After, Adopt, EarliestOrphan;
      var earliest := FindEarliest(orphaned);
      if earliest.Some? {
        TruncateHead(earliest.value);
      }
      ghost var reverted := Model();
      outcomes := [];
      for i := 0 to |adopted|
        invariant Cached()
        invariant (Model(), outcomes) == AdoptAll(p, reverted, adopted[..i])
      {
        assert adopted[..i + 1][..i] == adopted[..i];
        var outcome := ApplyAdopted(adopted[i].0, adopted[i].1);
        outcomes := outcomes + [outcome];
      }
      assert adopted[..|adopted|] == adopted;
    }

    /** Applies a persisted block in place; on failure the head state is left half-applied. */
    method RestoreHeadBlock(block: Block) returns (failure: Option<BlockIngestError>)
      requires Cached()
      modifies this`headState, this`headBlocks
      ensures match Restore(p, old(Model()), block)
              case Ok(c) => failure == None && Cached() && Model() == c
              case Err(e) => failure == Some(e) && FinalCached() && Model() == old(Model())
    {
      hide Extend, Replay, After;
      var next;
      failure, next := ApplyBlockInPlace(p, HeadTip(), block, headState);
      headState := next;
      if failure.Some? {
        return;
      }
      assert headBlocks[..|headBlocks|] == headBlocks;
      PushLedgers(p, Model(), |headBlocks|, Entry(Sentinel(block), block));
      headBlocks := headBlocks + [Entry(Sentinel(block), block)];
    }

    /** Moves head blocks `0..=i` into the final tier, re-applying each of them there. */
    method FinalizeThroughHead(i: nat)
      requires Cached() && i < |headBlocks|
      modifies this
      ensures Cached()
      ensures Model() == FinalizeThrough(old(Model()), i)
    {
      hide Extend, Replay, After;
      ghost var before := Model();
      FinalizeLedgers(p, before, i);
      var drained := headBlocks[..i + 1];
      headBlocks := headBlocks[i + 1..];
      assert before.head[..0] == [];
      ReplayNothing(p, FinalLedger(p, before));
      for j := 0 to |drained|
        invariant Model() == before.(head := before.head[i + 1..]) && headState == old(headState)
        invariant Ledger(finalState, finalTip) == LedgerAt(p, before, j)
      {
        LedgerStep(p, before, j);
        var failure, next := ApplyBlockInPlace(p, finalTip, drained[j].block, finalState);
        assert failure == None;
        finalState, finalTip := next, Some(TipOf(drained[j].block));
      }
      finalStall := None;
      final := final + drained;
    }

    method ApplyFinalized(msg: MsgId, block: Block, l1Slot: nat) returns (outcome: AcceptOutcome)
      requires Cached()
      modifies this
      ensures Cached()
      ensures (Model(), outcome) == Finalize(p, old(Model()), msg, block, l1Slot)
    {
      hide Extend, Replay, After, FinalizeDirect;
      var position := HeadPosition(headBlocks, msg, block);
      if position.Some? {
        FinalizeThroughHead(position.value);
        return Applied;
      }
      var parent := ParentPosition(headBlocks, block);
      if parent.Some? {
        FinalizeThroughHead(parent.value);
      }
      outcome := ApplyFinalizedDirect(msg, block, l1Slot);
    }

    method ApplyFinalizedDirect(ghost msg: MsgId, block: Block, l1Slot: nat) returns (outcome: AcceptOutcome)
      requires Cached()
      modifies this
      ensures Cached()
      ensures (Model(), outcome) == FinalizeDirect(p, old(Model()), msg, block, l1Slot)
    {
      hide Extend, Replay, After;
      if finalTip.Some?
         && (block.header.blockId < finalTip.value.blockId
             || (block.header.blockId == finalTip.value.blockId && block.header.hash == finalTip.value.hash))
      {
        return AlreadyApplied;
      }
      var failure, next := ApplyBlockInPlace(p, finalTip, block, finalState);
      if failure.None? {
        AppendLedgers(p, Model(), Entry(msg, block));
        finalState := next;
        finalTip := Some(TipOf(block));
        finalStall := None;
        headBlocks := [];
        headState := finalState;
        final := final + [Entry(msg, block)];
        return Applied;
      }
      finalStall := RecordStall(finalStall, block, l1Slot, failure.value);
      return Parked(failure.value);
    }
  }
}
