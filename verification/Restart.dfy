/** Restarting from the persisted final ledger and head blocks is invisible afterwards. */
module Restart {
  import opened Prelude
  import opened Blocks
  import opened Apply
  import opened ChainSpec
  import opened ChainLedgers
  import opened ChainRuns
  import opened Agreement
  import opened Likeness

  /** Restores `blocks` one by one on top of `c`. */
  function RestoreAll(p: Protocol, c: Chain, blocks: seq<Block>): Result<Chain, BlockIngestError> {
    if blocks == [] then Ok(c)
    else
      var n := |blocks| - 1;
      match RestoreAll(p, c, blocks[..n])
      case Err(e) => Err(e)
      case Ok(d) => Restore(p, d, blocks[n])
  }

  function BlocksOf(log: seq<Entry>): (r: seq<Block>)
    ensures |r| == |log| && forall i :: 0 <= i < |r| ==> r[i] == log[i].block
  {
    seq(|log|, i requires 0 <= i < |log| => log[i].block)
  }

  /** What a restart starts from: the final ledger of `c`, and nothing in head. */
  ghost predicate StartsFrom(p: Protocol, c: Chain, start: Chain) {
    Valid(p, start) && start.head == [] && FinalLedger(p, start) == FinalLedger(p, c)
  }

  /** Head entries as a restart rebuilds them, under sentinel ids. */
  function Resealed(head: seq<Entry>): (r: seq<Entry>)
    ensures |r| == |head|
    ensures forall i :: 0 <= i < |r| ==> r[i] == Entry(Sentinel(head[i].block), head[i].block)
  {
    seq(|head|, i requires 0 <= i < |head| => Entry(Sentinel(head[i].block), head[i].block))
  }

  /** `start` with the head blocks of `c` restored. */
  function Restored(c: Chain, start: Chain): Chain {
    start.(head := Resealed(c.head))
  }

  /** A restart never fails and loses nothing but the message ids and the stall record. */
  lemma {:induction false} RestartSucceeds(p: Protocol, c: Chain, start: Chain)
    requires Valid(p, c) && StartsFrom(p, c, start)
    ensures RestoreAll(p, start, BlocksOf(c.head)) == Ok(Restored(c, start))
    ensures Alike(p, c, Restored(c, start))
    decreases |c.head|
  {
    hide Extend, Replay, After, Restored, Restore, FinalLedger, HeadLedger;
    RestoredLedgers(p, c, start);
    if c.head != [] {
      var n := |c.head| - 1;
      TruncateLedgers(p, c, n);
      RestartSucceeds(p, Truncate(c, n), start);
      assert BlocksOf(c.head)[..n] == BlocksOf(c.head[..n]);
      RestoreNext(p, c, start);
    } else {
      assert BlocksOf(c.head) == [];
      NothingRestored(c, start);
    }
  }

  lemma NothingRestored(c: Chain, start: Chain)
    requires c.head == [] && start.head == []
    ensures Restored(c, start) == start
  {
  }

  /** Restoring the last held block on the others succeeds. */
  lemma RestoreNext(p: Protocol, c: Chain, start: Chain)
    requires Valid(p, c) && StartsFrom(p, c, start) && c.head != []
    ensures var n := |c.head| - 1;
            Restore(p, Restored(Truncate(c, n), start), c.head[n].block) == Ok(Restored(c, start))
  {
    hide Extend, Replay, After;
    var n := |c.head| - 1;
    var d, block := Restored(Truncate(c, n), start), c.head[n].block;
    TruncateLedgers(p, c, n);
    RestoredLedgers(p, Truncate(c, n), start);
    LedgerStep(p, c, n);
    assert d.head[..|d.head|] + [Entry(Sentinel(block), block)] == Restored(c, start).head;
  }

  /** The restored chain looks like the original. */
  lemma RestoredLedgers(p: Protocol, c: Chain, start: Chain)
    requires Valid(p, c) && StartsFrom(p, c, start)
    ensures Alike(p, c, Restored(c, start))
  {
    hide Extend, Replay;
    ReplayReadsBlocks(p, FinalLedger(p, c), c.head, Resealed(c.head));
  }

  /** A node reopened in place, or rebuilt from the final ledger alone, can start. */
  lemma BothStart(p: Protocol, c: Chain)
    requires Valid(p, c)
    ensures StartsFrom(p, c, Reopen(c)) && StartsFrom(p, c, FromFinal(FinalLedger(p, c)))
  {
    hide Extend, Replay;
    ReopenValid(p, c);
    FreshValid(p, FinalLedger(p, c));
    ReplayNothing(p, FinalLedger(p, c));
  }

  // ---- Later events ------------------------------------------------------------------------

  /** A held block of another hash at this height, whose message the restart changed from or to `msg`. */
  ghost predicate RestartTold(head: seq<Entry>, msg: MsgId, block: Block) {
    exists e :: e in head
                && e.block.header.blockId == block.header.blockId
                && e.block.header.hash != block.header.hash
                && (e.thisMsg == msg) != (Sentinel(e.block) == msg)
  }

  lemma RestartToldIff(c: Chain, start: Chain, msg: MsgId, block: Block)
    ensures Told(c, Restored(c, start), msg, block) <==> RestartTold(c.head, msg, block)
  {
    var d := Restored(c, start);
    if RestartTold(c.head, msg, block) {
      var e :| e in c.head
               && e.block.header.blockId == block.header.blockId
               && e.block.header.hash != block.header.hash
               && (e.thisMsg == msg) != (Sentinel(e.block) == msg);
      var i :| 0 <= i < |c.head| && c.head[i] == e;
      assert d.head[i].thisMsg == Sentinel(e.block);
    }
  }

  /**
   * The first event after a restart. Restarted and original node find the block at the same
   * place, adopt it alike, orphan it alike and finalize it alike if and only if no block of
   * another hash is held at its height under its message before the restart or after, but not both.
   */
  lemma RestartedAnswersIff(p: Protocol, c: Chain, start: Chain, msg: MsgId, block: Block, l1Slot: nat)
    requires Valid(p, c) && StartsFrom(p, c, start)
    ensures var d := Restored(c, start);
            var told := RestartTold(c.head, msg, block);
            && (HeadPosition(c.head, msg, block) == HeadPosition(d.head, msg, block) <==> !told)
            && (Adopt(p, c, msg, block).1 == Adopt(p, d, msg, block).1 <==> !told)
            && (Alike(p, Orphan(c, msg, block), Orphan(d, msg, block)) <==> !told)
            && (var (c', x) := Finalize(p, c, msg, block, l1Slot);
                var (d', y) := Finalize(p, d, msg, block, l1Slot);
                x == y && Alike(p, c', d') <==> !told)
  {
    hide Extend, Replay, After, Told, RestartTold, Alike, Finalize, Orphan, Adopt, Restored, FirstIndex;
    var d := Restored(c, start);
    RestartSucceeds(p, c, start);
    RestartToldIff(c, start, msg, block);
    SamePositionIff(p, c, d, msg, block);
    AdoptIff(p, c, d, msg, block);
    OrphanIff(p, c, d, msg, block);
    FinalizeIff(p, c, d, msg, block, l1Slot);
  }

  /**
   * Restart simulation. From any valid chain, in particular any reached by a run, restarting
   * from the final ledger and the held head blocks succeeds. Under any later events, the
   * restarted node is indistinguishable from the original throughout, also between the
   * truncation and the adoptions of an update, if and only if no event tells.
   */
  lemma RestartIsInvisibleIff(p: Protocol, c: Chain, start: Chain, later: seq<Event>)
    requires Valid(p, c) && StartsFrom(p, c, start)
    ensures var d, es := Restored(c, start), Separated(later);
            && RestoreAll(p, start, BlocksOf(c.head)) == Ok(d)
            && Run(p, c, es) == Run(p, c, later) && Run(p, d, es) == Run(p, d, later)
            && ((forall k :: 0 <= k <= |es| ==> AlikeAt(p, c, d, es, k))
                <==> (forall k :: 0 <= k < |es| ==> !TellsAt(p, c, d, es, k)))
  {
    hide Alike, AlikeAt, TellsAt, Restored, StartsFrom, Run, Separated;
    var d, es := Restored(c, start), Separated(later);
    RestartSucceeds(p, c, start);
    SeparatedRuns(p, c, later);
    SeparatedRuns(p, d, later);
    AlikeForeverIff(p, c, d, es);
    assert forall k :: 0 <= k < |es| ==> es[k] in es;
  }

  /**
   * In particular nothing tells while one message carries one block per height, among the held
   * blocks, their sentinel ids and the later messages: same outcomes, same ledgers, same blocks.
   */
  lemma RestartIsInvisible(p: Protocol, c: Chain, start: Chain, later: seq<Event>)
    requires Valid(p, c) && StartsFrom(p, c, start)
    requires MessagesConsistent(Entries(c) + Entries(Restored(c, start)) + MentionedAll(later))
    ensures var d := Restored(c, start);
            && RestoreAll(p, start, BlocksOf(c.head)) == Ok(d)
            && Outcomes(p, c, later) == Outcomes(p, d, later)
            && SameView(p, Run(p, c, later), Run(p, d, later))
  {
    hide Extend, Replay, After, Run, MessagesConsistent, Entries, Restored, TellsAt;
    RestartSucceeds(p, c, start);
    ConsistentRun(p, c, Restored(c, start), later, |later|);
    UntoldStayAlike(p, c, Restored(c, start), later, |later|);
    assert later[..|later|] == later;
  }

  /** The same for a node that has been through any history since genesis. */
  lemma RestartAfterAnyRun(p: Protocol, initial: V03State, es: seq<Event>, later: seq<Event>)
    requires var c := Run(p, New(initial), es);
             var d := Restored(c, FromFinal(FinalLedger(p, c)));
             MessagesConsistent(Entries(c) + Entries(d) + MentionedAll(later))
    ensures var c := Run(p, New(initial), es);
            var d := Restored(c, FromFinal(FinalLedger(p, c)));
            && RestoreAll(p, FromFinal(FinalLedger(p, c)), BlocksOf(c.head)) == Ok(d)
            && Outcomes(p, c, later) == Outcomes(p, d, later)
            && SameView(p, Run(p, c, later), Run(p, d, later))
  {
    hide Extend, Replay, After, Run, MessagesConsistent, Entries, Restored, StartsFrom;
    var c := Run(p, New(initial), es);
    FreshValid(p, Ledger(initial, None));
    RunValid(p, New(initial), es);
    BothStart(p, c);
    RestartIsInvisible(p, c, FromFinal(FinalLedger(p, c)), later);
  }

  /** A restart as events: reopen, then restore the held blocks. */
  function RestartEvents(blocks: seq<Block>): seq<Event> {
    [Reopened] + seq(|blocks|, i requires 0 <= i < |blocks| => RestoredHead(blocks[i]))
  }

  lemma {:induction false} RunRestores(p: Protocol, c: Chain, blocks: seq<Block>)
    requires RestoreAll(p, Reopen(c), blocks).Ok?
    ensures Run(p, c, RestartEvents(blocks)) == RestoreAll(p, Reopen(c), blocks).value
    decreases |blocks|
  {
    hide Restore, Reopen;
    var es := RestartEvents(blocks);
    if blocks != [] {
      var n := |blocks| - 1;
      RunRestores(p, c, blocks[..n]);
      assert es[..|es| - 1] == RestartEvents(blocks[..n]);
    } else {
      assert es == [Reopened] && es[..0] == [];
    }
  }

  /** Restarts within a run are restarts: the run goes on from the restored chain. */
  lemma RestartWithinRun(p: Protocol, c: Chain)
    requires Valid(p, c)
    ensures Run(p, c, RestartEvents(BlocksOf(c.head))) == Restored(c, Reopen(c))
  {
    hide StartsFrom, Restored, Reopen;
    BothStart(p, c);
    RestartSucceeds(p, c, Reopen(c));
    RunRestores(p, c, BlocksOf(c.head));
  }

  /**
   * A message id reused at one height does tell: the original node takes the new block for a
   * re-delivery, and the restarted one reorgs.
   */
  lemma ReusedMessageTellsApart(p: Protocol, c: Chain, start: Chain, msg: MsgId, held: Block, other: Block)
    requires Valid(p, c) && c.head == [Entry(msg, held)] && StartsFrom(p, c, start)
    requires msg != Sentinel(held) && held.header.hash != other.header.hash
    requires Extend(p, FinalLedger(p, c), other).Ok?
    ensures Adopt(p, c, msg, other).1 == AlreadyApplied
    ensures Adopt(p, Restored(c, start), msg, other).1 == Applied
  {
    var d := Restored(c, start);
    assert d.head == [Entry(Sentinel(held), held)];
    hide Extend, Replay, After, Restored, Adopt, StartsFrom, RestoreAll;
    RestartSucceeds(p, c, start);
    ChainHeights(p, c);
    ExtendLinks(p, FinalLedger(p, c), other);
    assert c.head[0].block.header.blockId == other.header.blockId;
    assert Matches(c.head[0], msg, other);
    AdoptHeld(p, c, msg, other, 0);
    AdoptExact(p, d, msg, other);
    assert d.head[..0] == [];
    ReplayNothing(p, FinalLedger(p, d));
  }

  lemma AdoptHeld(p: Protocol, c: Chain, msg: MsgId, block: Block, i: nat)
    requires i < |c.head| && Matches(c.head[i], msg, block)
    ensures Adopt(p, c, msg, block).1 == AlreadyApplied
  {
    hide Extend, Replay, After;
  }
}
