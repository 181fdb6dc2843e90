/**
 * The final tier against the stream of finalized blocks.
 *
 * What is finalized should be exactly what the channel finalized, however often it is
 * delivered again and whatever the head held in between.
 */
module Following {
  import opened Prelude
  import opened Blocks
  import opened Apply
  import opened ChainSpec
  import opened ChainLedgers
  import opened ChainRuns
  import opened Agreement

  /** The block has been in the stream before. */
  ghost predicate Repeats(stream: seq<Entry>, block: Block) {
    exists j :: 0 <= j < |stream| && SameBlock(stream[j].block, block)
  }

  ghost function Next(stream: seq<Entry>, e: Event): seq<Entry> {
    if e.Finalized? && !Repeats(stream, e.block) then stream + [Entry(e.msg, e.block)] else stream
  }

  /** The finalized deliveries of a run in order, without re-deliveries. */
  ghost function Stream(es: seq<Event>): seq<Entry> {
    if es == [] then [] else Next(Stream(es[..|es| - 1]), es[|es| - 1])
  }

  predicate GenesisFinalized(e: Event) {
    e.Finalized? && e.block.header.blockId == GENESIS_BLOCK_ID
  }

  /** The finalized block is held in head, or no head block has the hash it names as parent. */
  predicate Rooted(c: Chain, e: Event)
    requires e.Finalized?
  {
    HeadPosition(c.head, e.msg, e.block).Some? || ParentPosition(c.head, e.block).None?
  }

  // ---- One event ---------------------------------------------------------------------------

  /** The next block of the stream is valid on a final tier that holds its prefix. */
  lemma StreamExtends(p: Protocol, c: Chain, stream: seq<Entry>, entry: Entry)
    requires Replay(p, c.base, c.final).Some? && SameContent(c.final, stream)
    requires Replay(p, c.base, stream + [entry]).Some?
    ensures Extend(p, FinalLedger(p, c), entry.block).Ok?
  {
    hide Extend, Replay, SameContent;
    SameContentSameLedger(p, c.base, c.final, stream);
    ReplaySnoc(p, c.base, stream, entry);
  }

  lemma FinalizedFirst(c: Chain)
    requires c.head != []
    ensures FinalizeThrough(c, 0).final == c.final + [c.head[0]]
  {
    assert c.head[..1] == [c.head[0]];
  }

  /** A head entry matching a block that extends the final tier is that block, at position 0. */
  lemma MatchIsStreamBlock(p: Protocol, c: Chain, entry: Entry, i: nat, all: set<Entry>)
    requires Valid(p, c)
    requires Extend(p, FinalLedger(p, c), entry.block).Ok?
    requires HeadPosition(c.head, entry.thisMsg, entry.block) == Some(i)
    requires Entries(c) <= all && entry in all
    requires CollisionFree(p, BlocksIn(all)) && MessagesConsistent(all)
    ensures i == 0 < |c.head|
    ensures Hashable(c.head[0].block) == Hashable(entry.block)
    ensures c.head[0].block.header.hash == entry.block.header.hash
  {
    hide Replay, After;
    ChainHeights(p, c);
    assert c.head[i] in Entries(c);
    ExtendLinks(p, FinalLedger(p, c), entry.block);
    ReplayContiguous(p, FinalLedger(p, c), c.head);
    assert c.head[i].block in BlocksIn(all) && entry.block in BlocksIn(all);
    assert p.RecomputeHash(entry.block) == entry.block.header.hash;
  }

  /** No head entry is the parent of a block whose real parent is in the final tier. */
  lemma NoHeadParent(p: Protocol, c: Chain, j: nat, block: Block, all: set<Entry>)
    requires Valid(p, c) && j < |c.final|
    requires block.header.prevBlockHash == c.final[j].block.header.hash
    requires Entries(c) <= all && CollisionFree(p, BlocksIn(all))
    ensures ParentPosition(c.head, block) == None
  {
    hide Replay, After;
    ChainHeights(p, c);
    ReplayContiguous(p, c.base, c.final);
    ReplayContiguous(p, FinalLedger(p, c), c.head);
    var parent := c.final[j];
    assert parent in Entries(c);
    forall k | 0 <= k < |c.head|
      ensures c.head[k].block.header.hash != block.header.prevBlockHash
    {
      assert c.head[k] in Entries(c);
      assert c.head[k].block in BlocksIn(all) && parent.block in BlocksIn(all);
      assert Hashable(c.head[k].block) != Hashable(parent.block);
    }
  }

  lemma DirectExtends(p: Protocol, c: Chain, entry: Entry, l1Slot: nat)
    requires Extend(p, FinalLedger(p, c), entry.block).Ok?
    ensures var r := FinalizeDirect(p, c, entry.thisMsg, entry.block, l1Slot);
            r.1 == Applied && r.0.final == c.final + [entry]
  {
    hide Replay, After;
    ExtendLinks(p, FinalLedger(p, c), entry.block);
  }

  /** The next block of the stream, its parent being in the final tier or no head block. */
  lemma NovelFollows(p: Protocol, c: Chain, stream: seq<Entry>, e: Event, all: set<Entry>)
    requires Valid(p, c) && SameContent(c.final, stream)
    requires e.Finalized? && Replay(p, c.base, stream + [Entry(e.msg, e.block)]).Some?
    requires Entries(c) <= all && Entry(e.msg, e.block) in all
    requires CollisionFree(p, BlocksIn(all)) && MessagesConsistent(all)
    requires Rooted(c, e)
    ensures SameContent(Finalize(p, c, e.msg, e.block, e.l1Slot).0.final, stream + [Entry(e.msg, e.block)])
  {
    hide Extend, Replay, After, CollisionFree, MessagesConsistent, FinalizeDirect, FinalizeThrough, Entries,
      SameContent;
    var entry := Entry(e.msg, e.block);
    StreamExtends(p, c, stream, entry);
    var i := HeadPosition(c.head, e.msg, e.block);
    if i.Some? {
      MatchIsStreamBlock(p, c, entry, i.value, all);
      FinalizedFirst(c);
      SameContentSnoc(c.final, stream, c.head[0], entry);
    } else {
      assert FinalizeParent(c, e.block) == c;
      DirectExtends(p, c, entry, e.l1Slot);
      SameContentSnoc(c.final, stream, entry, entry);
    }
  }

  /** Past genesis the parent of the next block is the final tip. */
  lemma NovelIsRooted(p: Protocol, c: Chain, e: Event, all: set<Entry>)
    requires Valid(p, c) && c.final != [] && c.base.tip == None
    requires e.Finalized? && Extend(p, FinalLedger(p, c), e.block).Ok?
    requires Entries(c) <= all && CollisionFree(p, BlocksIn(all))
    ensures Rooted(c, e) && !GenesisFinalized(e)
  {
    hide Extend, Replay, After, CollisionFree, Entries;
    ExtendLinks(p, FinalLedger(p, c), e.block);
    ChainHeights(p, c);
    TipOfLog(p, c.base, c.final);
    NoHeadParent(p, c, |c.final| - 1, e.block, all);
  }

  /** A genesis block naming a held one as its parent: the held one is finalized in its place. */
  lemma StrayIsFinalized(p: Protocol, c: Chain, e: Event)
    requires Valid(p, c) && c.final == [] && c.base.tip == None
    requires GenesisFinalized(e) && !Rooted(c, e)
    ensures var (d, outcome) := Finalize(p, c, e.msg, e.block, e.l1Slot);
            && (if |d.final| > 1 then outcome == AlreadyApplied else outcome.Parked?)
            && d.final != [] && d.final == c.head[..ParentPosition(c.head, e.block).value + 1]
            && d.final[0].block.header.hash != e.block.header.hash
  {
    hide Extend, Replay, After;
    ChainHeights(p, c);
    var i := ParentPosition(c.head, e.block).value;
    var parent := FinalizeParent(c, e.block);
    assert !Matches(c.head[0], e.msg, e.block);
    FinalizeLedgers(p, c, i);
    ChainHeights(p, parent);
    TipOfLog(p, parent.base, parent.final);
    ReplayContiguous(p, parent.base, parent.final);
    if Extend(p, FinalLedger(p, parent), e.block).Ok? {
      ExtendLinks(p, FinalLedger(p, parent), e.block);
    }
  }

  /** At or below the final tip a block of the final tier is taken for the re-delivery it is. */
  lemma RepeatIsIdle(p: Protocol, c: Chain, e: Event)
    requires Valid(p, c) && c.base.tip == None
    requires e.Finalized? && Repeats(c.final, e.block)
    ensures HeadPosition(c.head, e.msg, e.block).None?
    ensures FinalizeDirect(p, c, e.msg, e.block, e.l1Slot) == (c, AlreadyApplied)
  {
    hide Extend, Replay, After;
    var j :| 0 <= j < |c.final| && SameBlock(c.final[j].block, e.block);
    ChainHeights(p, c);
    ReplayContiguous(p, c.base, c.final);
    TipOfLog(p, c.base, c.final);
    assert e.block.header.blockId == j + 1 <= |c.final| == Height(FinalLedger(p, c).tip);
    assert j + 1 == |c.final| ==> FinalLedger(p, c).tip.value == TipOf(e.block);
  }

  /** A re-delivery changes nothing unless it names a held block as its parent. */
  lemma RepeatFollows(p: Protocol, c: Chain, e: Event)
    requires Valid(p, c) && c.base.tip == None
    requires e.Finalized? && Repeats(c.final, e.block)
    ensures Step(p, c, e).0.final == c.final <==> Rooted(c, e)
    ensures Rooted(c, e) ==> Step(p, c, e) == (c, [AlreadyApplied])
  {
    hide Extend, Replay, After, FinalizeDirect, Repeats;
    RepeatIsIdle(p, c, e);
    var parent := FinalizeParent(c, e.block);
    if ParentPosition(c.head, e.block).Some? {
      assert |parent.final| > |c.final|;
      FinalizeDirectStall(p, parent, e.msg, e.block, e.l1Slot);
    }
  }

  /** Past genesis a re-delivered block's parent is in the final tier. */
  lemma RepeatIsRooted(p: Protocol, c: Chain, e: Event, all: set<Entry>)
    requires Valid(p, c) && c.base.tip == None
    requires e.Finalized? && Repeats(c.final, e.block)
    requires Entries(c) <= all && CollisionFree(p, BlocksIn(all))
    ensures GenesisFinalized(e) || Rooted(c, e)
  {
    hide Extend, Replay, After, CollisionFree, Entries;
    var j :| 0 <= j < |c.final| && SameBlock(c.final[j].block, e.block);
    ReplayContiguous(p, c.base, c.final);
    if j > 0 {
      NoHeadParent(p, c, j - 1, e.block, all);
    }
  }

  lemma RepeatsAlike(a: seq<Entry>, b: seq<Entry>, block: Block)
    requires SameContent(a, b)
    ensures Repeats(a, block) == Repeats(b, block)
  {
    if Repeats(a, block) {
      var j :| 0 <= j < |a| && SameBlock(a[j].block, block);
      assert SameBlock(b[j].block, block);
    }
    if Repeats(b, block) {
      var j :| 0 <= j < |b| && SameBlock(b[j].block, block);
      assert SameBlock(a[j].block, block);
    }
  }

  lemma SameContentTwice(a: seq<Entry>, b: seq<Entry>, stream: seq<Entry>)
    requires SameContent(a, stream) && a <= b
    ensures SameContent(b, stream) <==> b == a
  {
  }

  /** A node that has followed the stream so far goes on following it exactly if genesis is rooted. */
  lemma StepFollows(p: Protocol, c: Chain, stream: seq<Entry>, e: Event, all: set<Entry>)
    requires Valid(p, c) && c.base.tip == None
    requires SameContent(c.final, stream)
    requires Entries(c) <= all && Delivered(e) <= all
    requires CollisionFree(p, BlocksIn(all)) && MessagesConsistent(all)
    requires Replay(p, c.base, Next(stream, e)).Some?
    ensures SameContent(Step(p, c, e).0.final, Next(stream, e)) <==> (GenesisFinalized(e) ==> Rooted(c, e))
  {
    hide Extend, Replay, After, CollisionFree, MessagesConsistent, Finalize, SameContent, Entries, Repeats, Rooted,
      Adopt, Restore;
    StepFinalGrows(p, c, e);
    if !e.Finalized? {
      OthersKeepFinal(p, c, e);
    } else if Repeats(stream, e.block) {
      RepeatsAlike(c.final, stream, e.block);
      RepeatFollows(p, c, e);
      RepeatIsRooted(p, c, e, all);
      SameContentTwice(c.final, Step(p, c, e).0.final, stream);
    } else {
      GenesisFollows(p, c, stream, e, all);
    }
  }

  lemma OthersKeepFinal(p: Protocol, c: Chain, e: Event)
    requires !e.Finalized?
    ensures Step(p, c, e).0.final == c.final
  {
    hide Extend, Replay, After;
    if e.Update? {
      AdoptAllFinal(p, OrphanBatch(c, e.orphaned), e.adopted);
    }
  }

  /** A block new to the stream: genesis, or a block on the final tip. */
  lemma GenesisFollows(p: Protocol, c: Chain, stream: seq<Entry>, e: Event, all: set<Entry>)
    requires Valid(p, c) && c.base.tip == None
    requires SameContent(c.final, stream)
    requires e.Finalized? && Replay(p, c.base, stream + [Entry(e.msg, e.block)]).Some?
    requires Entries(c) <= all && Entry(e.msg, e.block) in all
    requires CollisionFree(p, BlocksIn(all)) && MessagesConsistent(all)
    ensures var d := Finalize(p, c, e.msg, e.block, e.l1Slot).0;
            SameContent(d.final, stream + [Entry(e.msg, e.block)]) <==> (GenesisFinalized(e) ==> Rooted(c, e))
  {
    assert |c.final| == |stream|;
    hide Extend, Replay, After, CollisionFree, MessagesConsistent, Finalize, Entries, Rooted;
    StreamExtends(p, c, stream, Entry(e.msg, e.block));
    if stream != [] {
      NovelIsRooted(p, c, e, all);
      NovelFollows(p, c, stream, e, all);
    } else {
      ReplayNothing(p, c.base);
      ExtendLinks(p, FinalLedger(p, c), e.block);
      if Rooted(c, e) {
        NovelFollows(p, c, stream, e, all);
      } else {
        StrayIsFinalized(p, c, e);
      }
    }
  }

  // ---- Whole runs --------------------------------------------------------------------------

  /** The final tier holds the stream after the first `k` events. */
  ghost predicate FollowedAt(p: Protocol, initial: V03State, es: seq<Event>, k: nat)
    requires k <= |es|
  {
    SameContent(Run(p, New(initial), es[..k]).final, Stream(es[..k]))
  }

  /** If event `k` finalizes genesis, it is rooted where it arrives. */
  ghost predicate RootedAt(p: Protocol, initial: V03State, es: seq<Event>, k: nat)
    requires k < |es|
  {
    GenesisFinalized(es[k]) ==> Rooted(Run(p, New(initial), es[..k]), es[k])
  }

  /**
   * The finalized blocks delivered form a chain from genesis, re-deliveries apart, hashes do
   * not collide among the delivered blocks, and a message carries one block per height.
   */
  ghost predicate StreamReplays(p: Protocol, initial: V03State, es: seq<Event>) {
    && Replay(p, Ledger(initial, None), Stream(es)).Some?
    && CollisionFree(p, BlocksIn(DeliveredAll(es)))
    && MessagesConsistent(DeliveredAll(es))
  }

  lemma {:induction false} PrefixesOf(es: seq<Event>, k: nat)
    requires k <= |es|
    ensures Stream(es[..k]) <= Stream(es) && DeliveredAll(es[..k]) <= DeliveredAll(es)
    decreases |es|
  {
    if k == |es| {
      assert es[..k] == es;
    } else {
      var n := |es| - 1;
      PrefixesOf(es[..n], k);
      assert es[..n][..k] == es[..k];
    }
  }

  lemma NextEvent(p: Protocol, initial: V03State, es: seq<Event>, k: nat)
    requires k < |es|
    ensures Run(p, New(initial), es[..k + 1]) == Step(p, Run(p, New(initial), es[..k]), es[k]).0
    ensures Stream(es[..k + 1]) == Next(Stream(es[..k]), es[k])
    ensures DeliveredAll(es[..k + 1]) == DeliveredAll(es[..k]) + Delivered(es[k])
  {
    hide Step, New, Next, Delivered;
    assert es[..k + 1][..k] == es[..k];
  }

  lemma PointStep(p: Protocol, initial: V03State, es: seq<Event>, k: nat)
    requires StreamReplays(p, initial, es) && k < |es|
    requires FollowedAt(p, initial, es, k)
    ensures FollowedAt(p, initial, es, k + 1) <==> RootedAt(p, initial, es, k)
  {
    hide Extend, Replay, After, Run, Stream, Next, Step, CollisionFree, MessagesConsistent, DeliveredAll, SameContent,
      Rooted;
    var base := Ledger(initial, None);
    var c, all := Run(p, New(initial), es[..k]), DeliveredAll(es);
    NextEvent(p, initial, es, k);
    PrefixesOf(es, k);
    PrefixesOf(es, k + 1);
    ReplayPrefix(p, base, Stream(es), |Stream(es[..k + 1])|);
    assert Stream(es[..k + 1]) == Stream(es)[..|Stream(es[..k + 1])|];
    FreshValid(p, base);
    RunValid(p, New(initial), es[..k]);
    RunEntries(p, New(initial), es[..k]);
    RunBase(p, New(initial), es[..k]);
    assert Entries(New(initial)) == {};
    StepFollows(p, c, Stream(es[..k]), es[k], all);
  }

  lemma {:induction false} RootedFollows(p: Protocol, initial: V03State, es: seq<Event>, n: nat)
    requires StreamReplays(p, initial, es) && n <= |es|
    requires forall k :: 0 <= k < n ==> RootedAt(p, initial, es, k)
    ensures FollowedAt(p, initial, es, n)
    decreases n
  {
    hide Replay, After, Step, RootedAt, StreamReplays;
    if n == 0 {
    } else {
      hide FollowedAt;
      RootedFollows(p, initial, es, n - 1);
      PointStep(p, initial, es, n - 1);
    }
  }

  /**
   * The final tier follows the finalized stream throughout a run, whatever was adopted,
   * produced, orphaned, restored or delivered again in between, if and only if no finalized
   * genesis names a held block as its parent when it arrives, unless it is held itself.
   */
  lemma FinalFollowsStreamIff(p: Protocol, initial: V03State, es: seq<Event>)
    requires StreamReplays(p, initial, es)
    ensures (forall k :: 0 <= k <= |es| ==> FollowedAt(p, initial, es, k))
            <==> (forall k :: 0 <= k < |es| ==> RootedAt(p, initial, es, k))
  {
    hide StreamReplays, FollowedAt, RootedAt;
    if forall k :: 0 <= k <= |es| ==> FollowedAt(p, initial, es, k) {
      forall k | 0 <= k < |es|
        ensures RootedAt(p, initial, es, k)
      {
        assert FollowedAt(p, initial, es, k) && FollowedAt(p, initial, es, k + 1);
        PointStep(p, initial, es, k);
      }
    }
    if forall k :: 0 <= k < |es| ==> RootedAt(p, initial, es, k) {
      forall n | 0 <= n <= |es|
        ensures FollowedAt(p, initial, es, n)
      {
        RootedFollows(p, initial, es, n);
      }
    }
  }

  // ---- At the end of a run -----------------------------------------------------------------

  /** A stray that took genesis' place stays there for good. */
  lemma StrayStays(p: Protocol, initial: V03State, es: seq<Event>, k: nat)
    requires StreamReplays(p, initial, es) && k < |es|
    requires Stream(es[..k]) == [] && !RootedAt(p, initial, es, k)
    requires FollowedAt(p, initial, es, k)
    ensures !FollowedAt(p, initial, es, |es|)
  {
    hide Extend, Replay, After, Run, Stream, Step, CollisionFree, MessagesConsistent, DeliveredAll, Rooted;
    var base := Ledger(initial, None);
    var e, c := es[k], Run(p, New(initial), es[..k]);
    NextEvent(p, initial, es, k);
    PrefixesOf(es, k + 1);
    FreshValid(p, base);
    RunValid(p, New(initial), es[..k]);
    RunBase(p, New(initial), es[..k]);
    StrayIsFinalized(p, c, e);
    FinalizedStep(p, c, e);
    var first, d := Run(p, New(initial), es[..k + 1]), Run(p, New(initial), es);
    assert first.final != [] && first.final[0].block.header.hash != e.block.header.hash;
    FinalityIsIrreversible(p, New(initial), es[..k + 1], es[k + 1..]);
    assert es[..k + 1] + es[k + 1..] == es;
    assert d.final[0] == first.final[0];
    assert es[..|es|] == es;
    assert Stream(es)[0] == Entry(e.msg, e.block);
    assert d.final[0].block.header.hash != Stream(es)[0].block.header.hash;
  }

  lemma FinalizedStep(p: Protocol, c: Chain, e: Event)
    requires e.Finalized?
    ensures Step(p, c, e).0 == Finalize(p, c, e.msg, e.block, e.l1Slot).0
  {
  }

  /** In a stream that replays, whatever is finalized at genesis height repeats the first block. */
  lemma GenesisIsFirst(p: Protocol, initial: V03State, es: seq<Event>, k: nat)
    requires Replay(p, Ledger(initial, None), Stream(es)).Some?
    requires k < |es| && GenesisFinalized(es[k])
    ensures Stream(es) != [] && SameBlock(Stream(es)[0].block, es[k].block)
  {
    hide Extend, Replay, Stream;
    NextEvent(p, initial, es, k);
    PrefixesOf(es, k);
    PrefixesOf(es, k + 1);
    ReplayContiguous(p, Ledger(initial, None), Stream(es));
    var upTo := Stream(es[..k + 1]);
    assert Repeats(upTo, es[k].block) by {
      if !Repeats(Stream(es[..k]), es[k].block) {
        assert SameBlock(upTo[|upTo| - 1].block, es[k].block);
      }
    }
    var j :| 0 <= j < |upTo| && SameBlock(upTo[j].block, es[k].block);
    assert Stream(es)[j] == upTo[j];
    assert j == 0;
  }

  /**
   * At the end of a run, the final tier is the finalized stream if and only if genesis was
   * rooted where it first arrived. Later deliveries of genesis must be rooted too, as they are
   * unless some held block descends from genesis and is named by it as its parent.
   */
  lemma FinalIsStreamIff(p: Protocol, initial: V03State, es: seq<Event>, g: nat)
    requires StreamReplays(p, initial, es)
    requires g < |es| && GenesisFinalized(es[g])
    requires forall k :: 0 <= k < g ==> !GenesisFinalized(es[k])
    requires forall k :: g < k < |es| ==> RootedAt(p, initial, es, k)
    ensures SameContent(Run(p, New(initial), es).final, Stream(es))
            <==> Rooted(Run(p, New(initial), es[..g]), es[g])
  {
    hide Replay, After, Step, Rooted, SameContent;
    assert es[..|es|] == es;
    if Rooted(Run(p, New(initial), es[..g]), es[g]) {
      RootedFollows(p, initial, es, |es|);
    } else {
      RootedFollows(p, initial, es, g);
      NotYetFinalized(p, initial, es, g);
      StrayStays(p, initial, es, g);
    }
  }

  /** The first block of a stream that replays is at genesis height. */
  lemma NotYetFinalized(p: Protocol, initial: V03State, es: seq<Event>, g: nat)
    requires Replay(p, Ledger(initial, None), Stream(es)).Some?
    requires g < |es| && forall k :: 0 <= k < g ==> !GenesisFinalized(es[k])
    ensures Stream(es[..g]) == []
  {
    hide Extend, Replay;
    PrefixesOf(es, g);
    assert Stream(es[..g]) != [] ==> Stream(es[..g])[0] == Stream(es)[0];
    NoGenesisFinalized(es[..g]);
    ReplayContiguous(p, Ledger(initial, None), Stream(es));
  }

  lemma {:induction false} NoGenesisFinalized(es: seq<Event>)
    requires forall k :: 0 <= k < |es| ==> !GenesisFinalized(es[k])
    ensures forall j :: 0 <= j < |Stream(es)| ==> Stream(es)[j].block.header.blockId != GENESIS_BLOCK_ID
    decreases |es|
  {
    if es != [] {
      NoGenesisFinalized(es[..|es| - 1]);
      assert !GenesisFinalized(es[|es| - 1]);
    }
  }

  /** No delivered block has the hash the stream's first block names as its parent. */
  ghost predicate RootIsParentless(stream: seq<Entry>, entries: set<Entry>) {
    stream != [] ==>
      forall e :: e in entries ==> e.block.header.hash != stream[0].block.header.prevBlockHash
  }

  /**
   * The head never leaks into the final tier. If the finalized blocks form a chain from a
   * genesis whose parent nobody delivered, then whatever happened in between, and however often
   * they were delivered again, the final tier is that stream and its ledger the stream's replay.
   */
  lemma FinalFollowsStream(p: Protocol, initial: V03State, es: seq<Event>)
    requires StreamReplays(p, initial, es)
    requires RootIsParentless(Stream(es), DeliveredAll(es))
    ensures SameContent(Run(p, New(initial), es).final, Stream(es))
    ensures FinalLedger(p, Run(p, New(initial), es)) == After(p, Ledger(initial, None), Stream(es))
  {
    hide Extend, Replay, Run, Stream, DeliveredAll, SameContent, CollisionFree, MessagesConsistent;
    var base := Ledger(initial, None);
    forall k | 0 <= k < |es|
      ensures RootedAt(p, initial, es, k)
    {
      var c := Run(p, New(initial), es[..k]);
      PrefixesOf(es, k);
      RunEntries(p, New(initial), es[..k]);
      if GenesisFinalized(es[k]) {
        GenesisIsFirst(p, initial, es, k);
        assert forall i :: 0 <= i < |c.head| ==> c.head[i] in Entries(c);
      }
    }
    RootedFollows(p, initial, es, |es|);
    assert es[..|es|] == es;
    RunBase(p, New(initial), es);
    SameContentSameLedger(p, base, Run(p, New(initial), es).final, Stream(es));
  }

  lemma RunTwo(p: Protocol, c: Chain, e: Event, f: Event)
    ensures Run(p, c, [e, f]) == Step(p, Step(p, c, e).0, f).0
    ensures Stream([e, f]) == Next(Next([], e), f)
  {
    hide Step, Next;
    assert [e, f][..1] == [e] && [e][..0] == [];
    assert Run(p, c, [e]) == Step(p, c, e).0 && Stream([e]) == Next([], e);
  }

  /** A run that goes wrong: a held genesis, and another that names it as its parent. */
  lemma StrayGenesisIsFinalized(p: Protocol, initial: V03State, stray: Entry, e: Event)
    requires Extend(p, Ledger(initial, None), stray.block).Ok?
    requires GenesisFinalized(e) && Extend(p, Ledger(initial, None), e.block).Ok?
    requires e.block.header.prevBlockHash == stray.block.header.hash
    requires e.block.header.hash != stray.block.header.hash && e.msg != stray.thisMsg
    ensures var d := Run(p, New(initial), [Adopted(stray.thisMsg, stray.block), e]);
            d.final == [stray] && Stream([Adopted(stray.thisMsg, stray.block), e]) == [Entry(e.msg, e.block)]
  {
    hide Extend, Replay, After;
    var c := New(initial);
    var es := [Adopted(stray.thisMsg, stray.block), e];
    FreshValid(p, c.base);
    ReplayNothing(p, c.base);
    ExtendLinks(p, c.base, stray.block);
    assert c.head[..0] == [];
    AdoptExact(p, c, stray.thisMsg, stray.block);
    AdoptValid(p, c, stray.thisMsg, stray.block);
    var held := Adopt(p, c, stray.thisMsg, stray.block).0;
    assert held.head == [stray];
    FirstIndexUnique(held.head, (x: Entry) => x.block.header.hash == e.block.header.prevBlockHash, 0);
    StrayIsFinalized(p, held, e);
    assert held.head[..1] == [stray];
    RunTwo(p, c, es[0], e);
  }
}
