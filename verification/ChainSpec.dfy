/**
 * The two-tier chain as a log of blocks split at the finality cursor.
 *
 * A chain value holds no states, only the blocks of the final tier and those of the head. Every
 * state and tip is whatever replaying them from the base gives, and each operation below
 * replays from scratch where the running system reads a cached state.
 */
module ChainSpec {
  import opened Prelude
  import opened Blocks
  import opened Apply

  datatype StallReason = StallReason(
    blockId: Option<nat>,
    blockHash: Option<HashType>,
    prevBlockHash: Option<HashType>,
    l1Slot: nat,
    error: BlockIngestError,
    firstSeen: Option<nat>,
    orphansSince: nat)

  function NewStall(header: BlockHeader, l1Slot: nat, error: BlockIngestError): StallReason {
    StallReason(Some(header.blockId), Some(header.hash), Some(header.prevBlockHash),
                l1Slot, error, Some(header.timestamp), 0)
  }

  function Escalate(stall: StallReason): StallReason {
    stall.(orphansSince := SaturatingAdd(stall.orphansSince, 1))
  }

  /** First stall stored verbatim; later ones only bump the counter. */
  function RecordStall(stall: Option<StallReason>, block: Block, l1Slot: nat, error: BlockIngestError)
    : Option<StallReason>
  {
    match stall
    case None => Some(NewStall(block.header, l1Slot, error))
    case Some(s) => Some(Escalate(s))
  }

  datatype Chain = Chain(base: Ledger, final: seq<Entry>, head: seq<Entry>, stall: Option<StallReason>)

  function FinalLedger(p: Protocol, c: Chain): Ledger {
    After(p, c.base, c.final)
  }

  /** The ledger after the final tier and the first `kept` head blocks. */
  function LedgerAt(p: Protocol, c: Chain, kept: nat): Ledger
    requires kept <= |c.head|
  {
    After(p, FinalLedger(p, c), c.head[..kept])
  }

  function HeadLedger(p: Protocol, c: Chain): Ledger {
    After(p, FinalLedger(p, c), c.head)
  }

  /** The final tier replays from the base, and the head replays on the final tier. */
  predicate Valid(p: Protocol, c: Chain) {
    && Replay(p, c.base, c.final).Some?
    && Replay(p, FinalLedger(p, c), c.head).Some?
  }

  /** Same claimed height, and the same message or the same hash. */
  predicate Matches(entry: Entry, msg: MsgId, block: Block) {
    && entry.block.header.blockId == block.header.blockId
    && (entry.thisMsg == msg || entry.block.header.hash == block.header.hash)
  }

  function HeadPosition(head: seq<Entry>, msg: MsgId, block: Block): (r: Option<nat>)
    ensures r.Some? ==> r.value < |head|
  {
    FirstIndex(head, (e: Entry) => Matches(e, msg, block))
  }

  /** First head entry at or above the block's height. */
  function ReorgPosition(head: seq<Entry>, block: Block): (r: Option<nat>)
    ensures r.Some? ==> r.value < |head|
  {
    FirstIndex(head, (e: Entry) => e.block.header.blockId >= block.header.blockId)
  }

  /** First head entry whose hash the block names as its parent. */
  function ParentPosition(head: seq<Entry>, block: Block): (r: Option<nat>)
    ensures r.Some? ==> r.value < |head|
  {
    FirstIndex(head, (e: Entry) => e.block.header.hash == block.header.prevBlockHash)
  }

  /** Drops the head blocks from position `kept` on. */
  function Truncate(c: Chain, kept: nat): Chain
    requires kept <= |c.head|
  {
    c.(head := c.head[..kept])
  }

  /** Drops the head blocks from position `kept` on and puts `entry` there. */
  function Push(c: Chain, kept: nat, entry: Entry): Chain
    requires kept <= |c.head|
  {
    c.(head := c.head[..kept] + [entry])
  }

  /** How many head blocks an adopted block keeps below it. */
  function KeptBelow(head: seq<Entry>, block: Block): (kept: nat)
    ensures kept <= |head|
  {
    match ReorgPosition(head, block) case Some(i) => i case None => |head|
  }

  predicate AtOrBelow(tip: Option<Tip>, block: Block) {
    tip.Some? && block.header.blockId <= tip.value.blockId
  }

  /** An adopted block: extends the head, or reorgs it back to the block's own height. */
  function Adopt(p: Protocol, c: Chain, msg: MsgId, block: Block): (Chain, AcceptOutcome) {
    if HeadPosition(c.head, msg, block).Some? || AtOrBelow(FinalLedger(p, c).tip, block) then
      (c, AlreadyApplied)
    else
      var kept := KeptBelow(c.head, block);
      match Extend(p, LedgerAt(p, c, kept), block)
      case Ok(_) => (Push(c, kept, Entry(msg, block)), Applied)
      case Err(e) => (c, Parked(e))
  }

  /** A block of our own: only ever extends the head. */
  function Produce(p: Protocol, c: Chain, msg: MsgId, block: Block): (Chain, AcceptOutcome) {
    if AtOrBelow(HeadLedger(p, c).tip, block) then (c, AlreadyApplied)
    else Adopt(p, c, msg, block)
  }

  function Orphan(c: Chain, msg: MsgId, block: Block): Chain {
    match HeadPosition(c.head, msg, block)
    case None => c
    case Some(i) => Truncate(c, i)
  }

  /** The smallest head position any of the orphans matches. */
  function EarliestOrphan(head: seq<Entry>, orphaned: seq<(MsgId, Block)>): (r: Option<nat>)
    ensures r.Some? ==> r.value < |head|
  {
    if orphaned == [] then None
    else
      var n := |orphaned| - 1;
      match (EarliestOrphan(head, orphaned[..n]), HeadPosition(head, orphaned[n].0, orphaned[n].1))
      case (None, i) => i
      case (Some(e), None) => Some(e)
      case (Some(e), Some(i)) => Some(if i < e then i else e)
  }

  function OrphanBatch(c: Chain, orphaned: seq<(MsgId, Block)>): Chain {
    match EarliestOrphan(c.head, orphaned)
    case None => c
    case Some(i) => Truncate(c, i)
  }

  function AdoptAll(p: Protocol, c: Chain, adopted: seq<(MsgId, Block)>): (Chain, seq<AcceptOutcome>) {
    if adopted == [] then (c, [])
    else
      var n := |adopted| - 1;
      var before := AdoptAll(p, c, adopted[..n]);
      var last := Adopt(p, before.0, adopted[n].0, adopted[n].1);
      (last.0, before.1 + [last.1])
  }

  function ChannelUpdate(p: Protocol, c: Chain, orphaned: seq<(MsgId, Block)>, adopted: seq<(MsgId, Block)>)
    : (Chain, seq<AcceptOutcome>)
  {
    AdoptAll(p, OrphanBatch(c, orphaned), adopted)
  }

  /** Moves the head blocks up to and including position `i` into the final tier. */
  function FinalizeThrough(c: Chain, i: nat): Chain
    requires i < |c.head|
  {
    c.(final := c.final + c.head[..i + 1], head := c.head[i + 1..], stall := None)
  }

  /** The finality a finalized block implies for the head: up to its parent. */
  function FinalizeParent(c: Chain, block: Block): Chain {
    match ParentPosition(c.head, block)
    case None => c
    case Some(i) => FinalizeThrough(c, i)
  }

  /** A finalized block that is not in head goes straight onto the final tier. */
  function FinalizeDirect(p: Protocol, c: Chain, msg: MsgId, block: Block, l1Slot: nat)
    : (Chain, AcceptOutcome)
  {
    var ledger := FinalLedger(p, c);
    if ledger.tip.Some?
       && (block.header.blockId < ledger.tip.value.blockId || ledger.tip.value == TipOf(block))
    then (c, AlreadyApplied)
    else
      match Extend(p, ledger, block)
      case Ok(_) =>
        (c.(final := c.final + [Entry(msg, block)], head := [], stall := None), Applied)
      case Err(e) => (c.(stall := RecordStall(c.stall, block, l1Slot, e)), Parked(e))
  }

  function Finalize(p: Protocol, c: Chain, msg: MsgId, block: Block, l1Slot: nat): (Chain, AcceptOutcome) {
    match HeadPosition(c.head, msg, block)
    case Some(i) => (FinalizeThrough(c, i), Applied)
    case None => FinalizeDirect(p, FinalizeParent(c, block), msg, block, l1Slot)
  }

  /** The message id a restored entry carries, derived from the block hash. */
  function Sentinel(block: Block): MsgId {
    MsgId(block.header.hash.bytes)
  }

  /** Rebuilds one head entry from a persisted block. */
  function Restore(p: Protocol, c: Chain, block: Block): Result<Chain, BlockIngestError> {
    match Extend(p, HeadLedger(p, c), block)
    case Ok(_) => Ok(Push(c, |c.head|, Entry(Sentinel(block), block)))
    case Err(e) => Err(e)
  }

  /** The node is reopened on its persisted final ledger: the head and the stall record are gone. */
  function Reopen(c: Chain): Chain {
    c.(head := [], stall := None)
  }

  /** A chain on a persisted ledger, nothing in head. */
  function FromFinal(ledger: Ledger): Chain {
    Chain(ledger, [], [], None)
  }

  function New(initial: V03State): Chain {
    FromFinal(Ledger(initial, None))
  }
}
