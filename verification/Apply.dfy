/** Validate-then-apply: the one step function shared by both tiers of the chain. */
module Apply {
  import opened Prelude
  import opened Blocks

  const GENESIS_BLOCK_ID: nat := 1

  datatype Tip = Tip(blockId: nat, hash: HashType)

  function TipOf(block: Block): Tip {
    Tip(block.header.blockId, block.header.hash)
  }

  datatype BlockIngestError =
    | UnexpectedBlockId(expected: nat, got: nat)
    | BrokenChainLink(expectedPrev: HashType, gotPrev: HashType)
    | HashMismatch(computed: HashType, header: HashType)
    | EmptyBlock
    | InvalidClockTransaction
    | NonPublicGenesisTransaction
    | StateTransition(txIndex: nat, reason: string)

  datatype AcceptOutcome = Applied | AlreadyApplied | Parked(error: BlockIngestError)

  /** Hash integrity, then id continuity, then the link to the parent. */
  function ValidateAgainstTip(p: Protocol, tip: Option<Tip>, block: Block): Option<BlockIngestError> {
    var computed := p.RecomputeHash(block);
    if computed != block.header.hash then
      Some(HashMismatch(computed, block.header.hash))
    else
      match tip
      case None =>
        if block.header.blockId != GENESIS_BLOCK_ID then
          Some(UnexpectedBlockId(GENESIS_BLOCK_ID, block.header.blockId))
        else None
      case Some(t) =>
        if block.header.blockId != t.blockId + 1 then
          Some(UnexpectedBlockId(t.blockId + 1, block.header.blockId))
        else if block.header.prevBlockHash != t.hash then
          Some(BrokenChainLink(t.hash, block.header.prevBlockHash))
        else None
  }

  /** One user transaction; the genesis block admits public ones only. */
  function ApplyUserTx(p: Protocol, data: HashableBlockData, index: nat, state: V03State)
    : Result<V03State, BlockIngestError>
    requires index < |data.transactions|
  {
    var tx := data.transactions[index];
    if data.blockId == GENESIS_BLOCK_ID && !tx.Public? then
      Err(NonPublicGenesisTransaction)
    else
      match p.Execute(state, tx, data.blockId, data.timestamp)
      case Ok(s) => Ok(s)
      case Err(reason) => Err(StateTransition(index, reason))
  }

  /** The first `count` transactions in order, stopping at the first failure. */
  function ApplyUserTxs(p: Protocol, data: HashableBlockData, count: nat, state: V03State)
    : Result<V03State, BlockIngestError>
    requires count <= |data.transactions|
  {
    if count == 0 then Ok(state)
    else
      match ApplyUserTxs(p, data, count - 1, state)
      case Err(e) => Err(e)
      case Ok(s) => ApplyUserTx(p, data, count - 1, s)
  }

  /** A block's whole effect on a state. Only the hashed fields are read. */
  function ApplyToState(p: Protocol, data: HashableBlockData, state: V03State)
    : Result<V03State, BlockIngestError>
  {
    var n := |data.transactions|;
    if n == 0 then Err(EmptyBlock)
    else if data.transactions[n - 1] != Public(p.clockInvocation(data.timestamp)) then
      Err(InvalidClockTransaction)
    else
      match ApplyUserTxs(p, data, n - 1, state)
      case Err(e) => Err(e)
      case Ok(s) =>
        match p.Execute(s, data.transactions[n - 1], data.blockId, data.timestamp)
        case Ok(s') => Ok(s')
        case Err(reason) => Err(StateTransition(n - 1, reason))
  }

  function ApplyBlock(p: Protocol, tip: Option<Tip>, block: Block, state: V03State)
    : Result<V03State, BlockIngestError>
  {
    match ValidateAgainstTip(p, tip, block)
    case Some(e) => Err(e)
    case None => ApplyToState(p, Hashable(block), state)
  }

  /** A state together with the tip it was reached at. */
  datatype Ledger = Ledger(state: V03State, tip: Option<Tip>)

  function Extend(p: Protocol, ledger: Ledger, block: Block): Result<Ledger, BlockIngestError> {
    match ApplyBlock(p, ledger.tip, block, ledger.state)
    case Ok(s) => Ok(Ledger(s, Some(TipOf(block))))
    case Err(e) => Err(e)
  }

  /** An earlier failure decides the outcome of the whole transaction list. */
  lemma {:induction false} ApplyUserTxsStops(p: Protocol, data: HashableBlockData, k: nat, n: nat, state: V03State)
    requires k <= n <= |data.transactions|
    requires ApplyUserTxs(p, data, k, state).Err?
    ensures ApplyUserTxs(p, data, n, state) == ApplyUserTxs(p, data, k, state)
    decreases n
  {
    if k < n {
      ApplyUserTxsStops(p, data, k, n - 1, state);
    }
  }

  /** The state a failed block leaves behind: that of the transactions before the failing one. */
  ghost predicate PartialState(p: Protocol, data: HashableBlockData, state0: V03State, error: BlockIngestError,
                               state: V03State)
  {
    match error
    case StateTransition(i, _) =>
      i < |data.transactions| && ApplyUserTxs(p, data, i, state0) == Ok(state)
    case NonPublicGenesisTransaction =>
      exists k :: 0 <= k < |data.transactions| && !data.transactions[k].Public?
                  && ApplyUserTxs(p, data, k, state0) == Ok(state)
    case _ => state == state0
  }

  /**
   * The in-place form: loops over the transactions and returns the state it has reached.
   * On failure that state is partial, which is why callers pass a scratch copy.
   */
  method ApplyBlockInPlace(p: Protocol, tip: Option<Tip>, block: Block, state0: V03State)
    returns (failure: Option<BlockIngestError>, state: V03State)
    ensures match Extend(p, Ledger(state0, tip), block)
            case Ok(next) => failure == None && next == Ledger(state, Some(TipOf(block)))
            case Err(e) => failure == Some(e) && PartialState(p, Hashable(block), state0, e, state)
  {
    state := state0;
    failure := ValidateAgainstTip(p, tip, block);
    if failure.Some? {
      return;
    }
    var txs := block.transactions;
    if |txs| == 0 {
      return Some(EmptyBlock), state;
    }
    var last := |txs| - 1;
    if !txs[last].Public? || txs[last].public != p.clockInvocation(block.header.timestamp) {
      return Some(InvalidClockTransaction), state;
    }
    var isGenesis := block.header.blockId == GENESIS_BLOCK_ID;
    for i := 0 to last
      invariant ApplyUserTxs(p, Hashable(block), i, state0) == Ok(state)
    {
      var r: Result<V03State, string>;
      if isGenesis {
        if !txs[i].Public? {
          ApplyUserTxsStops(p, Hashable(block), i + 1, last, state0);
          return Some(NonPublicGenesisTransaction), state;
        }
        r := p.publicTransition(state, txs[i].public, block.header.blockId, block.header.timestamp);
      } else {
        r := p.Execute(state, txs[i], block.header.blockId, block.header.timestamp);
      }
      if r.Err? {
        ApplyUserTxsStops(p, Hashable(block), i + 1, last, state0);
        return Some(StateTransition(i, r.error)), state;
      }
      state := r.value;
    }
    var r := p.publicTransition(state, txs[last].public, block.header.blockId, block.header.timestamp);
    if r.Err? {
      return Some(StateTransition(last, r.error)), state;
    }
    state := r.value;
  }

  /** A block plus the channel message that carried it. */
  datatype Entry = Entry(thisMsg: MsgId, block: Block)

  /** Replays the blocks of `log` from `base`, or `None` if one of them does not apply. */
  function Replay(p: Protocol, base: Ledger, log: seq<Entry>): (r: Option<Ledger>)
    ensures r.Some? && log != [] ==> r.value.tip == Some(TipOf(log[|log| - 1].block))
  {
    if log == [] then Some(base)
    else
      var n := |log| - 1;
      match Replay(p, base, log[..n])
      case None => None
      case Some(ledger) =>
        match Extend(p, ledger, log[n].block)
        case Ok(next) => Some(next)
        case Err(_) => None
  }

  /** The ledger a log leads to; meaningful when the log replays. */
  function After(p: Protocol, base: Ledger, log: seq<Entry>): (r: Ledger)
    ensures Replay(p, base, log).Some? ==> Replay(p, base, log) == Some(r)
  {
    match Replay(p, base, log) case Some(l) => l case None => base
  }

  /** Height of a tip; the empty chain has height zero, so genesis is at height one. */
  function Height(tip: Option<Tip>): nat {
    match tip case None => 0 case Some(t) => t.blockId
  }

  lemma ReplaySnoc(p: Protocol, base: Ledger, log: seq<Entry>, entry: Entry)
    ensures Replay(p, base, log + [entry]) ==
            match Replay(p, base, log)
            case None => None
            case Some(l) =>
              match Extend(p, l, entry.block)
              case Ok(next) => Some(next)
              case Err(_) => None
  {
    var all := log + [entry];
    assert all[..|all| - 1] == log;
  }

  /** Every prefix of a log that replays, replays. */
  lemma {:induction false} ReplayPrefix(p: Protocol, base: Ledger, log: seq<Entry>, k: nat)
    requires k <= |log|
    requires Replay(p, base, log).Some?
    ensures Replay(p, base, log[..k]).Some?
    decreases |log|
  {
    var n := |log| - 1;
    if k <= n {
      ReplayPrefix(p, base, log[..n], k);
      assert log[..n][..k] == log[..k];
    } else {
      assert log[..k] == log;
    }
  }

  /** Replaying in two stages is replaying in one. */
  lemma {:induction false} ReplayConcat(p: Protocol, base: Ledger, a: seq<Entry>, b: seq<Entry>)
    ensures Replay(p, base, a + b) ==
            match Replay(p, base, a) case None => None case Some(l) => Replay(p, l, b)
    decreases |b|
  {
    if b == [] {
      assert a + b == a;
    } else {
      var n := |b| - 1;
      ReplayConcat(p, base, a, b[..n]);
      assert (a + b[..n]) + [b[n]] == a + b;
      ReplaySnoc(p, base, a + b[..n], b[n]);
    }
  }

  /** A block applies only one above the ledger it extends, well hashed and linked to its tip. */
  lemma ExtendLinks(p: Protocol, ledger: Ledger, block: Block)
    requires Extend(p, ledger, block).Ok?
    ensures block.header.blockId == Height(ledger.tip) + 1
    ensures p.RecomputeHash(block) == block.header.hash
    ensures ledger.tip.Some? ==> block.header.prevBlockHash == ledger.tip.value.hash
    ensures Extend(p, ledger, block).value.tip == Some(TipOf(block))
  {
  }

  /** In a log that replays, block k sits k + 1 above the base and is linked to block k - 1. */
  lemma {:induction false} ReplayContiguous(p: Protocol, base: Ledger, log: seq<Entry>)
    requires Replay(p, base, log).Some?
    ensures forall k :: 0 <= k < |log| ==>
              && log[k].block.header.blockId == Height(base.tip) + 1 + k
              && p.RecomputeHash(log[k].block) == log[k].block.header.hash
    ensures forall k :: 0 < k < |log| ==>
              log[k].block.header.prevBlockHash == log[k - 1].block.header.hash
    ensures Height(Replay(p, base, log).value.tip) == Height(base.tip) + |log|
    decreases |log|
  {
    if log != [] {
      hide Extend;
      var n := |log| - 1;
      ReplayContiguous(p, base, log[..n]);
      ExtendLinks(p, Replay(p, base, log[..n]).value, log[n].block);
      forall k | 0 <= k < n
        ensures log[..n][k] == log[k]
      {
      }
    }
  }
}
