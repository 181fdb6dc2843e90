/**
 * What a block does, said without the step function: which blocks apply, which state they lead
 * to, and what is reported of the others.
 */
module BlockEffects {
  import opened Prelude
  import opened Blocks
  import opened Apply

  /** The transaction's own transition takes one state to the other. */
  predicate Transits(p: Protocol, tx: LeeTransaction, blockId: nat, timestamp: nat, s: V03State, s': V03State) {
    match tx
    case Public(t) => p.publicTransition(s, t, blockId, timestamp) == Ok(s')
    case PrivacyPreserving(t) => p.privateTransition(s, t, blockId, timestamp) == Ok(s')
    case ProgramDeployment(t) => p.deployTransition(s, t) == Ok(s')
  }

  /** The transaction's own transition fails on the state for this reason. */
  predicate Refuses(p: Protocol, tx: LeeTransaction, blockId: nat, timestamp: nat, s: V03State, reason: string) {
    match tx
    case Public(t) => p.publicTransition(s, t, blockId, timestamp) == Err(reason)
    case PrivacyPreserving(t) => p.privateTransition(s, t, blockId, timestamp) == Err(reason)
    case ProgramDeployment(t) => p.deployTransition(s, t) == Err(reason)
  }

  /** One state before each of the first `k` transactions, and one after the last of them. */
  ghost predicate IsTrace(p: Protocol, block: Block, start: V03State, k: nat, t: seq<V03State>) {
    && k <= |block.transactions| && |t| == k + 1 && t[0] == start
    && forall j :: 0 <= j < k ==>
         Transits(p, block.transactions[j], block.header.blockId, block.header.timestamp, t[j], t[j + 1])
  }

  /** Genesis admits public transactions only. */
  predicate Admitted(block: Block, k: nat)
    requires k <= |block.transactions|
  {
    block.header.blockId == GENESIS_BLOCK_ID ==> forall j :: 0 <= j < k ==> block.transactions[j].Public?
  }

  /** The first `k` transactions are admitted and lead from `start` to `end`. */
  ghost predicate Leads(p: Protocol, block: Block, start: V03State, k: nat, end: V03State) {
    && k <= |block.transactions| && Admitted(block, k)
    && exists t :: IsTrace(p, block, start, k, t) && t[k] == end
  }

  predicate WellHashed(p: Protocol, block: Block) {
    p.RecomputeHash(block) == block.header.hash
  }

  /** The block is the next one above the tip: well hashed, one higher, and linked to it. */
  predicate Continues(p: Protocol, tip: Option<Tip>, block: Block) {
    && WellHashed(p, block)
    && block.header.blockId == Height(tip) + 1
    && (tip.Some? ==> block.header.prevBlockHash == tip.value.hash)
  }

  /** The block ends with the clock transaction of its timestamp. */
  predicate EndsWithClock(p: Protocol, block: Block) {
    var n := |block.transactions|;
    n > 0 && block.transactions[n - 1] == Public(p.clockInvocation(block.header.timestamp))
  }

  // ---- Transaction lists -------------------------------------------------------------------

  lemma ExecuteTransits(p: Protocol, block: Block, k: nat, s: V03State)
    requires k < |block.transactions|
    ensures var tx, id, at := block.transactions[k], block.header.blockId, block.header.timestamp;
            match ApplyUserTx(p, Hashable(block), k, s)
            case Ok(s') => Transits(p, tx, id, at, s, s') && (id == GENESIS_BLOCK_ID ==> tx.Public?)
            case Err(StateTransition(i, reason)) =>
              i == k && Refuses(p, tx, id, at, s, reason) && (id == GENESIS_BLOCK_ID ==> tx.Public?)
            case Err(e) => e == NonPublicGenesisTransaction && id == GENESIS_BLOCK_ID && !tx.Public?
  {
  }

  lemma TraceSnoc(p: Protocol, block: Block, start: V03State, k: nat, t: seq<V03State>, s: V03State)
    requires k < |block.transactions| && IsTrace(p, block, start, k, t)
    requires Transits(p, block.transactions[k], block.header.blockId, block.header.timestamp, t[k], s)
    ensures IsTrace(p, block, start, k + 1, t + [s])
  {
    hide Transits;
  }

  lemma TracePrefix(p: Protocol, block: Block, start: V03State, k: nat, t: seq<V03State>)
    requires IsTrace(p, block, start, k + 1, t)
    ensures IsTrace(p, block, start, k, t[..k + 1]) && t[..k + 1][k] == t[k]
    ensures Transits(p, block.transactions[k], block.header.blockId, block.header.timestamp, t[k], t[k + 1])
  {
    hide Transits;
  }

  /** The loop over the first `k` transactions succeeds exactly along a trace. */
  lemma {:induction false} LeadsIff(p: Protocol, block: Block, start: V03State, k: nat, end: V03State)
    requires k <= |block.transactions|
    ensures ApplyUserTxs(p, Hashable(block), k, start) == Ok(end) <==> Leads(p, block, start, k, end)
    decreases k
  {
    hide Transits, ApplyUserTx;
    if k == 0 {
      assert IsTrace(p, block, start, 0, [start]);
    } else {
      var r := ApplyUserTxs(p, Hashable(block), k - 1, start);
      if ApplyUserTxs(p, Hashable(block), k, start) == Ok(end) {
        LeadsIff(p, block, start, k - 1, r.value);
        var t :| IsTrace(p, block, start, k - 1, t) && t[k - 1] == r.value;
        ExecuteTransits(p, block, k - 1, r.value);
        TraceSnoc(p, block, start, k - 1, t, end);
        assert IsTrace(p, block, start, k, t + [end]) && (t + [end])[k] == end;
      }
      if Leads(p, block, start, k, end) {
        var t :| IsTrace(p, block, start, k, t) && t[k] == end;
        TracePrefix(p, block, start, k - 1, t);
        LeadsIff(p, block, start, k - 1, t[k - 1]);
        ExecuteTransits(p, block, k - 1, t[k - 1]);
        TransitsOnce(p, block.transactions[k - 1], block.header.blockId, block.header.timestamp, t[k - 1]);
      }
    }
  }

  /** A transition has one outcome. */
  lemma TransitsOnce(p: Protocol, tx: LeeTransaction, blockId: nat, timestamp: nat, s: V03State)
    ensures forall a, b ::
              Transits(p, tx, blockId, timestamp, s, a) && Transits(p, tx, blockId, timestamp, s, b) ==> a == b
    ensures forall a, r :: Transits(p, tx, blockId, timestamp, s, a) ==> !Refuses(p, tx, blockId, timestamp, s, r)
    ensures forall q, r ::
              Refuses(p, tx, blockId, timestamp, s, q) && Refuses(p, tx, blockId, timestamp, s, r) ==> q == r
  {
  }

  /** Once the clock transaction is in place, it is one more transaction of the list. */
  lemma WholeList(p: Protocol, block: Block, start: V03State)
    requires EndsWithClock(p, block)
    ensures ApplyToState(p, Hashable(block), start) ==
            ApplyUserTxs(p, Hashable(block), |block.transactions|, start)
  {
  }

  lemma ValidatedIff(p: Protocol, tip: Option<Tip>, block: Block)
    ensures ValidateAgainstTip(p, tip, block).None? <==> Continues(p, tip, block)
  {
  }

  // ---- Blocks ------------------------------------------------------------------------------

  /**
   * A block applies, and leads to this ledger, if and only if it continues the tip, ends with
   * its clock transaction, and its transactions, the clock included, lead from state to state.
   */
  lemma BlockAppliesIff(p: Protocol, ledger: Ledger, block: Block, next: Ledger)
    ensures Extend(p, ledger, block) == Ok(next) <==>
            && Continues(p, ledger.tip, block)
            && EndsWithClock(p, block)
            && Leads(p, block, ledger.state, |block.transactions|, next.state)
            && next.tip == Some(TipOf(block))
  {
    hide ApplyUserTxs, Leads, ValidateAgainstTip, Continues;
    ValidatedIff(p, ledger.tip, block);
    if EndsWithClock(p, block) {
      WholeList(p, block, ledger.state);
      LeadsIff(p, block, ledger.state, |block.transactions|, next.state);
    }
  }

  /** The error is the one of the first check that fails, in the order the checks are made. */
  ghost predicate Reports(p: Protocol, ledger: Ledger, block: Block, error: BlockIngestError) {
    var header, tip, txs := block.header, ledger.tip, block.transactions;
    match error
    case HashMismatch(computed, claimed) =>
      computed == p.RecomputeHash(block) && claimed == header.hash && computed != claimed
    case UnexpectedBlockId(expected, got) =>
      WellHashed(p, block) && expected == Height(tip) + 1 && got == header.blockId && expected != got
    case BrokenChainLink(expected, got) =>
      && WellHashed(p, block) && header.blockId == Height(tip) + 1
      && tip.Some? && expected == tip.value.hash && got == header.prevBlockHash && expected != got
    case EmptyBlock => Continues(p, tip, block) && txs == []
    case InvalidClockTransaction => Continues(p, tip, block) && txs != [] && !EndsWithClock(p, block)
    case NonPublicGenesisTransaction =>
      && Continues(p, tip, block) && EndsWithClock(p, block) && header.blockId == GENESIS_BLOCK_ID
      && exists k, s :: 0 <= k < |txs| && Leads(p, block, ledger.state, k, s) && !txs[k].Public?
    case StateTransition(i, reason) =>
      && Continues(p, tip, block) && EndsWithClock(p, block)
      && i < |txs| && (header.blockId == GENESIS_BLOCK_ID ==> txs[i].Public?)
      && exists s :: Leads(p, block, ledger.state, i, s)
                     && Refuses(p, txs[i], header.blockId, header.timestamp, s, reason)
  }

  /** A failing list fails at its first transaction that is not admitted or does not transit. */
  lemma {:induction false} FirstFailure(p: Protocol, block: Block, start: V03State, n: nat)
    returns (k: nat, s: V03State)
    requires n <= |block.transactions| && ApplyUserTxs(p, Hashable(block), n, start).Err?
    ensures k < n && ApplyUserTxs(p, Hashable(block), k, start) == Ok(s)
    ensures ApplyUserTx(p, Hashable(block), k, s) == ApplyUserTxs(p, Hashable(block), n, start)
    decreases n
  {
    hide ApplyUserTx;
    var r := ApplyUserTxs(p, Hashable(block), n - 1, start);
    if r.Ok? {
      return n - 1, r.value;
    }
    k, s := FirstFailure(p, block, start, n - 1);
  }

  /** An error of the list, reported at the transaction that failed. */
  lemma ListReports(p: Protocol, block: Block, ledger: Ledger, error: BlockIngestError)
    requires EndsWithClock(p, block) && Continues(p, ledger.tip, block)
    requires ApplyUserTxs(p, Hashable(block), |block.transactions|, ledger.state) == Err(error)
    ensures error.StateTransition? || error == NonPublicGenesisTransaction
    ensures Reports(p, ledger, block, error)
  {
    hide ApplyUserTxs, ApplyUserTx, Leads, Refuses, Transits, Continues;
    var k, s := FirstFailure(p, block, ledger.state, |block.transactions|);
    LeadsIff(p, block, ledger.state, k, s);
    ExecuteTransits(p, block, k, s);
  }

  /** And conversely: what is reported of a list is what it fails with. */
  lemma ListFails(p: Protocol, block: Block, ledger: Ledger, error: BlockIngestError)
    requires error.StateTransition? || error == NonPublicGenesisTransaction
    requires Reports(p, ledger, block, error)
    ensures ApplyUserTxs(p, Hashable(block), |block.transactions|, ledger.state) == Err(error)
  {
    hide ApplyUserTxs, ApplyUserTx, Leads, Refuses, Transits, Continues;
    var txs, header := block.transactions, block.header;
    var k, s;
    if error.StateTransition? {
      k := error.txIndex;
      s :| Leads(p, block, ledger.state, k, s) && Refuses(p, txs[k], header.blockId, header.timestamp, s, error.reason);
    } else {
      k, s :| 0 <= k < |txs| && Leads(p, block, ledger.state, k, s) && !txs[k].Public?;
    }
    LeadsIff(p, block, ledger.state, k, s);
    ExecuteTransits(p, block, k, s);
    TransitsOnce(p, txs[k], header.blockId, header.timestamp, s);
    FailsNext(p, block, ledger.state, k, s);
    ApplyUserTxsStops(p, Hashable(block), k + 1, |txs|, ledger.state);
  }

  lemma FailsNext(p: Protocol, block: Block, start: V03State, k: nat, s: V03State)
    requires k < |block.transactions| && ApplyUserTxs(p, Hashable(block), k, start) == Ok(s)
    ensures ApplyUserTxs(p, Hashable(block), k + 1, start) == ApplyUserTx(p, Hashable(block), k, s)
  {
    hide ApplyUserTx;
  }

  /** A block fails with an error if and only if that error is what is to be reported of it. */
  lemma BlockFailsIff(p: Protocol, ledger: Ledger, block: Block, error: BlockIngestError)
    ensures Extend(p, ledger, block) == Err(error) <==> Reports(p, ledger, block, error)
  {
    hide ApplyUserTxs, Leads, Refuses;
    ValidatedIff(p, ledger.tip, block);
    if EndsWithClock(p, block) && Continues(p, ledger.tip, block) {
      WholeList(p, block, ledger.state);
      var r := ApplyUserTxs(p, Hashable(block), |block.transactions|, ledger.state);
      if r == Err(error) {
        ListReports(p, block, ledger, error);
      }
      if Reports(p, ledger, block, error) && (error.StateTransition? || error == NonPublicGenesisTransaction) {
        ListFails(p, block, ledger, error);
      }
      if r.Err? {
        ListReports(p, block, ledger, r.error);
      }
    }
  }
}
