/** Accounts, program outputs, and what counts as a well-behaved program execution. */
module Programs {
  import opened Prelude

  type U128 = x: int | 0 <= x < 0x1_0000000000000000_0000000000000000
  const TWO_128: nat := 0x1_0000000000000000_0000000000000000

  datatype ProgramId = ProgramId(words: Bytes32)
  datatype AccountId = AccountId(value: Bytes32)
  datatype PdaSeed = PdaSeed(value: Bytes32)

  const DEFAULT_PROGRAM_ID: ProgramId := ProgramId(0)
  const MAX_NUMBER_CHAINED_CALLS: nat := 10

  datatype Account = Account(programOwner: ProgramId, balance: U128, data: seq<bv8>, nonce: U128)

  const DEFAULT_ACCOUNT: Account := Account(DEFAULT_PROGRAM_ID, 0, [], 0)

  datatype AccountWithMetadata = AccountWithMetadata(account: Account, isAuthorized: bool, accountId: AccountId)

  datatype Claim = Authorized | Pda(seed: PdaSeed)

  datatype AccountPostState = AccountPostState(account: Account, claim: Option<Claim>)

  datatype ChainedCall = ChainedCall(
    programId: ProgramId,
    preStates: seq<AccountWithMetadata>,
    instructionData: seq<nat>,
    pdaSeeds: seq<PdaSeed>)

  /** Inclusive lower and exclusive upper bound, either of them optional. */
  datatype ValidityWindow = ValidityWindow(from: Option<nat>, to: Option<nat>) {
    predicate IsValidFor(v: nat) {
      (from.Some? ==> from.value <= v) && (to.Some? ==> v < to.value)
    }

    /** The constructor's check: only two set bounds can be rejected. */
    predicate Accepted() {
      !(from.Some? && to.Some? && from.value >= to.value)
    }
  }

  datatype ProgramOutput = ProgramOutput(
    selfProgramId: ProgramId,
    callerProgramId: Option<ProgramId>,
    instructionData: seq<nat>,
    preStates: seq<AccountWithMetadata>,
    postStates: seq<AccountPostState>,
    chainedCalls: seq<ChainedCall>,
    blockWindow: ValidityWindow,
    timestampWindow: ValidityWindow)

  // ---- Sums of balances --------------------------------------------------------------------

  function Total(balances: seq<U128>): nat {
    if balances == [] then 0 else Total(balances[..|balances| - 1]) + balances[|balances| - 1]
  }

  /** A sum kept as `lo + hi * 2^128`. */
  datatype WrappedBalanceSum = WrappedBalanceSum(lo: U128, hi: U128)

  lemma {:induction false} TotalMonotone(balances: seq<U128>, k: nat)
    requires k <= |balances|
    ensures Total(balances[..k]) <= Total(balances)
    decreases |balances|
  {
    if k < |balances| {
      var n := |balances| - 1;
      TotalMonotone(balances[..n], k);
      assert balances[..n][..k] == balances[..k];
    } else {
      assert balances[..k] == balances;
    }
  }

  /**
   * Overflow-counting addition. It gives up exactly when the true sum leaves 256 bits, and
   * otherwise represents it, so comparing two results compares the true sums.
   */
  method SumBalances(balances: seq<U128>) returns (r: Option<WrappedBalanceSum>)
    ensures r.Some? <==> Total(balances) < TWO_128 * TWO_128
    ensures r.Some? ==> r.value.lo + r.value.hi * TWO_128 == Total(balances)
  {
    var wrapped := WrappedBalanceSum(0, 0);
    assert balances[..0] == [];
    for i := 0 to |balances|
      invariant wrapped.lo + wrapped.hi * TWO_128 == Total(balances[..i])
    {
      assert balances[..i + 1][..i] == balances[..i];
      TotalMonotone(balances, i + 1);
      var sum := wrapped.lo + balances[i];
      if sum < TWO_128 {
        wrapped := wrapped.(lo := sum);
      } else {
        if wrapped.hi + 1 == TWO_128 {
          return None;
        }
        wrapped := WrappedBalanceSum(sum - TWO_128, wrapped.hi + 1);
      }
    }
    assert balances[..|balances|] == balances;
    return Some(wrapped);
  }

  /** The representation is unique: equal pairs, equal sums, and the other way round. */
  lemma WrappedSumsCompare(a: WrappedBalanceSum, b: WrappedBalanceSum)
    ensures a == b <==> a.lo + a.hi * TWO_128 == b.lo + b.hi * TWO_128
  {
    if a.lo + a.hi * TWO_128 == b.lo + b.hi * TWO_128 {
      assert (a.hi - b.hi) * TWO_128 == b.lo - a.lo;
    }
  }

  function PreBalances(pre: seq<AccountWithMetadata>): (r: seq<U128>)
    ensures |r| == |pre| && forall i :: 0 <= i < |r| ==> r[i] == pre[i].account.balance
  {
    seq(|pre|, i requires 0 <= i < |pre| => pre[i].account.balance)
  }

  function PostBalances(post: seq<AccountPostState>): (r: seq<U128>)
    ensures |r| == |post| && forall i :: 0 <= i < |r| ==> r[i] == post[i].account.balance
  {
    seq(|post|, i requires 0 <= i < |post| => post[i].account.balance)
  }

  // ---- Well-behaved execution --------------------------------------------------------------

  predicate DistinctIds(pre: seq<AccountWithMetadata>) {
    forall i, j :: 0 <= i < j < |pre| ==> pre[i].accountId != pre[j].accountId
  }

  /** What a program may do to one account. */
  predicate ChangeAllowed(pre: Account, post: Account, program: ProgramId) {
    && pre.nonce == post.nonce
    && pre.programOwner == post.programOwner
    && (post.balance < pre.balance ==> pre.programOwner == program)
    && (pre.data != post.data ==> pre == DEFAULT_ACCOUNT || pre.programOwner == program)
    && (post.programOwner == DEFAULT_PROGRAM_ID ==> pre == DEFAULT_ACCOUNT)
  }

  /**
   * Who may do what. A program has its own accounts to itself, nonce and owner apart. To any
   * other owned account it can only add balance. The default account takes any balance and data.
   * An account with contents but no owner cannot be passed to a program at all.
   */
  predicate MayChange(pre: Account, post: Account, program: ProgramId) {
    if pre == DEFAULT_ACCOUNT then
      post.nonce == 0 && post.programOwner == DEFAULT_PROGRAM_ID
    else if pre.programOwner == DEFAULT_PROGRAM_ID then false
    else if pre.programOwner == program then
      post == pre.(balance := post.balance, data := post.data)
    else
      post == pre.(balance := post.balance) && post.balance >= pre.balance
  }

  predicate WellBehaved(pre: seq<AccountWithMetadata>, post: seq<AccountPostState>, program: ProgramId) {
    && DistinctIds(pre)
    && |pre| == |post|
    && (forall i :: 0 <= i < |pre| ==> ChangeAllowed(pre[i].account, post[i].account, program))
    && Total(PreBalances(pre)) == Total(PostBalances(post)) < TWO_128 * TWO_128
  }

  /**
   * The rules of an execution together say: no account twice, one post state for each, every
   * change one its program may make, and no balance made or lost.
   */
  lemma WellBehavedIff(pre: seq<AccountWithMetadata>, post: seq<AccountPostState>, program: ProgramId)
    ensures WellBehaved(pre, post, program) <==>
            && (forall i, j :: 0 <= i < j < |pre| ==> pre[i].accountId != pre[j].accountId)
            && |post| == |pre|
            && (forall i :: 0 <= i < |pre| ==> MayChange(pre[i].account, post[i].account, program))
            && Total(seq(|pre|, i requires 0 <= i < |pre| => pre[i].account.balance))
               == Total(seq(|post|, i requires 0 <= i < |post| => post[i].account.balance))
            && Total(seq(|pre|, i requires 0 <= i < |pre| => pre[i].account.balance)) < TWO_128 * TWO_128
  {
    assert forall a, b :: ChangeAllowed(a, b, program) == MayChange(a, b, program);
    assert PreBalances(pre) == seq(|pre|, i requires 0 <= i < |pre| => pre[i].account.balance);
    assert PostBalances(post) == seq(|post|, i requires 0 <= i < |post| => post[i].account.balance);
  }

  datatype ExecutionValidationError =
    | PreStateAccountIdsNotUnique
    | MismatchedPreStatePostStateLength(preLength: nat, postLength: nat)
    | ModifiedNonce(accountId: AccountId)
    | ModifiedProgramOwner(accountId: AccountId)
    | UnauthorizedBalanceDecrease(accountId: AccountId, owner: ProgramId, executing: ProgramId)
    | UnauthorizedDataModification(accountId: AccountId, executing: ProgramId)
    | NonDefaultAccountWithDefaultOwner(accountId: AccountId)
    | BalanceSumOverflow
    | MismatchedTotalBalance(pre: WrappedBalanceSum, post: WrappedBalanceSum)

  /** The first account changed in a way that is not allowed. */
  predicate FirstOffender(pre: seq<AccountWithMetadata>, post: seq<AccountPostState>, program: ProgramId, k: nat) {
    && k < |pre| == |post| && !ChangeAllowed(pre[k].account, post[k].account, program)
    && forall j :: 0 <= j < k ==> ChangeAllowed(pre[j].account, post[j].account, program)
  }

  /** What a reported error says is the case. */
  ghost predicate Justified(error: ExecutionValidationError, pre: seq<AccountWithMetadata>, post: seq<AccountPostState>,
                            program: ProgramId)
  {
    match error
    case PreStateAccountIdsNotUnique => !DistinctIds(pre)
    case MismatchedPreStatePostStateLength(a, b) => a == |pre| && b == |post| && a != b
    case ModifiedNonce(id) =>
      exists k: nat :: FirstOffender(pre, post, program, k) && pre[k].accountId == id
                  && pre[k].account.nonce != post[k].account.nonce
    case ModifiedProgramOwner(id) =>
      exists k: nat :: FirstOffender(pre, post, program, k) && pre[k].accountId == id
                  && pre[k].account.programOwner != post[k].account.programOwner
    case UnauthorizedBalanceDecrease(id, owner, executing) =>
      exists k: nat :: FirstOffender(pre, post, program, k) && pre[k].accountId == id
                  && post[k].account.balance < pre[k].account.balance
                  && pre[k].account.programOwner == owner != executing == program
    case UnauthorizedDataModification(id, executing) =>
      exists k: nat :: FirstOffender(pre, post, program, k) && pre[k].accountId == id
                  && pre[k].account.data != post[k].account.data
                  && pre[k].account.programOwner != executing == program
    case NonDefaultAccountWithDefaultOwner(id) =>
      exists k: nat :: FirstOffender(pre, post, program, k) && pre[k].accountId == id
                  && pre[k].account != DEFAULT_ACCOUNT && post[k].account.programOwner == DEFAULT_PROGRAM_ID
    case BalanceSumOverflow =>
      Total(PreBalances(pre)) >= TWO_128 * TWO_128 || Total(PostBalances(post)) >= TWO_128 * TWO_128
    case MismatchedTotalBalance(a, b) =>
      a != b && a.lo + a.hi * TWO_128 == Total(PreBalances(pre)) && b.lo + b.hi * TWO_128 == Total(PostBalances(post))
  }

  function IdSet(pre: seq<AccountWithMetadata>): set<AccountId> {
    set i | 0 <= i < |pre| :: pre[i].accountId
  }

  lemma IdSetSnoc(pre: seq<AccountWithMetadata>, last: AccountWithMetadata)
    ensures IdSet(pre + [last]) == IdSet(pre) + {last.accountId}
  {
    var all := pre + [last];
    forall i | 0 <= i < |all|
      ensures all[i].accountId in IdSet(pre) + {last.accountId}
    {
      if i < |pre| {
        assert pre[i].accountId in IdSet(pre);
      }
    }
    forall i | 0 <= i < |pre|
      ensures pre[i].accountId in IdSet(all)
    {
      assert all[i] == pre[i];
    }
    assert all[|pre|] == last;
  }

  lemma DistinctSnoc(pre: seq<AccountWithMetadata>)
    requires pre != []
    ensures var n := |pre| - 1;
            DistinctIds(pre) <==> DistinctIds(pre[..n]) && pre[n].accountId !in IdSet(pre[..n])
  {
    var n := |pre| - 1;
    if pre[n].accountId in IdSet(pre[..n]) {
      var i :| 0 <= i < n && pre[..n][i].accountId == pre[n].accountId;
      assert pre[i].accountId == pre[n].accountId;
    } else {
      forall i | 0 <= i < n
        ensures pre[i].accountId != pre[n].accountId
      {
        assert pre[..n][i].accountId in IdSet(pre[..n]);
      }
    }
  }

  /** Counting distinct ids decides whether ids repeat. */
  lemma {:induction false} IdSetSize(pre: seq<AccountWithMetadata>)
    ensures |IdSet(pre)| <= |pre|
    ensures |IdSet(pre)| == |pre| <==> DistinctIds(pre)
    decreases |pre|
  {
    if pre != [] {
      hide IdSet, DistinctIds;
      var n := |pre| - 1;
      IdSetSize(pre[..n]);
      assert pre == pre[..n] + [pre[n]];
      IdSetSnoc(pre[..n], pre[n]);
      DistinctSnoc(pre);
    }
  }

  /** Passes exactly the well-behaved executions. */
  method ValidateExecution(pre: seq<AccountWithMetadata>, post: seq<AccountPostState>, program: ProgramId)
    returns (failure: Option<ExecutionValidationError>)
    ensures failure == None <==> WellBehaved(pre, post, program)
    ensures failure.Some? ==> Justified(failure.value, pre, post, program)
  {
    IdSetSize(pre);
    if |IdSet(pre)| != |pre| {
      return Some(PreStateAccountIdsNotUnique);
    }
    if |pre| != |post| {
      return Some(MismatchedPreStatePostStateLength(|pre|, |post|));
    }
    for i := 0 to |pre|
      invariant forall k :: 0 <= k < i ==> ChangeAllowed(pre[k].account, post[k].account, program)
    {
      var a, b, id := pre[i].account, post[i].account, pre[i].accountId;
      assert !ChangeAllowed(a, b, program) ==> FirstOffender(pre, post, program, i);
      if a.nonce != b.nonce {
        return Some(ModifiedNonce(id));
      }
      if a.programOwner != b.programOwner {
        return Some(ModifiedProgramOwner(id));
      }
      if b.balance < a.balance && a.programOwner != program {
        return Some(UnauthorizedBalanceDecrease(id, a.programOwner, program));
      }
      if a.data != b.data && a != DEFAULT_ACCOUNT && a.programOwner != program {
        return Some(UnauthorizedDataModification(id, program));
      }
      if b.programOwner == DEFAULT_PROGRAM_ID && a != DEFAULT_ACCOUNT {
        return Some(NonDefaultAccountWithDefaultOwner(id));
      }
    }
    var totalPre := SumBalances(PreBalances(pre));
    if totalPre.None? {
      return Some(BalanceSumOverflow);
    }
    var totalPost := SumBalances(PostBalances(post));
    if totalPost.None? {
      return Some(BalanceSumOverflow);
    }
    WrappedSumsCompare(totalPre.value, totalPost.value);
    if totalPre.value != totalPost.value {
      return Some(MismatchedTotalBalance(totalPre.value, totalPost.value));
    }
    return None;
  }
}
