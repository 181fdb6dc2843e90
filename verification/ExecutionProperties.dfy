/** Bindings, ownership and balances over whole accepted executions. */
module ExecutionProperties {
  import opened Prelude
  import opened Programs
  import opened CallTrees
  import opened Identities
  import opened Execution
  import opened ExecutionSteps
  import opened ExecutionHistory

  // ---- PDA bindings ------------------------------------------------------------------------

  /** Touch `j` resolved its account as `r`: by external seed, caller seed or PDA claim. */
  ghost predicate Resolves(d: Derivations, ids: seq<InputAccountIdentity>, x: Exec, ts: seq<Touch>, j: nat,
                           r: Resolution)
    requires j < |ts|
  {
    var pos := PosOf(x, ts[j].Id());
    || Arrival(d, ids, ts[j], pos, Fresh(ts, j)) == Some(r)
    || ClaimResolution(ids, ts[j], pos) == Some(r)
  }

  /** Every resolution anywhere in the transaction is a true derivation and still on record. */
  lemma {:induction false} ResolutionsRecorded(d: Derivations, ids: seq<InputAccountIdentity>, ts: seq<Touch>, j: nat,
                                               r: Resolution)
    requires Sync(d, ids, EMPTY, ts).Some? && j < |ts|
    requires Resolves(d, ids, Sync(d, ids, EMPTY, ts).value, ts, j, r)
    ensures Recorded(Sync(d, ids, EMPTY, ts).value.bindings, r) && Derives(d, ids, r)
    decreases |ts|
  {
    hide SyncOne, Sync, CallerResolution, ExternalResolution, ClaimResolution, Derives, Recorded, Position, Touched,
      Consistent;
    var n := |ts| - 1;
    var x, y := Unfold(d, ids, ts);
    SeenIffTouched(d, ids, ts[..n]);
    SyncOneResolutions(d, ids, x, ts[n]);
    SyncOneStates(d, ids, x, ts[n]);
    if j < n {
      FreshPrefix(ts, n, j);
      TouchedAt(ts[..n], j);
      PositionsStay(d, ids, x, ts[n], y, ts[j].Id());
      ResolutionsRecorded(d, ids, ts[..n], j, r);
    }
  }

  /**
   * One (program, seed), one account per transaction; one (program, seed) per private position.
   */
  lemma SeedsResolveOnce(d: Derivations, ids: seq<InputAccountIdentity>, ts: seq<Touch>)
    requires Sync(d, ids, EMPTY, ts).Some?
    ensures var x := Sync(d, ids, EMPTY, ts).value;
            forall i, q, j, r :: 0 <= i < |ts| && 0 <= j < |ts|
                                 && Resolves(d, ids, x, ts, i, q) && Resolves(d, ids, x, ts, j, r) ==>
              && (q.program == r.program && q.seed == r.seed ==> q.accountId == r.accountId)
              && (q.position.Some? && q.position == r.position ==> q.program == r.program && q.seed == r.seed)
  {
    hide Sync, Resolves, Derives;
    var x := Sync(d, ids, EMPTY, ts).value;
    forall i, q | 0 <= i < |ts| && Resolves(d, ids, x, ts, i, q)
      ensures Recorded(x.bindings, q)
    {
      ResolutionsRecorded(d, ids, ts, i, q);
    }
  }

  // ---- Ownership ---------------------------------------------------------------------------

  ghost predicate ChangesAllowed(ts: seq<Touch>) {
    forall j :: 0 <= j < |ts| ==> ChangeAllowed(ts[j].pre.account, ts[j].post.account, ts[j].program)
  }

  /** The program that last claimed the account. */
  function Claimer(ts: seq<Touch>, id: AccountId): Option<ProgramId> {
    if ts == [] then None
    else
      var n := |ts| - 1;
      if ts[n].Id() == id && ts[n].post.claim.Some? then Some(ts[n].program) else Claimer(ts[..n], id)
  }

  /** The owner at the end is the last claimer, or the first-seen owner if nobody claimed. */
  lemma {:induction false} OwnerIsClaimer(d: Derivations, ids: seq<InputAccountIdentity>, ts: seq<Touch>, id: AccountId)
    requires Sync(d, ids, EMPTY, ts).Some? && ChangesAllowed(ts) && Touched(ts, id)
    ensures var x := Sync(d, ids, EMPTY, ts).value;
            var pos := PosOf(x, id);
            && id in x.post && pos < |x.pre|
            && x.post[id].programOwner ==
               match Claimer(ts, id) case Some(p) => p case None => x.pre[pos].account.programOwner
    decreases |ts|
  {
    hide SyncOne, Sync, Position, Touched;
    var n := |ts| - 1;
    TouchedNonEmpty(ts, id);
    var x, y := Unfold(d, ids, ts);
    SeenIffTouched(d, ids, ts[..n]);
    SyncOneStates(d, ids, x, ts[n]);
    TouchedSnoc(ts, id);
    if Touched(ts[..n], id) {
      OwnerIsClaimer(d, ids, ts[..n], id);
      PositionsStay(d, ids, x, ts[n], y, id);
    } else {
      ClaimerOfUntouched(ts[..n], id);
    }
  }

  lemma TouchedNonEmpty(ts: seq<Touch>, id: AccountId)
    requires Touched(ts, id)
    ensures ts != []
  {
  }

  lemma {:induction false} ClaimerOfUntouched(ts: seq<Touch>, id: AccountId)
    requires !Touched(ts, id)
    ensures Claimer(ts, id) == None
    decreases |ts|
  {
    if ts != [] {
      TouchedSnoc(ts, id);
      ClaimerOfUntouched(ts[..|ts| - 1], id);
    }
  }

  /** Ownership is written at most once: with real program ids no account is claimed twice. */
  lemma {:induction false} ClaimedAtMostOnce(d: Derivations, ids: seq<InputAccountIdentity>, ts: seq<Touch>,
                                             i: nat, j: nat)
    requires Sync(d, ids, EMPTY, ts).Some? && ChangesAllowed(ts)
    requires forall k :: 0 <= k < |ts| ==> ts[k].program != DEFAULT_PROGRAM_ID
    requires i <= j < |ts| && ts[i].Id() == ts[j].Id()
    requires ts[i].post.claim.Some? && ts[j].post.claim.Some?
    ensures i == j
    decreases |ts|
  {
    hide SyncOne, Sync, Position, Consistent;
    var n := |ts| - 1;
    var x, y := Unfold(d, ids, ts);
    SeenIffTouched(d, ids, ts[..n]);
    SyncOneStates(d, ids, x, ts[n]);
    if j < n {
      ClaimedAtMostOnce(d, ids, ts[..n], i, j);
    } else if i < n {
      TouchedAt(ts[..n], i);
      OwnerIsClaimer(d, ids, ts[..n], ts[i].Id());
      ClaimerOfClaimed(ts[..n], i);
    }
  }

  lemma {:induction false} ClaimerOfClaimed(ts: seq<Touch>, i: nat)
    requires i < |ts| && ts[i].post.claim.Some?
    requires forall k :: 0 <= k < |ts| ==> ts[k].program != DEFAULT_PROGRAM_ID
    ensures Claimer(ts, ts[i].Id()).Some? && Claimer(ts, ts[i].Id()).value != DEFAULT_PROGRAM_ID
    decreases |ts|
  {
    if i < |ts| - 1 {
      ClaimerOfClaimed(ts[..|ts| - 1], i);
    }
  }

  /** A claimed account came in with the default account's contents. */
  lemma ClaimedCameInDefault(d: Derivations, ids: seq<InputAccountIdentity>, ts: seq<Touch>, j: nat)
    requires Sync(d, ids, EMPTY, ts).Some? && ChangesAllowed(ts)
    requires j < |ts| && ts[j].post.claim.Some?
    ensures ts[j].pre.account == DEFAULT_ACCOUNT
  {
    hide SyncOne, Sync, Position, Consistent;
    SyncPrefix(d, ids, EMPTY, ts, j + 1);
    var upTo := ts[..j + 1];
    var x, y := Unfold(d, ids, upTo);
    SeenIffTouched(d, ids, upTo[..j]);
    SyncOneStates(d, ids, x, upTo[j]);
  }

  /**
   * An owned account is safe from everyone but its owner: if no call touching it runs the
   * owning program, it keeps owner, data and nonce, and can only gain balance.
   */
  lemma {:induction false} OnlyOwnerSpends(d: Derivations, ids: seq<InputAccountIdentity>, ts: seq<Touch>,
                                           id: AccountId)
    requires Sync(d, ids, EMPTY, ts).Some? && ChangesAllowed(ts) && Touched(ts, id)
    requires var x := Sync(d, ids, EMPTY, ts).value;
             PosOf(x, id) < |x.pre| && x.pre[PosOf(x, id)].account.programOwner != DEFAULT_PROGRAM_ID
    requires var x := Sync(d, ids, EMPTY, ts).value;
             forall j :: 0 <= j < |ts| && ts[j].Id() == id ==>
               ts[j].program != x.pre[PosOf(x, id)].account.programOwner
    ensures var x := Sync(d, ids, EMPTY, ts).value;
            && id in x.post
            && var first, last := x.pre[PosOf(x, id)].account, x.post[id];
            && last.programOwner == first.programOwner && last.data == first.data && last.nonce == first.nonce
            && last.balance >= first.balance
    decreases |ts|
  {
    hide SyncOne, Sync, Position, Touched;
    TouchedNonEmpty(ts, id);
    var n := |ts| - 1;
    var x, y := Unfold(d, ids, ts);
    SeenIffTouched(d, ids, ts[..n]);
    SyncOneStates(d, ids, x, ts[n]);
    TouchedSnoc(ts, id);
    if Touched(ts[..n], id) {
      PositionsStay(d, ids, x, ts[n], y, id);
      forall j | 0 <= j < n && ts[..n][j].Id() == id
        ensures ts[..n][j].program != x.pre[PosOf(x, id)].account.programOwner
      {
        assert ts[..n][j] == ts[j];
      }
      OnlyOwnerSpends(d, ids, ts[..n], id);
    }
  }

  // ---- Balances ----------------------------------------------------------------------------

  function SumPre(pre: seq<AccountWithMetadata>): nat {
    if pre == [] then 0 else SumPre(pre[..|pre| - 1]) + pre[|pre| - 1].account.balance
  }

  function BalanceIn(post: map<AccountId, Account>, id: AccountId): nat {
    if id in post then post[id].balance else 0
  }

  /** The balances the listed accounts end with. */
  function SumPost(pre: seq<AccountWithMetadata>, post: map<AccountId, Account>): nat {
    if pre == [] then 0 else SumPost(pre[..|pre| - 1], post) + BalanceIn(post, pre[|pre| - 1].accountId)
  }

  /** Updating one post state changes the sum by exactly that account's difference. */
  lemma {:induction false} SumPostUpdate(pre: seq<AccountWithMetadata>, post: map<AccountId, Account>,
                                         id: AccountId, a: Account)
    requires DistinctIds(pre)
    ensures SumPost(pre, post[id := a]) ==
            SumPost(pre, post) + if Position(pre, id).Some? then a.balance - BalanceIn(post, id) else 0
    decreases |pre|
  {
    if pre != [] {
      var n := |pre| - 1;
      SumPostUpdate(pre[..n], post, id, a);
      FirstIndexPrefix(pre, (b: AccountWithMetadata) => b.accountId == id, n);
    }
  }

  /** The net gain of a list of touches. */
  function Delta(ts: seq<Touch>): int {
    if ts == [] then 0
    else
      var t := ts[|ts| - 1];
      Delta(ts[..|ts| - 1]) + t.post.account.balance - t.pre.account.balance
  }

  /** Threading telescopes: what the accounts gain overall is what the touches gain in sum. */
  lemma {:induction false} GainsTelescope(d: Derivations, ids: seq<InputAccountIdentity>, ts: seq<Touch>)
    requires Sync(d, ids, EMPTY, ts).Some?
    ensures var x := Sync(d, ids, EMPTY, ts).value;
            SumPost(x.pre, x.post) - SumPre(x.pre) == Delta(ts)
    decreases |ts|
  {
    if ts != [] {
      hide SyncOne, Sync, Position, Touched;
      var n := |ts| - 1;
      var x, y := Unfold(d, ids, ts);
      GainsTelescope(d, ids, ts[..n]);
      SeenIffTouched(d, ids, ts[..n]);
      SyncOneStates(d, ids, x, ts[n]);
      SumPostUpdate(y.pre, x.post, ts[n].Id(), ts[n].Settled());
      if ts[n].Id() !in x.post {
        assert y.pre[..|x.pre|] == x.pre;
      }
    }
  }

  lemma {:induction false} DeltaConcat(a: seq<Touch>, b: seq<Touch>)
    ensures Delta(a + b) == Delta(a) + Delta(b)
    decreases |b|
  {
    if b == [] {
      assert a + b == a;
    } else {
      var n := |b| - 1;
      var all := a + b;
      assert all[..|all| - 1] == a + b[..n];
      DeltaConcat(a, b[..n]);
    }
  }

  /** One well-behaved call neither makes nor loses balance. */
  lemma CallConserves(v: Visit)
    requires WellBehaved(v.output.preStates, v.output.postStates, v.call.programId)
    ensures Delta(TouchesOf(v)) == 0
  {
    var n := |v.output.preStates|;
    PartialDelta(v, n);
    assert TouchesOf(v)[..n] == TouchesOf(v);
    assert PreBalances(v.output.preStates)[..n] == PreBalances(v.output.preStates);
    assert PostBalances(v.output.postStates)[..n] == PostBalances(v.output.postStates);
  }

  lemma {:induction false} PartialDelta(v: Visit, k: nat)
    requires |v.output.preStates| == |v.output.postStates| && k <= |v.output.preStates|
    ensures Delta(TouchesOf(v)[..k]) ==
            Total(PostBalances(v.output.postStates)[..k]) - Total(PreBalances(v.output.preStates)[..k])
    decreases k
  {
    if k > 0 {
      PartialDelta(v, k - 1);
      assert TouchesOf(v)[..k][..k - 1] == TouchesOf(v)[..k - 1];
      assert PreBalances(v.output.preStates)[..k][..k - 1] == PreBalances(v.output.preStates)[..k - 1];
      assert PostBalances(v.output.postStates)[..k][..k - 1] == PostBalances(v.output.postStates)[..k - 1];
    }
  }

  ghost predicate AllWellBehaved(vs: seq<Visit>) {
    forall v :: v in vs ==> WellBehaved(v.output.preStates, v.output.postStates, v.call.programId)
  }

  lemma {:induction false} CallsConserve(vs: seq<Visit>)
    requires AllWellBehaved(vs)
    ensures Delta(Touches(vs)) == 0
    decreases |vs|
  {
    if vs != [] {
      var n := |vs| - 1;
      assert vs[n] in vs;
      CallsConserve(vs[..n]);
      CallConserves(vs[n]);
      DeltaConcat(Touches(vs[..n]), TouchesOf(vs[n]));
    }
  }

  /** Whatever the walk accepts is well behaved call by call. */
  lemma {:induction false} WalkWellBehaved(v: Prover, work: seq<Pending>, outputs: seq<ProgramOutput>, counter: nat)
    requires Walk(v, work, outputs, counter).Some?
    ensures AllWellBehaved(Walk(v, work, outputs, counter).value)
    decreases |outputs|
  {
    hide WellBehaved;
    if work != [] {
      WalkWellBehaved(v, CallsMade(work[0].call.programId, outputs[0]) + work[1..], outputs[1..], counter + 1);
    }
  }

  lemma {:induction false} TouchesAllowed(vs: seq<Visit>)
    requires AllWellBehaved(vs)
    ensures ChangesAllowed(Touches(vs))
    decreases |vs|
  {
    if vs != [] {
      var n := |vs| - 1;
      assert vs[n] in vs;
      TouchesAllowed(vs[..n]);
    }
  }

  /**
   * Conservation through any call tree: the balances the accounts came in with sum to the
   * balances they end with.
   */
  lemma BalanceConserved(v: Prover, d: Derivations, ids: seq<InputAccountIdentity>,
                         work: seq<Pending>, outputs: seq<ProgramOutput>)
    requires Walk(v, work, outputs, 0).Some?
    requires Sync(d, ids, EMPTY, Touches(Walk(v, work, outputs, 0).value)).Some?
    ensures var x := Sync(d, ids, EMPTY, Touches(Walk(v, work, outputs, 0).value)).value;
            SumPost(x.pre, x.post) == SumPre(x.pre)
  {
    hide Walk, Sync;
    var vs := Walk(v, work, outputs, 0).value;
    WalkWellBehaved(v, work, outputs, 0);
    CallsConserve(vs);
    GainsTelescope(d, ids, Touches(vs));
  }
}
