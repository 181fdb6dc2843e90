/**
 * What an accepted execution says about its whole history of touches: how account states are
 * threaded, who may authorize, who may own, and that no balance is made or lost.
 */
module ExecutionHistory {
  import opened Prelude
  import opened Programs
  import opened Identities
  import opened Execution
  import opened ExecutionSteps

  /** Some touch named the account. */
  ghost predicate Touched(ts: seq<Touch>, id: AccountId) {
    exists j :: 0 <= j < |ts| && ts[j].Id() == id
  }

  lemma TouchedSnoc(ts: seq<Touch>, id: AccountId)
    requires ts != []
    ensures Touched(ts, id) <==> Touched(ts[..|ts| - 1], id) || ts[|ts| - 1].Id() == id
  {
    var n := |ts| - 1;
    if j :| 0 <= j < |ts| && ts[j].Id() == id {
      assert j < n ==> ts[..n][j].Id() == id;
    }
    if j :| 0 <= j < n && ts[..n][j].Id() == id {
      assert ts[j].Id() == id;
    }
  }

  /** The account of touch `j` was not touched before. */
  ghost predicate Fresh(ts: seq<Touch>, j: nat)
    requires j < |ts|
  {
    !Touched(ts[..j], ts[j].Id())
  }

  lemma FreshPrefix(ts: seq<Touch>, n: nat, j: nat)
    requires j < n <= |ts|
    ensures ts[..n][j] == ts[j]
    ensures Fresh(ts[..n], j) <==> Fresh(ts, j)
  {
    assert ts[..n][..j] == ts[..j];
  }

  /** The last touch of an accepted history: the state before it, and the state after. */
  lemma Unfold(d: Derivations, ids: seq<InputAccountIdentity>, ts: seq<Touch>) returns (x: Exec, y: Exec)
    requires ts != [] && Sync(d, ids, EMPTY, ts).Some?
    ensures Sync(d, ids, EMPTY, ts[..|ts| - 1]) == Some(x)
    ensures SyncOne(d, ids, x, ts[|ts| - 1]) == Some(y) == Sync(d, ids, EMPTY, ts)
  {
    hide SyncOne;
    x := Sync(d, ids, EMPTY, ts[..|ts| - 1]).value;
    y := Sync(d, ids, EMPTY, ts).value;
  }

  /** An account is on record exactly when some touch named it. */
  lemma {:induction false} SeenIffTouched(d: Derivations, ids: seq<InputAccountIdentity>, ts: seq<Touch>)
    requires Sync(d, ids, EMPTY, ts).Some?
    ensures var x := Sync(d, ids, EMPTY, ts).value;
            && Consistent(x) && BoundDerives(d, ids, x)
            && forall id :: id in x.post <==> Touched(ts, id)
    decreases |ts|
  {
    if ts != [] {
      hide SyncOne, Sync, Touched, Consistent, BoundDerives;
      var n := |ts| - 1;
      var x, y := Unfold(d, ids, ts);
      SeenIffTouched(d, ids, ts[..n]);
      SyncOneStates(d, ids, x, ts[n]);
      SyncOneBoundDerives(d, ids, x, ts[n]);
      forall id
        ensures id in y.post <==> Touched(ts, id)
      {
        TouchedSnoc(ts, id);
      }
    }
  }

  /** Positions, once given, never change. */
  lemma PositionsStay(d: Derivations, ids: seq<InputAccountIdentity>, x: Exec, t: Touch, y: Exec, id: AccountId)
    requires Consistent(x) && SyncOne(d, ids, x, t) == Some(y) && id in x.post
    ensures PosOf(y, id) == PosOf(x, id) < |x.pre| <= |y.pre|
    ensures y.pre[PosOf(x, id)] == x.pre[PosOf(x, id)]
    ensures x.pre[PosOf(x, id)].accountId == id
  {
    hide SyncOne;
    SyncOneStates(d, ids, x, t);
    if t.Id() !in x.post {
      PositionAppend(x.pre, t.pre, id);
    }
  }

  /** The pre state on record for an account is the one its first touch came with. */
  lemma {:induction false} FirstSeenKept(d: Derivations, ids: seq<InputAccountIdentity>, ts: seq<Touch>, j: nat)
    requires Sync(d, ids, EMPTY, ts).Some? && j < |ts| && Fresh(ts, j)
    ensures var x := Sync(d, ids, EMPTY, ts).value;
            PosOf(x, ts[j].Id()) < |x.pre| && x.pre[PosOf(x, ts[j].Id())] == ts[j].pre
    decreases |ts|
  {
    hide SyncOne, Sync, Position, Touched;
    var n := |ts| - 1;
    var x, y := Unfold(d, ids, ts);
    SeenIffTouched(d, ids, ts[..n]);
    if j < n {
      FreshPrefix(ts, n, j);
      FirstSeenKept(d, ids, ts[..n], j);
      TouchedAt(ts[..n], j);
      PositionsStay(d, ids, x, ts[n], y, ts[j].Id());
    } else {
      SyncOneStates(d, ids, x, ts[n]);
    }
  }

  lemma TouchedAt(ts: seq<Touch>, j: nat)
    requires j < |ts|
    ensures Touched(ts, ts[j].Id())
  {
  }

  // ---- Threading ---------------------------------------------------------------------------

  /** Touches `i` and `j` are of one account, with none of it in between. */
  ghost predicate Consecutive(ts: seq<Touch>, i: nat, j: nat)
    requires i < j < |ts|
  {
    ts[i].Id() == ts[j].Id() && forall k :: i < k < j ==> ts[k].Id() != ts[i].Id()
  }

  /** Touch `j` is the last one of its account. */
  ghost predicate Last(ts: seq<Touch>, j: nat)
    requires j < |ts|
  {
    forall k :: j < k < |ts| ==> ts[k].Id() != ts[j].Id()
  }

  /** The final post state of an account is what its last call settled. */
  lemma {:induction false} LastSettles(d: Derivations, ids: seq<InputAccountIdentity>, ts: seq<Touch>, j: nat)
    requires Sync(d, ids, EMPTY, ts).Some? && j < |ts| && Last(ts, j)
    ensures var post := Sync(d, ids, EMPTY, ts).value.post;
            ts[j].Id() in post && post[ts[j].Id()] == ts[j].Settled()
    decreases |ts|
  {
    hide SyncOne, Sync, Consistent, Position;
    var n := |ts| - 1;
    var x, y := Unfold(d, ids, ts);
    SeenIffTouched(d, ids, ts[..n]);
    SyncOneStates(d, ids, x, ts[n]);
    if j < n {
      assert ts[..n][j] == ts[j];
      LastSettles(d, ids, ts[..n], j);
    }
  }

  /** An account enters each call exactly as the previous call settled it. */
  lemma {:induction false} StatesAreThreaded(d: Derivations, ids: seq<InputAccountIdentity>, ts: seq<Touch>,
                                             i: nat, j: nat)
    requires Sync(d, ids, EMPTY, ts).Some? && i < j < |ts| && Consecutive(ts, i, j)
    ensures ts[j].pre.account == ts[i].Settled()
    decreases |ts|
  {
    hide SyncOne, Sync, Consistent, Position, Consecutive, Last, Touched;
    var n := |ts| - 1;
    var x, y := Unfold(d, ids, ts);
    SeenIffTouched(d, ids, ts[..n]);
    SyncOneStates(d, ids, x, ts[n]);
    ConsecutivePrefix(ts, i, j);
    if j < n {
      StatesAreThreaded(d, ids, ts[..n], i, j);
    } else {
      LastSettles(d, ids, ts[..n], i);
    }
  }

  lemma ConsecutivePrefix(ts: seq<Touch>, i: nat, j: nat)
    requires i < j < |ts| && Consecutive(ts, i, j)
    ensures ts[i].Id() == ts[j].Id()
    ensures var n := |ts| - 1;
            && ts[..n][i] == ts[i]
            && (j < n ==> ts[..n][j] == ts[j] && Consecutive(ts[..n], i, j))
            && (j == n ==> Last(ts[..n], i))
  {
  }

  // ---- Authorization -----------------------------------------------------------------------

  /** Touch `i` brings authorization: as a first-seen flag, or by a seed of its caller. */
  ghost predicate Grants(d: Derivations, ids: seq<InputAccountIdentity>, x: Exec, ts: seq<Touch>, i: nat)
    requires i < |ts|
  {
    if Fresh(ts, i) then ts[i].pre.isAuthorized
    else CallerResolution(d, ids, ts[i], PosOf(x, ts[i].Id())).Some?
  }

  /** Some touch of the account, up to and including `j`, brought authorization. */
  ghost predicate Granted(d: Derivations, ids: seq<InputAccountIdentity>, x: Exec, ts: seq<Touch>, j: nat)
    requires j < |ts|
  {
    exists i :: 0 <= i <= j && ts[i].Id() == ts[j].Id() && Grants(d, ids, x, ts, i)
  }

  /** Whether a touch grants does not depend on what comes after it. */
  lemma GrantsStay(d: Derivations, ids: seq<InputAccountIdentity>, ts: seq<Touch>, x: Exec, y: Exec, j: nat)
    requires ts != [] && Sync(d, ids, EMPTY, ts[..|ts| - 1]) == Some(x) && Sync(d, ids, EMPTY, ts) == Some(y)
    requires j < |ts| - 1
    ensures Grants(d, ids, x, ts[..|ts| - 1], j) <==> Grants(d, ids, y, ts, j)
  {
    hide SyncOne, Sync, CallerResolution, Position, Consistent, Touched;
    var n := |ts| - 1;
    var x', y' := Unfold(d, ids, ts);
    SeenIffTouched(d, ids, ts[..n]);
    FreshPrefix(ts, n, j);
    TouchedAt(ts[..n], j);
    PositionsStay(d, ids, x, ts[n], y, ts[j].Id());
  }

  lemma GrantedStay(d: Derivations, ids: seq<InputAccountIdentity>, ts: seq<Touch>, x: Exec, y: Exec, j: nat)
    requires ts != [] && Sync(d, ids, EMPTY, ts[..|ts| - 1]) == Some(x) && Sync(d, ids, EMPTY, ts) == Some(y)
    requires j < |ts| - 1
    ensures Granted(d, ids, x, ts[..|ts| - 1], j) <==> Granted(d, ids, y, ts, j)
  {
    hide Sync, Grants;
    var n := |ts| - 1;
    forall i | 0 <= i <= j
      ensures Grants(d, ids, x, ts[..n], i) <==> Grants(d, ids, y, ts, i)
    {
      GrantsStay(d, ids, ts, x, y, i);
    }
  }

  /** The set of authorized accounts holds those that came back with their flag set. */
  ghost predicate ReturnedAuthorized(ts: seq<Touch>, id: AccountId) {
    exists j :: 0 <= j < |ts| && ts[j].Id() == id && !Fresh(ts, j) && ts[j].pre.isAuthorized
  }

  lemma {:induction false} AuthorizedSet(d: Derivations, ids: seq<InputAccountIdentity>, ts: seq<Touch>, id: AccountId)
    requires Sync(d, ids, EMPTY, ts).Some?
    ensures id in Sync(d, ids, EMPTY, ts).value.authorized <==> ReturnedAuthorized(ts, id)
    decreases |ts|
  {
    if ts != [] {
      hide SyncOne, Sync, CallerResolution, Consistent, ReturnedAuthorized, Touched;
      var n := |ts| - 1;
      var x, y := Unfold(d, ids, ts);
      AuthorizedSet(d, ids, ts[..n], id);
      SeenIffTouched(d, ids, ts[..n]);
      SyncOneFlags(d, ids, x, ts[n]);
      ReturnedSnoc(ts, id);
    }
  }

  lemma ReturnedSnoc(ts: seq<Touch>, id: AccountId)
    requires ts != []
    ensures var n := |ts| - 1;
            ReturnedAuthorized(ts, id) <==>
            ReturnedAuthorized(ts[..n], id) || (ts[n].Id() == id && !Fresh(ts, n) && ts[n].pre.isAuthorized)
  {
    hide Touched;
    var n := |ts| - 1;
    forall j | 0 <= j < n
      ensures ts[..n][j] == ts[j] && (Fresh(ts[..n], j) <==> Fresh(ts, j))
    {
      FreshPrefix(ts, n, j);
    }
    if j :| 0 <= j < n && ts[..n][j].Id() == id && !Fresh(ts[..n], j) && ts[..n][j].pre.isAuthorized {
      assert ts[j].Id() == id && !Fresh(ts, j);
    }
    if j :| 0 <= j < |ts| && ts[j].Id() == id && !Fresh(ts, j) && ts[j].pre.isAuthorized {
      assert j < n ==> ts[..n][j].Id() == id && !Fresh(ts[..n], j);
    }
  }

  /**
   * Authorization is exactly its history: a returning account's flag is set if and only if its
   * first-seen flag was, or some return up to and including this one matched a seed listed by
   * its immediate caller. In particular it is never lost again.
   */
  lemma {:induction false} AuthorizationExact(d: Derivations, ids: seq<InputAccountIdentity>, ts: seq<Touch>, j: nat)
    requires Sync(d, ids, EMPTY, ts).Some?
    requires j < |ts|
    ensures ts[j].pre.isAuthorized <==> Granted(d, ids, Sync(d, ids, EMPTY, ts).value, ts, j)
    decreases |ts|, 2
  {
    hide SyncOne, CallerResolution, Sync;
    var n := |ts| - 1;
    var x, y := Unfold(d, ids, ts);
    if j < n {
      AuthorizationExact(d, ids, ts[..n], j);
      assert ts[..n][j] == ts[j];
      GrantedStay(d, ids, ts, x, y, j);
    } else {
      LastFlagExact(d, ids, ts, x, y);
    }
  }

  lemma LastFlagExact(d: Derivations, ids: seq<InputAccountIdentity>, ts: seq<Touch>, x: Exec, y: Exec)
    requires ts != [] && Sync(d, ids, EMPTY, ts[..|ts| - 1]) == Some(x)
    requires SyncOne(d, ids, x, ts[|ts| - 1]) == Some(y) == Sync(d, ids, EMPTY, ts)
    ensures var n := |ts| - 1; ts[n].pre.isAuthorized <==> Granted(d, ids, y, ts, n)
    decreases |ts|, 1
  {
    hide SyncOne, CallerResolution, Sync, Position, Consistent;
    var n := |ts| - 1;
    var t, id := ts[n], ts[n].Id();
    SeenIffTouched(d, ids, ts[..n]);
    if Fresh(ts, n) {
      forall i | 0 <= i < n
        ensures ts[i].Id() != id
      {
        assert ts[..n][i] == ts[i];
      }
      assert Grants(d, ids, y, ts, n) <==> Granted(d, ids, y, ts, n);
    } else {
      SyncOneFlags(d, ids, x, t);
      PositionsStay(d, ids, x, t, y, id);
      AuthorizedSet(d, ids, ts[..n], id);
      EarlierGrants(d, ids, ts, x, y);
    }
  }

  /** Before the last touch, the account was granted iff it returned flagged or started flagged. */
  lemma EarlierGrants(d: Derivations, ids: seq<InputAccountIdentity>, ts: seq<Touch>, x: Exec, y: Exec)
    requires ts != [] && Sync(d, ids, EMPTY, ts[..|ts| - 1]) == Some(x)
    requires Sync(d, ids, EMPTY, ts) == Some(y)
    requires !Fresh(ts, |ts| - 1)
    ensures var n := |ts| - 1;
            var id := ts[n].Id();
            var pos := PosOf(x, id);
            && pos < |x.pre|
            && ((exists i :: 0 <= i < n && ts[i].Id() == id && Grants(d, ids, y, ts, i)) <==>
                  ReturnedAuthorized(ts[..n], id) || x.pre[pos].isAuthorized)
    decreases |ts|, 0
  {
    hide SyncOne, CallerResolution, Sync, Position, Consistent;
    var n := |ts| - 1;
    var id := ts[n].Id();
    var before := ts[..n];
    var first := FirstTouch(ts, n);
    FreshPrefix(ts, n, first);
    FirstSeenKept(d, ids, before, first);
    GrantsStay(d, ids, ts, x, y, first);
    if ReturnedAuthorized(before, id) {
      var j :| 0 <= j < n && before[j].Id() == id && !Fresh(before, j) && before[j].pre.isAuthorized;
      AuthorizationExact(d, ids, before, j);
      var i :| 0 <= i <= j && before[i].Id() == before[j].Id() && Grants(d, ids, x, before, i);
      GrantsStay(d, ids, ts, x, y, i);
      assert ts[i].Id() == id && Grants(d, ids, y, ts, i);
    }
    if i :| 0 <= i < n && ts[i].Id() == id && Grants(d, ids, y, ts, i) {
      GrantsStay(d, ids, ts, x, y, i);
      FreshPrefix(ts, n, i);
      AuthorizationExact(d, ids, before, i);
      assert Granted(d, ids, x, before, i);
      if Fresh(ts, i) {
        FreshUnique(ts, i, first);
      }
    }
  }

  lemma FreshUnique(ts: seq<Touch>, i: nat, j: nat)
    requires i < |ts| && j < |ts| && ts[i].Id() == ts[j].Id()
    requires Fresh(ts, i) && Fresh(ts, j)
    ensures i == j
  {
    if i < j {
      TouchedAt(ts[..j], i);
    } else if j < i {
      TouchedAt(ts[..i], j);
    }
  }

  /** The first touch of the account of touch `j`. */
  lemma FirstTouch(ts: seq<Touch>, j: nat) returns (first: nat)
    requires j < |ts|
    ensures first <= j && ts[first].Id() == ts[j].Id() && Fresh(ts, first)
    ensures !Fresh(ts, j) ==> first < j
    decreases j
  {
    if Fresh(ts, j) {
      first := j;
    } else {
      var i :| 0 <= i < j && ts[..j][i].Id() == ts[j].Id();
      first := FirstTouch(ts, i);
    }
  }
}
