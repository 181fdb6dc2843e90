/** What one accepted touch does to the execution state, fact by fact. */
module ExecutionSteps {
  import opened Prelude
  import opened Programs
  import opened Identities
  import opened Execution

  /** Each account has one pre state, and a post state exactly when it has a pre state. */
  ghost predicate Consistent(x: Exec) {
    && DistinctIds(x.pre)
    && forall id :: id in x.post <==> Position(x.pre, id).Some?
  }

  /** With distinct ids the position of an account is the one index that carries its id. */
  lemma PositionUnique(pre: seq<AccountWithMetadata>, k: nat)
    requires DistinctIds(pre) && k < |pre|
    ensures Position(pre, pre[k].accountId) == Some(k)
  {
  }

  lemma PositionAppend(pre: seq<AccountWithMetadata>, a: AccountWithMetadata, id: AccountId)
    requires Position(pre, a.accountId) == None && DistinctIds(pre)
    ensures DistinctIds(pre + [a])
    ensures Position(pre + [a], id) == if id == a.accountId then Some(|pre|) else Position(pre, id)
  {
    var all := pre + [a];
    assert all[..|pre|] == pre;
    FirstIndexPrefix(all, (b: AccountWithMetadata) => b.accountId == id, |pre|);
    assert all[|pre|] == a;
    if id == a.accountId {
      PositionUnique(all, |pre|);
    }
  }

  lemma {:induction false} MatchedSeedDerives(d: Derivations, keys: Option<PdaKeys>, caller: ProgramId,
                                              seeds: seq<PdaSeed>, id: AccountId)
    ensures match MatchedSeed(d, keys, caller, seeds, id)
            case Some((seed, false)) => seed in seeds && d.forPublicPda(caller, seed) == id
            case Some((seed, true)) => seed in seeds && keys.Some? && d.PrivatePda(caller, seed, keys.value) == id
            case None => forall s :: s in seeds ==>
                           d.forPublicPda(caller, s) != id && (keys.Some? ==> d.PrivatePda(caller, s, keys.value) != id)
    decreases |seeds|
  {
    if seeds != [] {
      MatchedSeedDerives(d, keys, caller, seeds[1..], id);
      assert seeds == [seeds[0]] + seeds[1..];
    }
  }

  lemma CallerResolutionDerives(d: Derivations, ids: seq<InputAccountIdentity>, t: Touch, pos: nat)
    ensures var r := CallerResolution(d, ids, t, pos);
            r.Some? ==> Derives(d, ids, r.value) && r.value.accountId == t.Id()
                        && (r.value.position.Some? ==> r.value.position.value == pos)
  {
    if t.caller.Some? {
      MatchedSeedDerives(d, KeysAt(d, ids, pos), t.caller.value, t.seeds, t.Id());
    }
  }

  /** What a touch resolves on arrival: an external seed first, a caller's seed later. */
  function Arrival(d: Derivations, ids: seq<InputAccountIdentity>, t: Touch, pos: nat, first: bool)
    : Option<Resolution>
  {
    if first then ExternalResolution(ids, t, pos) else CallerResolution(d, ids, t, pos)
  }

  /** The position of an account in the first-seen order; a new one goes last. */
  function PosOf(x: Exec, id: AccountId): nat {
    match Position(x.pre, id) case Some(k) => k case None => |x.pre|
  }

  lemma SyncOneStates(d: Derivations, ids: seq<InputAccountIdentity>, x: Exec, t: Touch)
    requires Consistent(x) && SyncOne(d, ids, x, t).Some?
    ensures var y := SyncOne(d, ids, x, t).value;
            && Consistent(y)
            && y.pre == (if t.Id() in x.post then x.pre else x.pre + [t.pre])
            && y.post == x.post[t.Id() := t.Settled()]
            && (t.Id() in x.post ==> x.post[t.Id()] == t.pre.account)
            && Position(y.pre, t.Id()) == Some(PosOf(x, t.Id()))
            && (t.post.claim.Some? ==> t.post.account.programOwner == DEFAULT_PROGRAM_ID)
  {
    hide Record, MatchedSeed, Position;
    if t.Id() !in x.post {
      forall id
        ensures Position(x.pre + [t.pre], id) == if id == t.Id() then Some(|x.pre|) else Position(x.pre, id)
      {
        PositionAppend(x.pre, t.pre, id);
      }
      PositionAppend(x.pre, t.pre, t.Id());
    }
  }

  lemma SyncOneFlags(d: Derivations, ids: seq<InputAccountIdentity>, x: Exec, t: Touch)
    requires Consistent(x) && SyncOne(d, ids, x, t).Some?
    ensures var y := SyncOne(d, ids, x, t).value;
            var pos := PosOf(x, t.Id());
            if t.Id() in x.post then
              && pos < |x.pre|
              && t.pre.isAuthorized == (
                   || t.Id() in x.authorized
                   || x.pre[pos].isAuthorized
                   || CallerResolution(d, ids, t, pos).Some?)
              && y.authorized == x.authorized + (if t.pre.isAuthorized then {t.Id()} else {})
            else y.authorized == x.authorized
  {
    hide Record, CallerResolution, ExternalResolution, ClaimResolution, Derives, Position;
  }

  /** Every resolution of an accepted touch is a true derivation and is on record. */
  lemma SyncOneResolutions(d: Derivations, ids: seq<InputAccountIdentity>, x: Exec, t: Touch)
    requires Consistent(x) && SyncOne(d, ids, x, t).Some?
    ensures var y := SyncOne(d, ids, x, t).value;
            var pos := PosOf(x, t.Id());
            var a, c := Arrival(d, ids, t, pos, t.Id() !in x.post), ClaimResolution(ids, t, pos);
            && (a.Some? ==> Recorded(y.bindings, a.value) && Derives(d, ids, a.value))
            && (c.Some? ==> Recorded(y.bindings, c.value) && Derives(d, ids, c.value))
            && (forall q :: Recorded(x.bindings, q) ==> Recorded(y.bindings, q))
  {
    hide Derives, MatchedSeed, CallerResolution, ExternalResolution, Record, Recorded, Position;
    var pos := PosOf(x, t.Id());
    CallerResolutionDerives(d, ids, t, pos);
    if t.Id() !in x.post {
      PositionAppend(x.pre, t.pre, t.Id());
    }
  }

  /** The account a bound position holds is derived from what is bound there. */
  ghost predicate BoundDerives(d: Derivations, ids: seq<InputAccountIdentity>, x: Exec) {
    forall k :: k in x.bindings.bound ==>
      && k < |x.pre|
      && Derives(d, ids, Resolution(x.bindings.bound[k].0, x.bindings.bound[k].1, x.pre[k].accountId, Some(k)))
  }

  lemma RecordBoundDerives(d: Derivations, ids: seq<InputAccountIdentity>, x: Exec, r: Option<Resolution>, b: Bindings)
    requires BoundDerives(d, ids, x) && Record(x.bindings, r) == Some(b)
    requires r.Some? ==> Derives(d, ids, r.value)
    requires r.Some? && r.value.position.Some? ==>
               r.value.position.value < |x.pre| && x.pre[r.value.position.value].accountId == r.value.accountId
    ensures BoundDerives(d, ids, x.(bindings := b))
  {
    hide Derives;
  }

  lemma SyncOneBoundDerives(d: Derivations, ids: seq<InputAccountIdentity>, x: Exec, t: Touch)
    requires Consistent(x) && BoundDerives(d, ids, x) && SyncOne(d, ids, x, t).Some?
    ensures BoundDerives(d, ids, SyncOne(d, ids, x, t).value)
  {
    hide Derives, CallerResolution, Record, BoundDerives, Position;
    var pos := PosOf(x, t.Id());
    CallerResolutionDerives(d, ids, t, pos);
    var x' := if t.Id() in x.post then x else x.(pre := x.pre + [t.pre]);
    GrowBoundDerives(d, ids, x, t.pre);
    if t.Id() !in x.post {
      PositionAppend(x.pre, t.pre, t.Id());
    }
    var a := Arrival(d, ids, t, pos, t.Id() !in x.post);
    var b := Record(x.bindings, a).value;
    RecordBoundDerives(d, ids, x', a, b);
    var y := x'.(bindings := b);
    var c := ClaimResolution(ids, t, pos);
    RecordNothing(b);
    RecordBoundDerives(d, ids, y, c, Record(b, c).value);
    SameBoundDerives(d, ids, y.(bindings := Record(b, c).value), SyncOne(d, ids, x, t).value);
  }

  lemma GrowBoundDerives(d: Derivations, ids: seq<InputAccountIdentity>, x: Exec, a: AccountWithMetadata)
    requires BoundDerives(d, ids, x)
    ensures BoundDerives(d, ids, x.(pre := x.pre + [a]))
  {
    hide Derives;
  }

  lemma SameBoundDerives(d: Derivations, ids: seq<InputAccountIdentity>, x: Exec, y: Exec)
    requires BoundDerives(d, ids, x) && x.pre == y.pre && x.bindings == y.bindings
    ensures BoundDerives(d, ids, y)
  {
    hide Derives;
  }
}
