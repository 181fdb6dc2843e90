/**
 * Exactly when a touch is accepted, and what an accepted claim rests on.
 *
 * Everything here is said in terms of the account, the keys and seeds supplied for it and what
 * is on record, not in terms of the steps that check it.
 */
module ExecutionAcceptance {
  import opened Prelude
  import opened Programs
  import opened Identities
  import opened Execution
  import opened ExecutionSteps
  import opened ExecutionHistory
  import opened ExecutionProperties

  // ---- Seeds -------------------------------------------------------------------------------

  /** The program derives the account from the seed, as a private PDA under these keys. */
  predicate DerivesPrivately(d: Derivations, keys: Option<PdaKeys>, program: ProgramId, seed: PdaSeed, id: AccountId) {
    && keys.Some?
    && d.forPrivatePda(program, seed, keys.value.npk, keys.value.vpk, keys.value.identifier) == id
  }

  predicate DerivesEither(d: Derivations, keys: Option<PdaKeys>, program: ProgramId, seed: PdaSeed, id: AccountId) {
    d.forPublicPda(program, seed) == id || DerivesPrivately(d, keys, program, seed, id)
  }

  /** The first of the seeds from which the program derives the account, in either form. */
  predicate FirstDeriving(d: Derivations, keys: Option<PdaKeys>, program: ProgramId, seeds: seq<PdaSeed>, id: AccountId,
                          i: nat)
  {
    && i < |seeds| && DerivesEither(d, keys, program, seeds[i], id)
    && forall j :: 0 <= j < i ==> !DerivesEither(d, keys, program, seeds[j], id)
  }

  /** Some seed the caller listed derives the account. */
  ghost predicate SomeSeedDerives(d: Derivations, keys: Option<PdaKeys>, t: Touch) {
    && t.caller.Some?
    && exists j :: 0 <= j < |t.seeds| && DerivesEither(d, keys, t.caller.value, t.seeds[j], t.Id())
  }

  lemma {:induction false} MatchedSeedExact(d: Derivations, keys: Option<PdaKeys>, program: ProgramId,
                                            seeds: seq<PdaSeed>, id: AccountId)
    ensures match MatchedSeed(d, keys, program, seeds, id)
            case None => forall j :: 0 <= j < |seeds| ==> !DerivesEither(d, keys, program, seeds[j], id)
            case Some((seed, isPrivate)) =>
              exists i: nat :: FirstDeriving(d, keys, program, seeds, id, i) && seeds[i] == seed
                          && isPrivate == (d.forPublicPda(program, seed) != id)
    decreases |seeds|
  {
    if seeds != [] {
      if DerivesEither(d, keys, program, seeds[0], id) {
        assert FirstDeriving(d, keys, program, seeds, id, 0);
      } else {
        var rest := seeds[1..];
        MatchedSeedExact(d, keys, program, rest, id);
        if MatchedSeed(d, keys, program, rest, id).Some? {
          var i: nat :| FirstDeriving(d, keys, program, rest, id, i)
                        && rest[i] == MatchedSeed(d, keys, program, rest, id).value.0;
          assert FirstDeriving(d, keys, program, seeds, id, i + 1);
        }
      }
    }
  }

  /**
   * A returning account resolves through its caller exactly if some seed the caller listed
   * derives it, then through the first such seed, and as a public PDA when it is one.
   */
  lemma CallerResolutionExact(d: Derivations, ids: seq<InputAccountIdentity>, t: Touch, pos: nat)
    ensures var keys := KeysAt(d, ids, pos);
            match CallerResolution(d, ids, t, pos)
            case None => !SomeSeedDerives(d, keys, t)
            case Some(r) =>
              && t.caller.Some?
              && (exists i: nat :: FirstDeriving(d, keys, t.caller.value, t.seeds, t.Id(), i) && t.seeds[i] == r.seed)
              && r.program == t.caller.value && r.accountId == t.Id()
              && r.position == if d.forPublicPda(r.program, r.seed) == t.Id() then None else Some(pos)
  {
    if t.caller.Some? {
      MatchedSeedExact(d, KeysAt(d, ids, pos), t.caller.value, t.seeds, t.Id());
    }
  }

  // ---- One touch ---------------------------------------------------------------------------

  /** No earlier resolution gave the pair to another account, or the position to another pair. */
  predicate Compatible(b: Bindings, r: Resolution) {
    && ((r.program, r.seed) in b.family ==> b.family[(r.program, r.seed)] == r.accountId)
    && (r.position.Some? && r.position.value in b.bound ==> b.bound[r.position.value] == (r.program, r.seed))
  }

  /** Two resolutions of one touch do not claim its position for different pairs. */
  predicate Agree(a: Resolution, b: Resolution) {
    a.position.Some? && a.position == b.position ==> a.program == b.program && a.seed == b.seed
  }

  /** The account arrives as it should: as it was left and with the flag it is due, or new. */
  ghost predicate ArrivalAllowed(d: Derivations, ids: seq<InputAccountIdentity>, x: Exec, t: Touch) {
    var pos := PosOf(x, t.Id());
    if t.Id() in x.post then
      && pos < |x.pre| && x.post[t.Id()] == t.pre.account
      && t.pre.isAuthorized == (
           || t.Id() in x.authorized || x.pre[pos].isAuthorized
           || SomeSeedDerives(d, KeysAt(d, ids, pos), t))
    else
      pos < |ids| && ids[pos].IsPrivatePda() && ids[pos].seed.Some? ==>
        var (seed, authority) := ids[pos].seed.value;
        !t.pre.isAuthorized && DerivesPrivately(d, KeysAt(d, ids, pos), authority, seed, t.Id())
  }

  /**
   * The program may claim the account: it has no owner, and if it is public, it is authorized or
   * is the program's own PDA; a private one may be claimed by any program, or as its own PDA.
   */
  predicate ClaimAllowed(d: Derivations, ids: seq<InputAccountIdentity>, t: Touch, pos: nat) {
    match t.post.claim
    case None => true
    case Some(Authorized) =>
      && t.post.account.programOwner == DEFAULT_PROGRAM_ID && pos < |ids|
      && (ids[pos].Public? ==> t.pre.isAuthorized)
    case Some(Pda(seed)) =>
      && t.post.account.programOwner == DEFAULT_PROGRAM_ID && pos < |ids|
      && if ids[pos].Public? then d.forPublicPda(t.program, seed) == t.Id()
         else DerivesPrivately(d, KeysAt(d, ids, pos), t.program, seed, t.Id())
  }

  /** What the touch resolves is compatible with what is on record and with itself. */
  predicate ResolutionsFit(b: Bindings, a: Option<Resolution>, c: Option<Resolution>) {
    && (a.Some? ==> Compatible(b, a.value))
    && (c.Some? ==> Compatible(b, c.value))
    && (a.Some? && c.Some? ==> Agree(a.value, c.value))
  }

  lemma RecordedFit(b: Bindings, a: Option<Resolution>, c: Option<Resolution>)
    requires a.Some? && c.Some? ==> a.value.accountId == c.value.accountId
    ensures ResolutionsFit(b, a, c) <==> Record(b, a).Some? && Record(Record(b, a).value, c).Some?
  {
  }

  /** What is resolved on arrival derives the account, so only the claim's derivation is open. */
  lemma ArrivalSplit(d: Derivations, ids: seq<InputAccountIdentity>, x: Exec, t: Touch)
    requires Consistent(x)
    ensures var pos := PosOf(x, t.Id());
            var a := Arrival(d, ids, t, pos, t.Id() !in x.post);
            var y := if t.Id() in x.post then SeenAgain(d, ids, x, t) else FirstSeen(d, ids, x, t);
            && (y.Some? <==> ArrivalAllowed(d, ids, x, t) && Record(x.bindings, a).Some?)
            && (y.Some? ==> y.value.bindings == Record(x.bindings, a).value
                            && Position(y.value.pre, t.Id()) == Some(pos))
            && (a.Some? ==> a.value.accountId == t.Id())
  {
    hide Record, MatchedSeed, CallerResolution;
    var pos := PosOf(x, t.Id());
    CallerResolutionExact(d, ids, t, pos);
    if t.Id() !in x.post {
      PositionAppend(x.pre, t.pre, t.Id());
    }
  }

  lemma ClaimSplit(d: Derivations, ids: seq<InputAccountIdentity>, y: Exec, t: Touch, pos: nat)
    requires Position(y.pre, t.Id()) == Some(pos)
    ensures var c := ClaimResolution(ids, t, pos);
            && (ApplyClaim(d, ids, y, t).Some? <==> ClaimAllowed(d, ids, t, pos) && Record(y.bindings, c).Some?)
            && (ApplyClaim(d, ids, y, t).Some? ==>
                  ApplyClaim(d, ids, y, t).value == y.(bindings := Record(y.bindings, c).value))
            && (c.Some? ==> c.value.accountId == t.Id())
  {
    hide Record, Position;
    RecordNothing(y.bindings);
  }

  /**
   * A touch is accepted if and only if its account arrives as it should, its claim is allowed,
   * and what it resolves contradicts neither the record nor itself.
   */
  lemma TouchAcceptedIff(d: Derivations, ids: seq<InputAccountIdentity>, x: Exec, t: Touch)
    requires Consistent(x)
    ensures var pos := PosOf(x, t.Id());
            SyncOne(d, ids, x, t).Some? <==>
            && ArrivalAllowed(d, ids, x, t)
            && ClaimAllowed(d, ids, t, pos)
            && ResolutionsFit(x.bindings, Arrival(d, ids, t, pos, t.Id() !in x.post), ClaimResolution(ids, t, pos))
  {
    hide Record, SeenAgain, FirstSeen, ApplyClaim, ArrivalAllowed, ClaimAllowed, Arrival, ClaimResolution,
      ResolutionsFit, Position, Consistent;
    var pos := PosOf(x, t.Id());
    var a, c := Arrival(d, ids, t, pos, t.Id() !in x.post), ClaimResolution(ids, t, pos);
    ArrivalSplit(d, ids, x, t);
    var y := if t.Id() in x.post then SeenAgain(d, ids, x, t) else FirstSeen(d, ids, x, t);
    if y.Some? {
      ClaimSplit(d, ids, y.value, t, pos);
      RecordedFit(x.bindings, a, c);
    } else {
      ClaimAccount(ids, t, pos);
      RecordedFit(x.bindings, a, c);
    }
  }

  lemma ClaimAccount(ids: seq<InputAccountIdentity>, t: Touch, pos: nat)
    ensures ClaimResolution(ids, t, pos).Some? ==> ClaimResolution(ids, t, pos).value.accountId == t.Id()
  {
  }

  /** The pair and the position a resolution puts on record. */
  predicate Adds(r: Option<Resolution>, pair: (ProgramId, PdaSeed)) {
    r.Some? && (r.value.program, r.value.seed) == pair
  }

  predicate Binds(r: Option<Resolution>, pos: nat) {
    r.Some? && r.value.position == Some(pos)
  }

  lemma RecordExact(b: Bindings, r: Option<Resolution>)
    requires Record(b, r).Some?
    ensures forall pair :: pair in Record(b, r).value.family <==> pair in b.family || Adds(r, pair)
    ensures forall k :: k in Record(b, r).value.bound <==> k in b.bound || Binds(r, k)
  {
  }

  /** An accepted touch puts what it resolves on record, and nothing else. */
  lemma TouchRecordsExactly(d: Derivations, ids: seq<InputAccountIdentity>, x: Exec, t: Touch)
    requires Consistent(x) && SyncOne(d, ids, x, t).Some?
    ensures var b, pos := SyncOne(d, ids, x, t).value.bindings, PosOf(x, t.Id());
            var a, c := Arrival(d, ids, t, pos, t.Id() !in x.post), ClaimResolution(ids, t, pos);
            && (forall pair :: pair in b.family <==> pair in x.bindings.family || Adds(a, pair) || Adds(c, pair))
            && (forall k :: k in b.bound <==> k in x.bindings.bound || Binds(a, k) || Binds(c, k))
  {
    hide Record, SeenAgain, FirstSeen, ApplyClaim, Arrival, ClaimResolution, Position, Consistent, Adds, Binds;
    var pos := PosOf(x, t.Id());
    var a, c := Arrival(d, ids, t, pos, t.Id() !in x.post), ClaimResolution(ids, t, pos);
    ArrivalSplit(d, ids, x, t);
    var y := if t.Id() in x.post then SeenAgain(d, ids, x, t) else FirstSeen(d, ids, x, t);
    ClaimSplit(d, ids, y.value, t, pos);
    RecordExact(x.bindings, a);
    RecordExact(y.value.bindings, c);
  }

  // ---- Whole histories ---------------------------------------------------------------------

  /**
   * In an accepted history every claim is on an account without an owner, and rests on something:
   * on a public account, on an authorization its history granted, or on the claiming program
   * deriving it; as a private PDA, on the program deriving it under the keys supplied for it.
   */
  lemma {:induction false} ClaimsRestOnAuthority(d: Derivations, ids: seq<InputAccountIdentity>, ts: seq<Touch>, j: nat)
    requires Sync(d, ids, EMPTY, ts).Some? && j < |ts|
    ensures ClaimAllowed(d, ids, ts[j], PosOf(Sync(d, ids, EMPTY, ts).value, ts[j].Id()))
    decreases |ts|
  {
    hide SyncOne, Sync, Position, Consistent, Touched, ClaimAllowed, ArrivalAllowed, ResolutionsFit, Arrival;
    var n := |ts| - 1;
    var x, y := Unfold(d, ids, ts);
    SeenIffTouched(d, ids, ts[..n]);
    if j < n {
      ClaimsRestOnAuthority(d, ids, ts[..n], j);
      TouchedAt(ts[..n], j);
      PositionsStay(d, ids, x, ts[n], y, ts[j].Id());
      assert ts[..n][j] == ts[j];
    } else {
      TouchAcceptedIff(d, ids, x, ts[n]);
      SyncOneStates(d, ids, x, ts[n]);
    }
  }

  /** So nobody takes over a public account that is not theirs: it was granted, or is their PDA. */
  lemma PublicClaimIsGranted(d: Derivations, ids: seq<InputAccountIdentity>, ts: seq<Touch>, j: nat)
    requires Sync(d, ids, EMPTY, ts).Some? && j < |ts| && ts[j].post.claim.Some?
    ensures var x := Sync(d, ids, EMPTY, ts).value;
            var pos := PosOf(x, ts[j].Id());
            && pos < |ids|
            && (ids[pos].Public? ==>
                  match ts[j].post.claim.value
                  case Authorized => Granted(d, ids, x, ts, j)
                  case Pda(seed) => d.forPublicPda(ts[j].program, seed) == ts[j].Id())
  {
    hide Sync, Granted;
    ClaimsRestOnAuthority(d, ids, ts, j);
    AuthorizationExact(d, ids, ts, j);
  }

  /** A PDA claim stays on record: the pair stands for the account, and a private position for the pair. */
  lemma PdaClaimsRecorded(d: Derivations, ids: seq<InputAccountIdentity>, ts: seq<Touch>, j: nat, seed: PdaSeed)
    requires Sync(d, ids, EMPTY, ts).Some? && j < |ts| && ts[j].post.claim == Some(Pda(seed))
    ensures var x := Sync(d, ids, EMPTY, ts).value;
            var pos, pair := PosOf(x, ts[j].Id()), (ts[j].program, seed);
            && pair in x.bindings.family && x.bindings.family[pair] == ts[j].Id()
            && pos < |ids| && (!ids[pos].Public? ==> pos in x.bindings.bound && x.bindings.bound[pos] == pair)
  {
    hide Sync, Arrival, Position;
    var x := Sync(d, ids, EMPTY, ts).value;
    var pos := PosOf(x, ts[j].Id());
    ClaimsRestOnAuthority(d, ids, ts, j);
    ResolutionsRecorded(d, ids, ts, j,
                        Resolution(ts[j].program, seed, ts[j].Id(), if ids[pos].Public? then None else Some(pos)));
  }

  /** So does a seed supplied with the input, and its account came in unauthorized. */
  lemma ExternalSeedsRecorded(d: Derivations, ids: seq<InputAccountIdentity>, ts: seq<Touch>, j: nat)
    requires Sync(d, ids, EMPTY, ts).Some? && j < |ts| && Fresh(ts, j)
    requires var pos := PosOf(Sync(d, ids, EMPTY, ts).value, ts[j].Id());
             pos < |ids| && ids[pos].IsPrivatePda() && ids[pos].seed.Some?
    ensures var x := Sync(d, ids, EMPTY, ts).value;
            var pos := PosOf(x, ts[j].Id());
            var (seed, authority) := ids[pos].seed.value;
            && pos in x.bindings.bound && x.bindings.bound[pos] == (authority, seed)
            && (authority, seed) in x.bindings.family && x.bindings.family[(authority, seed)] == ts[j].Id()
            && DerivesPrivately(d, KeysAt(d, ids, pos), authority, seed, ts[j].Id())
            && !ts[j].pre.isAuthorized
  {
    hide Sync, ClaimResolution, Position, Fresh, CallerResolution;
    var x := Sync(d, ids, EMPTY, ts).value;
    var pos := PosOf(x, ts[j].Id());
    var (seed, authority) := ids[pos].seed.value;
    ResolutionsRecorded(d, ids, ts, j, Resolution(authority, seed, ts[j].Id(), Some(pos)));
    FirstTouchAllowed(d, ids, ts, j);
  }

  lemma FirstTouchAllowed(d: Derivations, ids: seq<InputAccountIdentity>, ts: seq<Touch>, j: nat)
    requires Sync(d, ids, EMPTY, ts).Some? && j < |ts| && Fresh(ts, j)
    ensures var pos := PosOf(Sync(d, ids, EMPTY, ts).value, ts[j].Id());
            pos < |ids| && ids[pos].IsPrivatePda() && ids[pos].seed.Some? ==> !ts[j].pre.isAuthorized
    decreases |ts|
  {
    hide SyncOne, Sync, Position, Consistent, Touched, ClaimAllowed, ResolutionsFit, Arrival;
    var n := |ts| - 1;
    var x, y := Unfold(d, ids, ts);
    SeenIffTouched(d, ids, ts[..n]);
    if j < n {
      FreshPrefix(ts, n, j);
      FirstTouchAllowed(d, ids, ts[..n], j);
      TouchedAt(ts[..n], j);
      PositionsStay(d, ids, x, ts[n], y, ts[j].Id());
    } else {
      TouchAcceptedIff(d, ids, x, ts[n]);
      SyncOneStates(d, ids, x, ts[n]);
    }
  }
}
