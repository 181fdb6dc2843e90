/** The circuit's running form: maps and lists updated in place while a worklist is drained. */
module ExecutionStates {
  import opened Prelude
  import opened Programs
  import opened CallTrees
  import opened Identities
  import opened Execution
  import opened Derivation

  class ExecutionState {
    const v: Prover
    const d: Derivations
    const ids: seq<InputAccountIdentity>

    var preStates: seq<AccountWithMetadata>
    var postStates: map<AccountId, Account>
    var blockWindow: ValidityWindow
    var timestampWindow: ValidityWindow
    var privatePdaBoundPositions: map<nat, (ProgramId, PdaSeed)>
    var pdaFamilyBinding: map<(ProgramId, PdaSeed), AccountId>
    var privatePdaByPosition: map<nat, PdaKeys>
    var authorizedAccounts: set<AccountId>

    function Model(): Exec
      reads this
    {
      Exec(preStates, postStates, Bindings(privatePdaBoundPositions, pdaFamilyBinding), authorizedAccounts)
    }

    /** The position map holds exactly the keys the identities supply. */
    ghost predicate KeysMapped()
      reads this
    {
      forall pos: nat :: KeysAt(d, ids, pos) ==
        if pos in privatePdaByPosition then Some(privatePdaByPosition[pos]) else None
    }

    constructor (v: Prover, d: Derivations, ids: seq<InputAccountIdentity>)
      ensures this.v == v && this.d == d && this.ids == ids
      ensures Model() == EMPTY && KeysMapped()
    {
      this.v := v;
      this.d := d;
      this.ids := ids;
      preStates, postStates := [], map[];
      blockWindow, timestampWindow := ValidityWindow(None, None), ValidityWindow(None, None);
      privatePdaBoundPositions, pdaFamilyBinding := map[], map[];
      privatePdaByPosition, authorizedAccounts := map[], {};
      new;
      for pos := 0 to |ids|
        invariant Model() == EMPTY
        invariant forall k: nat :: k < pos ==>
                    d.KeysOf(ids[k]) == if k in privatePdaByPosition then Some(privatePdaByPosition[k]) else None
        invariant forall k :: k in privatePdaByPosition ==> k < pos
      {
        var keys := d.KeysOf(ids[pos]);
        if keys.Some? {
          privatePdaByPosition := privatePdaByPosition[pos := keys.value];
        }
      }
    }

    /** Records the (program, seed) to account binding, or rejects a different one. */
    method AssertFamilyBinding(program: ProgramId, seed: PdaSeed, id: AccountId) returns (ok: bool)
      modifies this`pdaFamilyBinding
      ensures ok <==> ((program, seed) in old(pdaFamilyBinding) ==> old(pdaFamilyBinding)[(program, seed)] == id)
      ensures ok ==> pdaFamilyBinding == old(pdaFamilyBinding)[(program, seed) := id]
    {
      if (program, seed) in pdaFamilyBinding {
        return pdaFamilyBinding[(program, seed)] == id;
      }
      pdaFamilyBinding := pdaFamilyBinding[(program, seed) := id];
      return true;
    }

    /** Records what a private position is bound to, or rejects a different binding. */
    method BindPrivatePdaPosition(pos: nat, program: ProgramId, seed: PdaSeed) returns (ok: bool)
      modifies this`privatePdaBoundPositions
      ensures ok <==> (pos in old(privatePdaBoundPositions) ==> old(privatePdaBoundPositions)[pos] == (program, seed))
      ensures ok ==> privatePdaBoundPositions == old(privatePdaBoundPositions)[pos := (program, seed)]
    {
      if pos in privatePdaBoundPositions {
        return privatePdaBoundPositions[pos] == (program, seed);
      }
      privatePdaBoundPositions := privatePdaBoundPositions[pos := (program, seed)];
      return true;
    }

    /** Both bindings of a resolution. */
    method RecordResolution(r: Resolution) returns (ok: bool)
      modifies this`pdaFamilyBinding, this`privatePdaBoundPositions
      ensures ok <==> Record(old(Model()).bindings, Some(r)).Some?
      ensures ok ==> Model() == old(Model()).(bindings := Record(old(Model()).bindings, Some(r)).value)
    {
      if r.position.Some? {
        ok := BindPrivatePdaPosition(r.position.value, r.program, r.seed);
        if !ok {
          return;
        }
      }
      ok := AssertFamilyBinding(r.program, r.seed, r.accountId);
    }

    /** The first caller seed that derives the account, in public or private form. */
    method FindSeed(t: Touch, caller: ProgramId, pos: nat) returns (found: Option<(PdaSeed, bool)>)
      requires KeysMapped()
      ensures found == MatchedSeed(d, KeysAt(d, ids, pos), caller, t.seeds, t.Id())
    {
      for i := 0 to |t.seeds|
        invariant MatchedSeed(d, KeysAt(d, ids, pos), caller, t.seeds, t.Id()) ==
                  MatchedSeed(d, KeysAt(d, ids, pos), caller, t.seeds[i..], t.Id())
      {
        var seed := t.seeds[i];
        assert t.seeds[i..][1..] == t.seeds[i + 1..];
        if d.forPublicPda(caller, seed) == t.Id() {
          return Some((seed, false));
        }
        if pos in privatePdaByPosition && d.PrivatePda(caller, seed, privatePdaByPosition[pos]) == t.Id() {
          return Some((seed, true));
        }
      }
      return None;
    }

    /** Resolves a returning account's authorization and records the bindings behind it. */
    method ResolveAuthorization(t: Touch, pos: nat, previous: bool) returns (ok: bool, authorized: bool)
      requires KeysMapped()
      modifies this`pdaFamilyBinding, this`privatePdaBoundPositions, this`authorizedAccounts
      ensures var r := CallerResolution(d, ids, t, pos);
              var b := Record(old(Model()).bindings, r);
              var flag := t.Id() in old(authorizedAccounts) || previous || r.Some?;
              && (ok <==> b.Some?)
              && (ok ==> authorized == flag && Model() == old(Model()).(bindings := b.value,
                   authorized := if flag then old(authorizedAccounts) + {t.Id()} else old(authorizedAccounts)))
    {
      hide Record, MatchedSeed, KeysAt;
      ok, authorized := true, false;
      var matched: Option<(PdaSeed, bool)> := None;
      if t.caller.Some? {
        matched := FindSeed(t, t.caller.value, pos);
        if matched.Some? {
          ok := RecordResolution(Resolution(t.caller.value, matched.value.0, t.Id(),
                                            if matched.value.1 then Some(pos) else None));
          if !ok {
            return;
          }
        }
      }
      RecordNothing(old(Model()).bindings);
      if t.Id() in authorizedAccounts {
        assert authorizedAccounts + {t.Id()} == authorizedAccounts;
        return true, true;
      }
      authorized := previous || matched.Some?;
      if authorized {
        authorizedAccounts := authorizedAccounts + {t.Id()};
      }
    }

    /** A returning account. */
    method SyncSeenAgain(t: Touch) returns (ok: bool)
      requires KeysMapped() && t.Id() in postStates
      modifies this`pdaFamilyBinding, this`privatePdaBoundPositions, this`authorizedAccounts
      ensures ok <==> SeenAgain(d, ids, old(Model()), t).Some?
      ensures ok ==> Model() == SeenAgain(d, ids, old(Model()), t).value
    {
      hide Record, MatchedSeed, CallerResolution, Position;
      if postStates[t.Id()] != t.pre.account {
        return false;
      }
      var pos := Position(preStates, t.Id());
      if pos.None? {
        return false;
      }
      var authorized;
      ok, authorized := ResolveAuthorization(t, pos.value, preStates[pos.value].isAuthorized);
      ok := ok && t.pre.isAuthorized == authorized;
    }

    /** An account seen for the first time. */
    method SyncFirstSeen(t: Touch) returns (ok: bool)
      modifies this`pdaFamilyBinding, this`privatePdaBoundPositions, this`preStates
      ensures ok <==> FirstSeen(d, ids, old(Model()), t).Some?
      ensures ok ==> Model() == FirstSeen(d, ids, old(Model()), t).value
    {
      hide Record;
      var pos := |preStates|;
      RecordNothing(old(Model()).bindings);
      if pos < |ids| {
        var external := ids[pos].ExternalSeed();
        if external.Some? {
          var keys := d.KeysOf(ids[pos]);
          if d.PrivatePda(external.value.1, external.value.0, keys.value) != t.Id() || t.pre.isAuthorized {
            return false;
          }
          ok := RecordResolution(Resolution(external.value.1, external.value.0, t.Id(), Some(pos)));
          if !ok {
            return;
          }
        }
      }
      preStates := preStates + [t.pre];
      return true;
    }

    /** A claim on the account. */
    method SyncClaim(t: Touch, claim: Claim) returns (ok: bool)
      requires KeysMapped() && t.post.claim == Some(claim)
      modifies this`pdaFamilyBinding, this`privatePdaBoundPositions
      ensures ok <==> ApplyClaim(d, ids, old(Model()), t).Some?
      ensures ok ==> Model() == ApplyClaim(d, ids, old(Model()), t).value
    {
      hide Record, Position;
      if t.post.account.programOwner != DEFAULT_PROGRAM_ID {
        return false;
      }
      var position := Position(preStates, t.Id());
      if position.None? || position.value >= |ids| {
        return false;
      }
      var pos := position.value;
      RecordNothing(old(Model()).bindings);
      match claim {
        case Authorized =>
          return !ids[pos].Public? || t.pre.isAuthorized;
        case Pda(seed) =>
          if ids[pos].Public? {
            if d.forPublicPda(t.program, seed) != t.Id() {
              return false;
            }
            ok := RecordResolution(Resolution(t.program, seed, t.Id(), None));
          } else {
            assert KeysAt(d, ids, pos) == if pos in privatePdaByPosition then Some(privatePdaByPosition[pos]) else None;
            if pos !in privatePdaByPosition || d.PrivatePda(t.program, seed, privatePdaByPosition[pos]) != t.Id() {
              return false;
            }
            ok := RecordResolution(Resolution(t.program, seed, t.Id(), Some(pos)));
          }
      }
    }

    /** One account of one call. */
    method SyncTouch(t: Touch) returns (ok: bool)
      requires KeysMapped()
      modifies this`pdaFamilyBinding, this`privatePdaBoundPositions
      modifies this`preStates, this`authorizedAccounts, this`postStates
      ensures ok <==> SyncOne(d, ids, old(Model()), t).Some?
      ensures ok ==> Model() == SyncOne(d, ids, old(Model()), t).value
    {
      hide SeenAgain, FirstSeen, ApplyClaim;
      if t.Id() in postStates {
        ok := SyncSeenAgain(t);
      } else {
        ok := SyncFirstSeen(t);
      }
      if !ok {
        return;
      }
      NoClaim(d, ids, Model(), t);
      if t.post.claim.Some? {
        ok := SyncClaim(t, t.post.claim.value);
        if !ok {
          return;
        }
      }
      postStates := postStates[t.Id() := t.Settled()];
    }

    /** All accounts of one call. */
    method ValidateAndSyncStates(visit: Visit) returns (ok: bool)
      requires KeysMapped()
      modifies this`pdaFamilyBinding, this`privatePdaBoundPositions
      modifies this`preStates, this`authorizedAccounts, this`postStates
      ensures ok <==> Sync(d, ids, old(Model()), TouchesOf(visit)).Some?
      ensures ok ==> Model() == Sync(d, ids, old(Model()), TouchesOf(visit)).value
    {
      hide SyncOne;
      var touches := TouchesOf(visit);
      ghost var start := Model();
      for i := 0 to |touches|
        invariant KeysMapped()
        invariant Sync(d, ids, start, touches[..i]) == Some(Model())
      {
        assert touches[..i + 1][..i] == touches[..i];
        ok := SyncTouch(touches[i]);
        if !ok {
          assert Sync(d, ids, start, touches[..i + 1]).None?;
          SyncStops(d, ids, start, touches, i + 1);
          return;
        }
      }
      assert touches[..|touches|] == touches;
      return true;
    }

    /** Latest start and earliest end over all outputs. */
    method IntersectWindows(ws: seq<ValidityWindow>) returns (w: ValidityWindow)
      ensures w == Intersect(ws)
    {
      var from: Option<nat>, to: Option<nat> := None, None;
      for i := 0 to |ws|
        invariant ValidityWindow(from, to) == Intersect(ws[..i])
      {
        assert ws[..i + 1][..i] == ws[..i];
        from, to := Later(from, ws[i].from), Earlier(to, ws[i].to);
      }
      assert ws[..|ws|] == ws;
      return ValidityWindow(from, to);
    }

    /** Pops calls until none are left, pairing each with the next output. */
    method DrainCalls(program: ProgramId, outputs: seq<ProgramOutput>) returns (ok: bool)
      requires Model() == EMPTY && KeysMapped() && outputs != []
      modifies this`pdaFamilyBinding, this`privatePdaBoundPositions
      modifies this`preStates, this`authorizedAccounts, this`postStates
      ensures KeysMapped()
      ensures ok <==> Calls(v, program, outputs).Some?
                      && Sync(d, ids, EMPTY, Touches(Calls(v, program, outputs).value)).Some?
      ensures ok ==> Model() == Sync(d, ids, EMPTY, Touches(Calls(v, program, outputs).value)).value
    {
      hide Sync, Answers, TouchesOf;
      var work := [RootCall(program, outputs[0])];
      var next, counter := 0, 0;
      ghost var done: seq<Visit> := [];
      SyncNothing(d, ids);
      assert outputs[0..] == outputs;
      PrependNothing(Calls(v, program, outputs));
      while work != []
        invariant next <= |outputs| && KeysMapped()
        invariant Calls(v, program, outputs) == Prepend(done, Walk(v, work, outputs[next..], counter))
        invariant Sync(d, ids, EMPTY, Touches(done)) == Some(Model())
        decreases |outputs| - next
      {
        if counter > MAX_NUMBER_CHAINED_CALLS || next == |outputs| {
          return false;
        }
        var pending, output := work[0], outputs[next];
        assert outputs[next..][0] == output && outputs[next..][1..] == outputs[next + 1..];
        var answered := CheckAnswer(pending, output);
        if !answered {
          return false;
        }
        var visit := Visit(pending.call, pending.caller, output);
        work := CallsMade(pending.call.programId, output) + work[1..];
        PrependMore(done, visit, Walk(v, work, outputs[next + 1..], counter + 1));
        TouchesSnoc(done, visit);
        SyncConcat(d, ids, EMPTY, Touches(done), TouchesOf(visit));
        done := done + [visit];
        ok := ValidateAndSyncStates(visit);
        if !ok {
          var rest := Walk(v, work, outputs[next + 1..], counter + 1);
          if rest.Some? {
            TouchesConcat(done, rest.value);
            SyncConcat(d, ids, EMPTY, Touches(done), Touches(rest.value));
          }
          return;
        }
        next, counter := next + 1, counter + 1;
      }
      assert outputs[next..] == [] <==> next == |outputs|;
      assert done + [] == done;
      ok := next == |outputs|;
    }

    /** The checks pairing a call with an output. */
    method CheckAnswer(pending: Pending, output: ProgramOutput) returns (ok: bool)
      ensures ok <==> Answers(v, pending, output)
    {
      if pending.call.instructionData != output.instructionData
         || !v.verify(pending.call.programId, output)
         || output.selfProgramId != pending.call.programId
         || output.callerProgramId != pending.caller
      {
        return false;
      }
      var failure := ValidateExecution(output.preStates, output.postStates, pending.call.programId);
      return failure.None?;
    }

    /** Validates program outputs and derives the overall execution state. */
    method DeriveFromOutputs(program: ProgramId, outputs: seq<ProgramOutput>) returns (ok: bool)
      requires Model() == EMPTY && KeysMapped()
      modifies this
      ensures ok <==> Derive(v, d, ids, program, outputs).Some?
      ensures ok ==> Model() == Derive(v, d, ids, program, outputs).value
      ensures ok ==> blockWindow == Intersect(BlockWindows(outputs))
                     && timestampWindow == Intersect(TimestampWindows(outputs))
    {
      hide Sync, Calls, Touches, AllPdasBound, ModifiedWereClaimed;
      blockWindow := IntersectWindows(BlockWindows(outputs));
      timestampWindow := IntersectWindows(TimestampWindows(outputs));
      if !blockWindow.Accepted() || !timestampWindow.Accepted() {
        return false;
      }
      NoOutputsNoCalls(v, program);
      if outputs == [] {
        return false;
      }
      ok := DrainCalls(program, outputs);
      if !ok {
        return;
      }
      ok := CheckPdasBound();
      if !ok {
        return;
      }
      ok := CheckModifiedClaimed();
    }

    /** Every declared private PDA must have been bound. */
    method CheckPdasBound() returns (ok: bool)
      ensures ok <==> AllPdasBound(ids, Model())
    {
      for pos := 0 to |ids|
        invariant forall k :: 0 <= k < pos && ids[k].IsPrivatePda() ==> k in privatePdaBoundPositions
      {
        if ids[pos].IsPrivatePda() && pos !in privatePdaBoundPositions {
          return false;
        }
      }
      return true;
    }

    /** Accounts that came in unowned must be unchanged or claimed. */
    method CheckModifiedClaimed() returns (ok: bool)
      ensures ok <==> ModifiedWereClaimed(Model())
    {
      for k := 0 to |preStates|
        invariant ModifiedWereClaimedUpTo(Model(), k)
      {
        if preStates[k].account.programOwner == DEFAULT_PROGRAM_ID {
          var id := preStates[k].accountId;
          if id !in postStates
             || (preStates[k].account != postStates[id] && postStates[id].programOwner == DEFAULT_PROGRAM_ID)
          {
            return false;
          }
        }
      }
      return true;
    }
  }

  ghost predicate ModifiedWereClaimedUpTo(x: Exec, n: nat)
    requires n <= |x.pre|
  {
    ModifiedWereClaimed(x.(pre := x.pre[..n]))
  }

  ghost function Prepend(done: seq<Visit>, rest: Option<seq<Visit>>): Option<seq<Visit>> {
    match rest case None => None case Some(vs) => Some(done + vs)
  }

  lemma PrependNothing(rest: Option<seq<Visit>>)
    ensures Prepend([], rest) == rest
  {
    if rest.Some? {
      assert [] + rest.value == rest.value;
    }
  }

  lemma PrependMore(done: seq<Visit>, visit: Visit, rest: Option<seq<Visit>>)
    ensures Prepend(done + [visit], rest) == Prepend(done, Prepend([visit], rest))
  {
    if rest.Some? {
      assert done + [visit] + rest.value == done + ([visit] + rest.value);
    }
  }

  lemma SyncNothing(d: Derivations, ids: seq<InputAccountIdentity>)
    ensures Sync(d, ids, EMPTY, []) == Some(EMPTY)
  {
  }

  lemma NoOutputsNoCalls(v: Prover, program: ProgramId)
    ensures Calls(v, program, []) == None
  {
  }

  lemma TouchesSnoc(vs: seq<Visit>, v: Visit)
    ensures Touches(vs + [v]) == Touches(vs) + TouchesOf(v)
  {
    assert (vs + [v])[..|vs|] == vs;
  }

  lemma {:induction false} TouchesConcat(a: seq<Visit>, b: seq<Visit>)
    ensures Touches(a + b) == Touches(a) + Touches(b)
    decreases |b|
  {
    hide TouchesOf;
    if b == [] {
      assert a + b == a;
    } else {
      var n := |b| - 1;
      TouchesConcat(a, b[..n]);
      assert (a + b)[..|a + b| - 1] == a + b[..n];
    }
  }

  lemma NoClaim(d: Derivations, ids: seq<InputAccountIdentity>, x: Exec, t: Touch)
    ensures t.post.claim.None? ==> ApplyClaim(d, ids, x, t) == Some(x)
  {
  }

  /** A history rejected at some point is rejected. */
  lemma SyncStops(d: Derivations, ids: seq<InputAccountIdentity>, x: Exec, ts: seq<Touch>, k: nat)
    requires k <= |ts| && Sync(d, ids, x, ts[..k]).None?
    ensures Sync(d, ids, x, ts).None?
  {
    if Sync(d, ids, x, ts).Some? {
      SyncPrefix(d, ids, x, ts, k);
    }
  }
}
