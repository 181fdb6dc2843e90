/** When the circuit accepts a list of program outputs, and what it derives from them. */
module Derivation {
  import opened Prelude
  import opened Programs
  import opened CallTrees
  import opened Identities
  import opened Execution
  import opened ExecutionSteps
  import opened ExecutionHistory
  import opened ExecutionProperties

  // ---- Validity windows --------------------------------------------------------------------

  function Later(a: Option<nat>, b: Option<nat>): Option<nat> {
    match (a, b)
    case (None, _) => b
    case (_, None) => a
    case (Some(x), Some(y)) => Some(if x >= y then x else y)
  }

  function Earlier(a: Option<nat>, b: Option<nat>): Option<nat> {
    match (a, b)
    case (None, _) => b
    case (_, None) => a
    case (Some(x), Some(y)) => Some(if x <= y then x else y)
  }

  /** Latest start and earliest end of the windows. */
  function Intersect(ws: seq<ValidityWindow>): ValidityWindow {
    if ws == [] then ValidityWindow(None, None)
    else
      var rest, w := Intersect(ws[..|ws| - 1]), ws[|ws| - 1];
      ValidityWindow(Later(rest.from, w.from), Earlier(rest.to, w.to))
  }

  /** The combined window is valid exactly where every output's window is. */
  lemma {:induction false} IntersectExact(ws: seq<ValidityWindow>, at: nat)
    ensures Intersect(ws).IsValidFor(at) <==> forall w :: w in ws ==> w.IsValidFor(at)
    decreases |ws|
  {
    if ws != [] {
      var n := |ws| - 1;
      IntersectExact(ws[..n], at);
      assert Intersect(ws).IsValidFor(at) <==> Intersect(ws[..n]).IsValidFor(at) && ws[n].IsValidFor(at);
      assert ws == ws[..n] + [ws[n]];
      assert forall w :: w in ws <==> w in ws[..n] || w == ws[n];
    }
  }

  /**
   * Acceptance promises a non-empty intersection. It delivers one unless the only bound is an
   * end of zero, which the check lets through.
   */
  lemma AcceptedWindowNonEmpty(w: ValidityWindow)
    requires w.Accepted()
    ensures (exists at: nat :: w.IsValidFor(at)) <==> !(w.from.None? && w.to == Some(0))
  {
    var start := if w.from.Some? then w.from.value else 0;
    if !(w.from.None? && w.to == Some(0)) {
      assert w.IsValidFor(start);
    }
  }

  function BlockWindows(outputs: seq<ProgramOutput>): (r: seq<ValidityWindow>)
    ensures |r| == |outputs| && forall i :: 0 <= i < |r| ==> r[i] == outputs[i].blockWindow
  {
    seq(|outputs|, i requires 0 <= i < |outputs| => outputs[i].blockWindow)
  }

  function TimestampWindows(outputs: seq<ProgramOutput>): (r: seq<ValidityWindow>)
    ensures |r| == |outputs| && forall i :: 0 <= i < |r| ==> r[i] == outputs[i].timestampWindow
  {
    seq(|outputs|, i requires 0 <= i < |outputs| => outputs[i].timestampWindow)
  }

  // ---- Acceptance --------------------------------------------------------------------------

  /** Every declared private PDA got its keys tied to its account id. */
  predicate AllPdasBound(ids: seq<InputAccountIdentity>, x: Exec) {
    forall k :: 0 <= k < |ids| && ids[k].IsPrivatePda() ==> k in x.bindings.bound
  }

  /** An account that came in unowned is owned now, or as it was. */
  predicate ModifiedWereClaimed(x: Exec) {
    forall k :: 0 <= k < |x.pre| && x.pre[k].account.programOwner == DEFAULT_PROGRAM_ID ==>
      var id := x.pre[k].accountId;
      && id in x.post
      && (x.pre[k].account == x.post[id] || x.post[id].programOwner != DEFAULT_PROGRAM_ID)
  }

  predicate WindowsAccepted(outputs: seq<ProgramOutput>) {
    Intersect(BlockWindows(outputs)).Accepted() && Intersect(TimestampWindows(outputs)).Accepted()
  }

  /** The calls of an accepted transaction, in execution order. */
  ghost function Calls(v: Prover, program: ProgramId, outputs: seq<ProgramOutput>): Option<seq<Visit>> {
    if outputs == [] then None else Walk(v, [RootCall(program, outputs[0])], outputs, 0)
  }

  ghost function Derive(v: Prover, d: Derivations, ids: seq<InputAccountIdentity>, program: ProgramId,
                        outputs: seq<ProgramOutput>): Option<Exec>
  {
    if !WindowsAccepted(outputs) then None
    else
      var vs :- Calls(v, program, outputs);
      var x :- Sync(d, ids, EMPTY, Touches(vs));
      if AllPdasBound(ids, x) && ModifiedWereClaimed(x) then Some(x) else None
  }

  /** Every start lies before every end. */
  ghost predicate Overlap(ws: seq<ValidityWindow>) {
    forall i, j :: 0 <= i < |ws| && 0 <= j < |ws| && ws[i].from.Some? && ws[j].to.Some? ==>
      ws[i].from.value < ws[j].to.value
  }

  /** The combined start is the latest one and the combined end the earliest one. */
  lemma {:induction false} IntersectBounds(ws: seq<ValidityWindow>)
    ensures var w := Intersect(ws);
            && (w.from.Some? ==> exists i :: 0 <= i < |ws| && ws[i].from == w.from)
            && (w.to.Some? ==> exists i :: 0 <= i < |ws| && ws[i].to == w.to)
            && (forall i :: 0 <= i < |ws| && ws[i].from.Some? ==> w.from.Some? && ws[i].from.value <= w.from.value)
            && (forall i :: 0 <= i < |ws| && ws[i].to.Some? ==> w.to.Some? && w.to.value <= ws[i].to.value)
    decreases |ws|
  {
    if ws != [] {
      var n := |ws| - 1;
      var rest := Intersect(ws[..n]);
      IntersectBounds(ws[..n]);
      if rest.from.Some? {
        var i :| 0 <= i < n && ws[..n][i].from == rest.from;
        assert ws[i].from == rest.from;
      }
      if rest.to.Some? {
        var i :| 0 <= i < n && ws[..n][i].to == rest.to;
        assert ws[i].to == rest.to;
      }
      assert forall i :: 0 <= i < n ==> ws[..n][i] == ws[i];
    }
  }

  lemma OverlapIff(ws: seq<ValidityWindow>)
    ensures Intersect(ws).Accepted() <==> Overlap(ws)
  {
    hide Intersect;
    IntersectBounds(ws);
    var w := Intersect(ws);
    if !w.Accepted() {
      var i :| 0 <= i < |ws| && ws[i].from == w.from;
      var j :| 0 <= j < |ws| && ws[j].to == w.to;
    }
  }

  /**
   * The circuit derives exactly the transactions whose windows overlap, whose outputs list a call
   * tree, whose touches are accepted one after another, whose private PDAs are all bound, and
   * that leave no account modified but unowned.
   */
  lemma DeriveIff(v: Prover, d: Derivations, ids: seq<InputAccountIdentity>, program: ProgramId,
                  outputs: seq<ProgramOutput>, x: Exec)
    ensures Derive(v, d, ids, program, outputs) == Some(x) <==>
            && outputs != []
            && var root := Pending(ChainedCall(program, outputs[0].preStates, outputs[0].instructionData, []), None);
            && Overlap(BlockWindows(outputs)) && Overlap(TimestampWindows(outputs))
            && (exists t :: WellFormed(v, root, t) && OutputsOf(Preorder(t)) == outputs && |outputs| <= 11
                            && Sync(d, ids, EMPTY, Touches(Preorder(t))) == Some(x))
            && (forall k :: 0 <= k < |ids| && ids[k].IsPrivatePda() ==> k in x.bindings.bound)
            && (forall k :: 0 <= k < |x.pre| && x.pre[k].account.programOwner == DEFAULT_PROGRAM_ID ==>
                  var id := x.pre[k].accountId;
                  id in x.post && (x.post[id] == x.pre[k].account || x.post[id].programOwner != DEFAULT_PROGRAM_ID))
  {
    hide Walk, Sync, Touches, WellFormed, Preorder, Intersect, OutputsOf;
    OverlapIff(BlockWindows(outputs));
    OverlapIff(TimestampWindows(outputs));
    if outputs != [] {
      var calls, root := Calls(v, program, outputs), RootCall(program, outputs[0]);
      if calls.Some? {
        WalkIsCallTree(v, program, outputs, calls.value);
      }
      forall t | WellFormed(v, root, t) && OutputsOf(Preorder(t)) == outputs && |outputs| <= 11
        ensures calls == Some(Preorder(t))
      {
        WalkIsCallTree(v, program, outputs, Preorder(t));
      }
    }
  }

  /** The parts of an acceptance. */
  lemma DeriveParts(v: Prover, d: Derivations, ids: seq<InputAccountIdentity>, program: ProgramId,
                    outputs: seq<ProgramOutput>)
    returns (vs: seq<Visit>, x: Exec)
    requires Derive(v, d, ids, program, outputs).Some?
    ensures Calls(v, program, outputs) == Some(vs)
    ensures Sync(d, ids, EMPTY, Touches(vs)) == Some(x) == Derive(v, d, ids, program, outputs)
    ensures AllPdasBound(ids, x) && ModifiedWereClaimed(x)
    ensures AllWellBehaved(vs) && ChangesAllowed(Touches(vs))
    ensures Consistent(x) && BoundDerives(d, ids, x)
  {
    hide Walk, Sync, Touches;
    vs := Calls(v, program, outputs).value;
    x := Sync(d, ids, EMPTY, Touches(vs)).value;
    WalkWellBehaved(v, [RootCall(program, outputs[0])], outputs, 0);
    TouchesAllowed(vs);
    SeenIffTouched(d, ids, Touches(vs));
  }

  /** The balances of an accepted transaction are conserved. */
  lemma AcceptedConserves(v: Prover, d: Derivations, ids: seq<InputAccountIdentity>, program: ProgramId,
                          outputs: seq<ProgramOutput>)
    requires Derive(v, d, ids, program, outputs).Some?
    ensures var x := Derive(v, d, ids, program, outputs).value;
            SumPost(x.pre, x.post) == SumPre(x.pre)
  {
    hide Walk, Sync, Touches;
    var vs, x := DeriveParts(v, d, ids, program, outputs);
    BalanceConserved(v, d, ids, [RootCall(program, outputs[0])], outputs);
  }

  /** An account leaves unowned only if it came in as the default account and was left unchanged. */
  lemma UnownedIsDefault(v: Prover, d: Derivations, ids: seq<InputAccountIdentity>, program: ProgramId,
                         outputs: seq<ProgramOutput>, k: nat)
    requires Derive(v, d, ids, program, outputs).Some?
    requires k < |Derive(v, d, ids, program, outputs).value.pre|
    ensures var x := Derive(v, d, ids, program, outputs).value;
            var id := x.pre[k].accountId;
            && id in x.post
            && (x.post[id].programOwner == DEFAULT_PROGRAM_ID ==>
                  x.post[id] == x.pre[k].account == DEFAULT_ACCOUNT)
  {
    hide Walk, Sync, Touches, Derive;
    var vs, x := DeriveParts(v, d, ids, program, outputs);
    var ts, id := Touches(vs), x.pre[k].accountId;
    SeenIffTouched(d, ids, ts);
    PositionUnique(x.pre, k);
    assert id in x.post;
    var j :| 0 <= j < |ts| && ts[j].Id() == id;
    var first := FirstTouch(ts, j);
    FirstSeenKept(d, ids, ts, first);
    if x.pre[k].account.programOwner != DEFAULT_PROGRAM_ID {
      OwnedStaysOwned(d, ids, ts, id);
    }
  }

  /** An account that comes in owned keeps its owner. */
  lemma {:induction false} OwnedStaysOwned(d: Derivations, ids: seq<InputAccountIdentity>, ts: seq<Touch>,
                                           id: AccountId)
    requires Sync(d, ids, EMPTY, ts).Some? && ChangesAllowed(ts) && Touched(ts, id)
    requires var x := Sync(d, ids, EMPTY, ts).value;
             PosOf(x, id) < |x.pre| && x.pre[PosOf(x, id)].account.programOwner != DEFAULT_PROGRAM_ID
    ensures var x := Sync(d, ids, EMPTY, ts).value;
            id in x.post && x.post[id].programOwner == x.pre[PosOf(x, id)].account.programOwner
    decreases |ts|
  {
    hide SyncOne, Sync, Position, Touched;
    TouchedNonEmpty(ts, id);
    var n := |ts| - 1;
    var x, y := Unfold(d, ids, ts);
    SeenIffTouched(d, ids, ts[..n]);
    SyncOneStates(d, ids, x, ts[n]);
    TouchedSnoc(ts, id);
    if Touched(ts[..n], id) {
      PositionsStay(d, ids, x, ts[n], y, id);
      OwnedStaysOwned(d, ids, ts[..n], id);
    }
  }
}
