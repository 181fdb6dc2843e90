/**
 * The worklist over chained calls, and the call tree it stands for.
 *
 * The circuit is handed a flat list of program outputs. It pops a call, pairs it with the next
 * output, and pushes the calls that output makes in front of what is left.
 */
module CallTrees {
  import opened Prelude
  import opened Programs

  /** Whether an output is proven to come from running a program. */
  datatype Prover = Prover(verify: (ProgramId, ProgramOutput) -> bool)

  /** A call still to be paired with an output, and who made it. */
  datatype Pending = Pending(call: ChainedCall, caller: Option<ProgramId>)

  /** A call paired with the output that answers it. */
  datatype Visit = Visit(call: ChainedCall, caller: Option<ProgramId>, output: ProgramOutput)

  /** The output answers the call: same instruction, same program, same caller, well behaved. */
  ghost predicate Answers(v: Prover, p: Pending, output: ProgramOutput) {
    && p.call.instructionData == output.instructionData
    && v.verify(p.call.programId, output)
    && output.selfProgramId == p.call.programId
    && output.callerProgramId == p.caller
    && WellBehaved(output.preStates, output.postStates, p.call.programId)
  }

  /** The calls an output makes, each on behalf of the program that produced it. */
  function CallsMade(program: ProgramId, output: ProgramOutput): (r: seq<Pending>)
    ensures |r| == |output.chainedCalls|
    ensures forall i :: 0 <= i < |r| ==> r[i] == Pending(output.chainedCalls[i], Some(program))
  {
    seq(|output.chainedCalls|, i requires 0 <= i < |output.chainedCalls| =>
      Pending(output.chainedCalls[i], Some(program)))
  }

  /** The worklist walk; `counter` calls have been made before. */
  ghost function Walk(v: Prover, work: seq<Pending>, outputs: seq<ProgramOutput>, counter: nat): Option<seq<Visit>>
    decreases |outputs|
  {
    if work == [] then (if outputs == [] then Some([]) else None)
    else if counter > MAX_NUMBER_CHAINED_CALLS || outputs == [] || !Answers(v, work[0], outputs[0]) then None
    else
      match Walk(v, CallsMade(work[0].call.programId, outputs[0]) + work[1..], outputs[1..], counter + 1)
      case None => None
      case Some(rest) => Some([Visit(work[0].call, work[0].caller, outputs[0])] + rest)
  }

  // ---- Call trees --------------------------------------------------------------------------

  datatype CallTree = Node(visit: Visit, children: seq<CallTree>)

  function Preorder(t: CallTree): seq<Visit>
    decreases t, 1
  {
    [t.visit] + PreorderAll(t.children)
  }

  function PreorderAll(ts: seq<CallTree>): seq<Visit>
    decreases ts, 0
  {
    if ts == [] then [] else Preorder(ts[0]) + PreorderAll(ts[1..])
  }

  /**
   * Every node ran the program its edge calls, on the instruction it gives, for the caller it
   * comes from, proven and well behaved; and it has one child per call it makes.
   */
  ghost predicate WellFormed(v: Prover, p: Pending, t: CallTree)
    decreases t, 1
  {
    var output := t.visit.output;
    && t.visit.call == p.call && t.visit.caller == p.caller
    && v.verify(p.call.programId, output)
    && output.selfProgramId == p.call.programId
    && output.callerProgramId == p.caller
    && output.instructionData == p.call.instructionData
    && WellBehaved(output.preStates, output.postStates, p.call.programId)
    && WellFormedAll(v, CallsMade(p.call.programId, output), t.children)
  }

  ghost predicate WellFormedAll(v: Prover, work: seq<Pending>, ts: seq<CallTree>)
    decreases ts, 0
  {
    && |work| == |ts|
    && (ts != [] ==> WellFormed(v, work[0], ts[0]) && WellFormedAll(v, work[1..], ts[1..]))
  }

  lemma {:induction false} WellFormedEach(v: Prover, work: seq<Pending>, ts: seq<CallTree>)
    ensures WellFormedAll(v, work, ts) <==>
            |work| == |ts| && forall i :: 0 <= i < |ts| ==> WellFormed(v, work[i], ts[i])
    decreases |ts|
  {
    if ts != [] && |work| == |ts| {
      WellFormedEach(v, work[1..], ts[1..]);
      assert forall i :: 1 <= i < |ts| ==> ts[i] == ts[1..][i - 1] && work[i] == work[1..][i - 1];
    }
  }

  /** The children of a node answer the calls it makes, in order, on its program's behalf. */
  lemma ChildrenInOrder(v: Prover, p: Pending, t: CallTree)
    requires WellFormed(v, p, t)
    ensures |t.children| == |t.visit.output.chainedCalls|
    ensures forall i :: 0 <= i < |t.children| ==>
              WellFormed(v, Pending(t.visit.output.chainedCalls[i], Some(p.call.programId)), t.children[i])
  {
    WellFormedEach(v, CallsMade(p.call.programId, t.visit.output), t.children);
  }

  function OutputsOf(visits: seq<Visit>): (r: seq<ProgramOutput>)
    ensures |r| == |visits|
    ensures forall i :: 0 <= i < |r| ==> r[i] == visits[i].output
  {
    seq(|visits|, i requires 0 <= i < |visits| => visits[i].output)
  }

  lemma {:induction false} PreorderConcat(a: seq<CallTree>, b: seq<CallTree>)
    ensures PreorderAll(a + b) == PreorderAll(a) + PreorderAll(b)
    decreases |a|
  {
    if a == [] {
      assert a + b == b;
    } else {
      assert (a + b)[1..] == a[1..] + b;
      PreorderConcat(a[1..], b);
    }
  }

  lemma {:induction false} WellFormedConcat(v: Prover, w: seq<Pending>, a: seq<CallTree>,
                                            x: seq<Pending>, b: seq<CallTree>)
    requires |w| == |a|
    ensures WellFormedAll(v, w + x, a + b) <==> WellFormedAll(v, w, a) && WellFormedAll(v, x, b)
    decreases |a|
  {
    if a == [] {
      assert a + b == b && w + x == x;
    } else {
      assert (a + b)[1..] == a[1..] + b && (w + x)[1..] == w[1..] + x;
      WellFormedConcat(v, w[1..], a[1..], x, b);
    }
  }

  lemma PreorderStep(ts: seq<CallTree>)
    requires ts != []
    ensures PreorderAll(ts) == [ts[0].visit] + (PreorderAll(ts[0].children) + PreorderAll(ts[1..]))
  {
  }

  /** One visit more: the first tree of a forest, opened at its root. */
  lemma OpenRoot(v: Prover, work: seq<Pending>, ts: seq<CallTree>)
    requires WellFormedAll(v, work, ts) && ts != []
    ensures Answers(v, work[0], ts[0].visit.output)
    ensures ts[0].visit == Visit(work[0].call, work[0].caller, ts[0].visit.output)
    ensures WellFormedAll(v, CallsMade(work[0].call.programId, ts[0].visit.output) + work[1..],
                          ts[0].children + ts[1..])
    ensures PreorderAll(ts) == [ts[0].visit] + PreorderAll(ts[0].children + ts[1..])
  {
    hide CallsMade, PreorderAll, WellBehaved;
    var t := ts[0];
    var made := CallsMade(work[0].call.programId, t.visit.output);
    assert WellFormed(v, work[0], t);
    assert WellFormedAll(v, made, t.children);
    WellFormedConcat(v, made, t.children, work[1..], ts[1..]);
    PreorderConcat(t.children, ts[1..]);
    PreorderStep(ts);
  }

  /** A forest for the work left over, folded back under the root that made part of it. */
  lemma CloseRoot(v: Prover, work: seq<Pending>, output: ProgramOutput, ts: seq<CallTree>)
    returns (closed: seq<CallTree>)
    requires work != [] && Answers(v, work[0], output)
    requires WellFormedAll(v, CallsMade(work[0].call.programId, output) + work[1..], ts)
    ensures WellFormedAll(v, work, closed)
    ensures PreorderAll(closed) == [Visit(work[0].call, work[0].caller, output)] + PreorderAll(ts)
  {
    var made := CallsMade(work[0].call.programId, output);
    var children, rest := ts[..|made|], ts[|made|..];
    assert ts == children + rest;
    WellFormedConcat(v, made, children, work[1..], rest);
    PreorderConcat(children, rest);
    var root := Node(Visit(work[0].call, work[0].caller, output), children);
    closed := [root] + rest;
    assert closed[1..] == rest;
  }

  /** What the walk accepts is the pre-order of a well-formed forest. */
  lemma {:induction false} WalkSound(v: Prover, work: seq<Pending>, outputs: seq<ProgramOutput>, counter: nat)
    returns (ts: seq<CallTree>)
    requires Walk(v, work, outputs, counter).Some?
    ensures WellFormedAll(v, work, ts)
    ensures PreorderAll(ts) == Walk(v, work, outputs, counter).value
    ensures OutputsOf(PreorderAll(ts)) == outputs
    ensures outputs != [] ==> counter + |outputs| <= MAX_NUMBER_CHAINED_CALLS + 1
    decreases |outputs|
  {
    if work == [] {
      ts := [];
    } else {
      var made := CallsMade(work[0].call.programId, outputs[0]);
      var rest := WalkSound(v, made + work[1..], outputs[1..], counter + 1);
      ts := CloseRoot(v, work, outputs[0], rest);
    }
  }

  /** And it accepts every such forest within the limit. */
  lemma {:induction false} WalkComplete(v: Prover, work: seq<Pending>, ts: seq<CallTree>, counter: nat)
    requires WellFormedAll(v, work, ts)
    requires ts != [] ==> counter + |PreorderAll(ts)| <= MAX_NUMBER_CHAINED_CALLS + 1
    ensures Walk(v, work, OutputsOf(PreorderAll(ts)), counter) == Some(PreorderAll(ts))
    decreases |PreorderAll(ts)|
  {
    if ts != [] {
      OpenRoot(v, work, ts);
      var made := CallsMade(work[0].call.programId, ts[0].visit.output);
      var inner := ts[0].children + ts[1..];
      WalkComplete(v, made + work[1..], inner, counter + 1);
      var outputs := OutputsOf(PreorderAll(ts));
      assert outputs[1..] == OutputsOf(PreorderAll(inner));
    }
  }

  /** The call at the root: the first output's own instruction, made by nobody, with no seeds. */
  function RootCall(program: ProgramId, first: ProgramOutput): Pending {
    Pending(ChainedCall(program, first.preStates, first.instructionData, []), None)
  }

  /**
   * The worklist accepts exactly the pre-order listings of call trees whose root is called by
   * nobody, without seeds, on the first output's instruction: nothing is left over, and there
   * are at most eleven nodes. The calls it visits are then the nodes of the tree.
   */
  lemma WalkIsCallTree(v: Prover, program: ProgramId, outputs: seq<ProgramOutput>, visits: seq<Visit>)
    requires outputs != []
    ensures var root := Pending(ChainedCall(program, outputs[0].preStates, outputs[0].instructionData, []), None);
            Walk(v, [RootCall(program, outputs[0])], outputs, 0) == Some(visits) <==>
            exists t :: WellFormed(v, root, t) && Preorder(t) == visits
                        && OutputsOf(visits) == outputs && |outputs| <= 11
  {
    hide WellBehaved;
    var root := RootCall(program, outputs[0]);
    if Walk(v, [root], outputs, 0) == Some(visits) {
      var ts := WalkSound(v, [root], outputs, 0);
      assert ts == [ts[0]];
      assert PreorderAll(ts) == Preorder(ts[0]);
      assert WellFormed(v, root, ts[0]);
    }
    if t :| WellFormed(v, root, t) && Preorder(t) == visits && OutputsOf(visits) == outputs && |outputs| <= 11 {
      assert [t][1..] == [];
      assert WellFormedAll(v, [root][1..], [t][1..]);
      assert PreorderAll([t]) == Preorder(t);
      WalkComplete(v, [root], [t], 0);
    }
  }
}
