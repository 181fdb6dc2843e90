/**
 * The recorded side of private accounts: which commitments were published and which nullifiers
 * spent, over any sequence of transactions.
 */
module PrivateStates {
  import opened Prelude
  import opened Programs
  import opened Identities
  import opened CallTrees
  import opened Execution
  import opened Derivation
  import opened Sorting
  import opened CircuitOutputs
  import opened Circuit

  /** The root of the tree over its leaves. */
  type RootFunction = seq<Commitment> -> CommitmentSetDigest

  /** The commitments in tree order, the spent nullifiers, and every tree root there has been. */
  datatype PrivateSets = PrivateSets(
    leaves: seq<Commitment>,
    nullifiers: set<Nullifier>,
    roots: set<CommitmentSetDigest>)

  const DUMMY_COMMITMENT: Commitment :=
    Commitment(0x37E4D7CF70DDEF31_EE4F47879B0FB82D_684A33D3EE2AA0F3_0F7CFD3E03E55A1B)

  predicate Distinct<T(==)>(s: seq<T>) {
    forall i, j :: 0 <= i < j < |s| ==> s[i] != s[j]
  }

  function Nullifiers(actions: seq<PrivateAction>): (r: seq<Nullifier>)
    ensures |r| == |actions| && forall i :: 0 <= i < |r| ==> r[i] == actions[i].nullifier
  {
    seq(|actions|, i requires 0 <= i < |actions| => actions[i].nullifier)
  }

  /** The checks on a transaction's private actions. */
  predicate Accepts(s: PrivateSets, actions: seq<PrivateAction>) {
    && actions != []
    && Distinct(Nullifiers(actions)) && Distinct(Commitments(actions))
    && (forall a :: a in actions ==> a.commitment !in s.leaves)
    && (forall a :: a in actions ==> a.nullifier !in s.nullifiers && a.root in s.roots)
  }

  /** Records published actions. */
  function RecordActions(rootOf: RootFunction, s: PrivateSets, actions: seq<PrivateAction>)
    : PrivateSets
  {
    var leaves := s.leaves + Commitments(actions);
    PrivateSets(leaves, s.nullifiers + (set a | a in actions :: a.nullifier), s.roots + {rootOf(leaves)})
  }

  // ---- In place ----------------------------------------------------------------------------

  /** How many different values a list holds. */
  method CountUnique<T(==)>(s: seq<T>) returns (n: nat)
    ensures n <= |s|
    ensures n == |s| <==> Distinct(s)
  {
    var seen: set<T> := {};
    for i := 0 to |s|
      invariant seen == (set x | x in s[..i])
      invariant |seen| <= i
      invariant |seen| == i <==> Distinct(s[..i])
    {
      assert s[..i + 1] == s[..i] + [s[i]];
      if s[i] in seen {
        assert seen + {s[i]} == seen;
        var k :| 0 <= k < i && s[..i][k] == s[i];
        assert s[..i + 1][k] == s[..i + 1][i];
      } else {
        assert Distinct(s[..i + 1]) <==> Distinct(s[..i]) by {
          assert forall k :: 0 <= k < i ==> s[..i + 1][k] == s[..i][k];
          assert forall k :: 0 <= k < i ==> s[..i][k] in s[..i];
        }
      }
      seen := seen + {s[i]};
    }
    assert s[..|s|] == s;
    return |seen|;
  }

  class PrivateState {
    const rootOf: RootFunction

    var leaves: seq<Commitment>
    var commitments: set<Commitment>
    var nullifiers: set<Nullifier>
    var rootHistory: set<CommitmentSetDigest>

    ghost function Model(): PrivateSets
      reads this
    {
      PrivateSets(leaves, nullifiers, rootHistory)
    }

    /** The commitments looked up are those in the tree. */
    ghost predicate Valid()
      reads this
    {
      commitments == set x | x in leaves
    }

    /** A new state holds the dummy commitment and nothing else. */
    constructor (rootOf: RootFunction)
      ensures Valid() && this.rootOf == rootOf
      ensures Model() == PrivateSets([DUMMY_COMMITMENT], {}, {rootOf([DUMMY_COMMITMENT])})
    {
      this.rootOf := rootOf;
      leaves, commitments, nullifiers, rootHistory := [], {}, {}, {};
      new;
      ExtendCommitments([DUMMY_COMMITMENT]);
      assert leaves == [DUMMY_COMMITMENT] && rootHistory == {rootOf(leaves)};
    }

    method CheckCommitmentsAreNew(arriving: seq<Commitment>) returns (ok: bool)
      requires Valid()
      ensures ok <==> forall x :: x in arriving ==> x !in leaves
    {
      for i := 0 to |arriving|
        invariant forall k :: 0 <= k < i ==> arriving[k] !in leaves
      {
        if arriving[i] in commitments {
          return false;
        }
      }
      return true;
    }

    method CheckNullifiersAreValid(actions: seq<PrivateAction>) returns (ok: bool)
      ensures ok <==> forall a :: a in actions ==> a.nullifier !in nullifiers && a.root in rootHistory
    {
      for i := 0 to |actions|
        invariant forall k :: 0 <= k < i ==> actions[k].nullifier !in nullifiers && actions[k].root in rootHistory
      {
        if actions[i].nullifier in nullifiers || actions[i].root !in rootHistory {
          return false;
        }
      }
      return true;
    }

    /** Inserts the commitments one by one; the root is recorded once, after the last. */
    method ExtendCommitments(arriving: seq<Commitment>)
      requires Valid()
      modifies this`leaves, this`commitments, this`rootHistory
      ensures Valid()
      ensures leaves == old(leaves) + arriving && rootHistory == old(rootHistory) + {rootOf(leaves)}
    {
      for i := 0 to |arriving|
        invariant Valid() && leaves == old(leaves) + arriving[..i] && rootHistory == old(rootHistory)
      {
        leaves := leaves + [arriving[i]];
        commitments := commitments + {arriving[i]};
        assert arriving[..i + 1] == arriving[..i] + [arriving[i]];
      }
      assert arriving[..|arriving|] == arriving;
      rootHistory := rootHistory + {rootOf(leaves)};
    }

    /** Accepts exactly what passes the checks, records it, and otherwise changes nothing. */
    method Transition(actions: seq<PrivateAction>) returns (ok: bool)
      requires Valid()
      modifies this`leaves, this`commitments, this`nullifiers, this`rootHistory
      ensures Valid()
      ensures ok <==> Accepts(old(Model()), actions)
      ensures Model() == if ok then RecordActions(rootOf, old(Model()), actions) else old(Model())
    {
      if actions == [] {
        return false;
      }
      var unique := CountUnique(Nullifiers(actions));
      if unique != |Nullifiers(actions)| {
        return false;
      }
      unique := CountUnique(Commitments(actions));
      if unique != |Commitments(actions)| {
        return false;
      }
      assert forall x :: x in Commitments(actions) <==> exists a :: a in actions && a.commitment == x by {
        CommitmentsIn(actions);
      }
      ok := CheckCommitmentsAreNew(Commitments(actions));
      if !ok {
        return false;
      }
      ok := CheckNullifiersAreValid(actions);
      if !ok {
        return false;
      }
      ExtendCommitments(Commitments(actions));
      nullifiers := nullifiers + set a | a in actions :: a.nullifier;
    }
  }

  lemma CommitmentsIn(actions: seq<PrivateAction>)
    ensures forall x :: x in Commitments(actions) <==> exists a :: a in actions && a.commitment == x
  {
    forall x
      ensures x in Commitments(actions) <==> exists a :: a in actions && a.commitment == x
    {
      if x in Commitments(actions) {
        var i :| 0 <= i < |actions| && Commitments(actions)[i] == x;
        assert actions[i] in actions && actions[i].commitment == x;
      }
      if a :| a in actions && a.commitment == x {
        var i :| 0 <= i < |actions| && actions[i] == a;
        assert Commitments(actions)[i] == x;
      }
    }
  }

  // ---- Histories ---------------------------------------------------------------------------

  /** A private transaction: what was proved, and the actions it published. */
  datatype PrivateTx = PrivateTx(
    ids: seq<InputAccountIdentity>,
    program: ProgramId,
    outputs: seq<ProgramOutput>,
    dummies: seq<DummyInput>,
    published: seq<PrivateAction>)

  /** A public transaction or a deployment publishes nothing and only notes the current root again. */
  datatype Transaction = Private(tx: PrivateTx) | Other

  /** The circuit produced the published actions. */
  ghost predicate Proven(c: Crypto, v: Prover, d: Derivations, t: PrivateTx) {
    Publishes(c, v, d, t.ids, t.program, t.outputs, t.dummies, t.published)
  }

  function Published(t: Transaction): seq<PrivateAction> {
    if t.Private? then t.tx.published else []
  }

  /** The sets after a history, or `None` if one of its transactions was refused. */
  function RecordAll(rootOf: RootFunction, s: PrivateSets, ts: seq<Transaction>)
    : Option<PrivateSets>
  {
    if ts == [] then Some(s)
    else
      var n := |ts| - 1;
      var before :- RecordAll(rootOf, s, ts[..n]);
      if ts[n].Private? && !Accepts(before, ts[n].tx.published) then None
      else Some(RecordActions(rootOf, before, Published(ts[n])))
  }

  lemma {:induction false} RecordedPrefix(rootOf: RootFunction, s: PrivateSets,
                                          ts: seq<Transaction>, n: nat)
    requires n <= |ts| && RecordAll(rootOf, s, ts).Some?
    ensures RecordAll(rootOf, s, ts[..n]).Some?
    ensures n < |ts| && ts[n].Private? ==> Accepts(RecordAll(rootOf, s, ts[..n]).value, ts[n].tx.published)
    decreases |ts|
  {
    hide Accepts, RecordActions;
    if n == |ts| {
      assert ts[..n] == ts;
    } else if n < |ts| - 1 {
      RecordedPrefix(rootOf, s, ts[..|ts| - 1], n);
      assert ts[..|ts| - 1][..n] == ts[..n];
    }
  }

  /** What was recorded stays recorded. */
  lemma {:induction false} Recorded(rootOf: RootFunction, s: PrivateSets,
                                    ts: seq<Transaction>, i: nat, a: PrivateAction)
    requires RecordAll(rootOf, s, ts).Some? && i < |ts| && a in Published(ts[i])
    ensures a.nullifier in RecordAll(rootOf, s, ts).value.nullifiers
    decreases |ts|
  {
    hide Accepts;
    if i < |ts| - 1 {
      Recorded(rootOf, s, ts[..|ts| - 1], i, a);
    }
  }

  /** Over any history, no nullifier is published twice. */
  lemma NullifiedOnce(rootOf: RootFunction, s: PrivateSets, ts: seq<Transaction>,
                      i: nat, j: nat, k: nat, l: nat)
    requires RecordAll(rootOf, s, ts).Some?
    requires i < |ts| && j < |ts| && k < |Published(ts[i])| && l < |Published(ts[j])|
    requires Published(ts[i])[k].nullifier == Published(ts[j])[l].nullifier
    ensures i == j && k == l
  {
    if i == j {
      RecordedPrefix(rootOf, s, ts, i);
      assert Nullifiers(Published(ts[i]))[k] == Nullifiers(Published(ts[i]))[l];
    } else if i < j {
      NotAgain(rootOf, s, ts, i, j, Published(ts[i])[k], Published(ts[j])[l]);
    } else {
      NotAgain(rootOf, s, ts, j, i, Published(ts[j])[l], Published(ts[i])[k]);
    }
  }

  lemma NotAgain(rootOf: RootFunction, s: PrivateSets, ts: seq<Transaction>,
                 i: nat, j: nat, a: PrivateAction, b: PrivateAction)
    requires RecordAll(rootOf, s, ts).Some? && i < j < |ts| && a in Published(ts[i]) && b in Published(ts[j])
    ensures a.nullifier != b.nullifier
  {
    hide RecordAll;
    RecordedPrefix(rootOf, s, ts, j);
    Recorded(rootOf, s, ts[..j], i, a);
  }

  // ---- What a history may be ---------------------------------------------------------------

  /** Everything a history publishes, in order. */
  function AllPublished(ts: seq<Transaction>): seq<PrivateAction> {
    if ts == [] then [] else AllPublished(ts[..|ts| - 1]) + Published(ts[|ts| - 1])
  }

  /** The tree's leaves after a history. */
  function LeavesAfter(s: PrivateSets, ts: seq<Transaction>): seq<Commitment> {
    s.leaves + Commitments(AllPublished(ts))
  }

  /** The root was there at the start, or is the tree's root after one of the first `n` transactions. */
  ghost predicate RootBy(rootOf: RootFunction, s: PrivateSets, ts: seq<Transaction>, n: nat,
                         root: CommitmentSetDigest)
    requires n <= |ts|
  {
    root in s.roots || exists k :: 1 <= k <= n && root == rootOf(LeavesAfter(s, ts[..k]))
  }

  lemma RootByPrefix(rootOf: RootFunction, s: PrivateSets, ts: seq<Transaction>, m: nat, n: nat,
                     root: CommitmentSetDigest)
    requires n <= m <= |ts|
    ensures RootBy(rootOf, s, ts[..m], n, root) <==> RootBy(rootOf, s, ts, n, root)
  {
    assert forall k :: 1 <= k <= n ==> ts[..m][..k] == ts[..k];
  }

  lemma RootBySnoc(rootOf: RootFunction, s: PrivateSets, ts: seq<Transaction>,
                   root: CommitmentSetDigest)
    requires ts != []
    ensures RootBy(rootOf, s, ts, |ts|, root) <==>
            RootBy(rootOf, s, ts[..|ts| - 1], |ts| - 1, root) || root == rootOf(LeavesAfter(s, ts))
  {
    hide LeavesAfter;
    var n := |ts| - 1;
    RootByPrefix(rootOf, s, ts, n, n, root);
    assert ts[..|ts|] == ts;
  }

  lemma LeavesSnoc(s: PrivateSets, ts: seq<Transaction>)
    requires ts != []
    ensures LeavesAfter(s, ts) == LeavesAfter(s, ts[..|ts| - 1]) + Commitments(Published(ts[|ts| - 1]))
  {
    NullifiersConcat(AllPublished(ts[..|ts| - 1]), Published(ts[|ts| - 1]));
    hide Commitments, Nullifiers, Published;
  }

  /** What the last transaction of a history adds. */
  lemma HistorySnoc(rootOf: RootFunction, s: PrivateSets, ts: seq<Transaction>)
    requires ts != []
    ensures var n := |ts| - 1;
            var before, last := AllPublished(ts[..n]), Published(ts[n]);
            && Nullifiers(AllPublished(ts)) == Nullifiers(before) + Nullifiers(last)
            && Commitments(AllPublished(ts)) == Commitments(before) + Commitments(last)
            && LeavesAfter(s, ts) == LeavesAfter(s, ts[..n]) + Commitments(last)
            && forall root :: RootBy(rootOf, s, ts, |ts|, root) <==>
                              RootBy(rootOf, s, ts[..n], n, root) || root == rootOf(LeavesAfter(s, ts))
  {
    hide Commitments, Nullifiers, Published, LeavesAfter, RootBy;
    var n := |ts| - 1;
    NullifiersConcat(AllPublished(ts[..n]), Published(ts[n]));
    LeavesSnoc(s, ts);
    forall root
      ensures RootBy(rootOf, s, ts, |ts|, root) <==>
              RootBy(rootOf, s, ts[..n], n, root) || root == rootOf(LeavesAfter(s, ts))
    {
      RootBySnoc(rootOf, s, ts, root);
    }
  }

  /** The sets hold what was there at the start and what a history published, and nothing else. */
  ghost predicate Holds(rootOf: RootFunction, s: PrivateSets, ts: seq<Transaction>, r: PrivateSets)
  {
    && r.leaves == LeavesAfter(s, ts)
    && (forall x :: x in r.nullifiers <==> x in s.nullifiers || x in Nullifiers(AllPublished(ts)))
    && (forall root :: root in r.roots <==> RootBy(rootOf, s, ts, |ts|, root))
  }

  lemma NothingHeld(rootOf: RootFunction, s: PrivateSets)
    ensures Holds(rootOf, s, [], s)
  {
    assert Commitments(AllPublished([])) == [];
  }

  lemma HoldsNext(rootOf: RootFunction, s: PrivateSets, ts: seq<Transaction>, r: PrivateSets)
    requires ts != [] && Holds(rootOf, s, ts[..|ts| - 1], r)
    ensures Holds(rootOf, s, ts, RecordActions(rootOf, r, Published(ts[|ts| - 1])))
  {
    HistorySnoc(rootOf, s, ts);
    NullifiersOf(Published(ts[|ts| - 1]));
    hide AllPublished, Nullifiers, Commitments, LeavesAfter, RootBy;
  }

  lemma {:induction false} RecordedExactly(rootOf: RootFunction, s: PrivateSets,
                                           ts: seq<Transaction>)
    requires RecordAll(rootOf, s, ts).Some?
    ensures Holds(rootOf, s, ts, RecordAll(rootOf, s, ts).value)
    decreases |ts|
  {
    hide Accepts, Holds, RecordActions;
    if ts == [] {
      NothingHeld(rootOf, s);
    } else {
      var n := |ts| - 1;
      RecordedExactly(rootOf, s, ts[..n]);
      HoldsNext(rootOf, s, ts, RecordAll(rootOf, s, ts[..n]).value);
    }
  }

  lemma NullifiersConcat(a: seq<PrivateAction>, b: seq<PrivateAction>)
    ensures Nullifiers(a + b) == Nullifiers(a) + Nullifiers(b)
    ensures Commitments(a + b) == Commitments(a) + Commitments(b)
  {
  }

  lemma NullifiersOf(actions: seq<PrivateAction>)
    ensures forall x :: x in Nullifiers(actions) <==> x in set a | a in actions :: a.nullifier
  {
    forall x
      ensures x in Nullifiers(actions) <==> x in set a | a in actions :: a.nullifier
    {
      if x in Nullifiers(actions) {
        var i :| 0 <= i < |actions| && Nullifiers(actions)[i] == x;
        assert actions[i] in actions;
      }
      if a :| a in actions && a.nullifier == x {
        var i :| 0 <= i < |actions| && actions[i] == a;
        assert Nullifiers(actions)[i] == x;
      }
    }
  }

  lemma DistinctConcat<T>(a: seq<T>, b: seq<T>)
    ensures Distinct(a + b) <==> Distinct(a) && Distinct(b) && forall x :: x in a ==> x !in b
  {
    var all := a + b;
    assert forall i :: 0 <= i < |a| ==> all[i] == a[i];
    assert forall i :: 0 <= i < |b| ==> all[|a| + i] == b[i];
    if Distinct(a) && Distinct(b) && forall x :: x in a ==> x !in b {
      forall i, j | 0 <= i < j < |all|
        ensures all[i] != all[j]
      {
        if i < |a| <= j {
          assert a[i] in a && b[j - |a|] in b;
        } else if |a| <= i {
          assert b[i - |a|] != b[j - |a|];
        }
      }
    }
  }

  /**
   * What a whole history must satisfy: every private transaction publishes something, no
   * nullifier and no commitment occurs twice or was there before, and every root an action
   * refers to is one the tree had before its transaction.
   */
  ghost predicate HistoryFits(rootOf: RootFunction, s: PrivateSets, ts: seq<Transaction>) {
    var all := AllPublished(ts);
    && (forall i :: 0 <= i < |ts| && ts[i].Private? ==> ts[i].tx.published != [])
    && Distinct(Nullifiers(all)) && Distinct(Commitments(all))
    && (forall x :: x in Nullifiers(all) ==> x !in s.nullifiers)
    && (forall x :: x in Commitments(all) ==> x !in s.leaves)
    && (forall i :: 0 <= i < |ts| ==> RootsFit(rootOf, s, ts, i))
  }

  /** Every root transaction `i` refers to is one the tree had before it. */
  ghost predicate RootsFit(rootOf: RootFunction, s: PrivateSets, ts: seq<Transaction>, i: nat)
    requires i < |ts|
  {
    forall a :: a in Published(ts[i]) ==> RootBy(rootOf, s, ts, i, a.root)
  }

  lemma RootsFitPrefix(rootOf: RootFunction, s: PrivateSets, ts: seq<Transaction>, n: nat, i: nat)
    requires i < n <= |ts|
    ensures RootsFit(rootOf, s, ts[..n], i) <==> RootsFit(rootOf, s, ts, i)
  {
    forall root
      ensures RootBy(rootOf, s, ts[..n], i, root) <==> RootBy(rootOf, s, ts, i, root)
    {
      RootByPrefix(rootOf, s, ts, n, i, root);
    }
    hide RootBy;
  }

  /** What the last transaction of a history must satisfy. */
  ghost predicate LastFits(rootOf: RootFunction, s: PrivateSets, ts: seq<Transaction>)
    requires ts != []
  {
    var n := |ts| - 1;
    var before, last := AllPublished(ts[..n]), Published(ts[n]);
    && (ts[n].Private? ==> last != [])
    && Distinct(Nullifiers(last)) && Distinct(Commitments(last))
    && (forall x :: x in Nullifiers(last) ==> x !in s.nullifiers && x !in Nullifiers(before))
    && (forall x :: x in Commitments(last) ==> x !in s.leaves && x !in Commitments(before))
    && RootsFit(rootOf, s, ts, n)
  }

  lemma FitsSnoc(rootOf: RootFunction, s: PrivateSets, ts: seq<Transaction>)
    requires ts != []
    ensures HistoryFits(rootOf, s, ts) <==> HistoryFits(rootOf, s, ts[..|ts| - 1]) && LastFits(rootOf, s, ts)
  {
    var n := |ts| - 1;
    var before, last := AllPublished(ts[..n]), Published(ts[n]);
    HistorySnoc(rootOf, s, ts);
    DistinctConcat(Nullifiers(before), Nullifiers(last));
    DistinctConcat(Commitments(before), Commitments(last));
    forall i | 0 <= i < n
      ensures RootsFit(rootOf, s, ts[..n], i) <==> RootsFit(rootOf, s, ts, i)
      ensures ts[..n][i] == ts[i]
    {
      RootsFitPrefix(rootOf, s, ts, n, i);
    }
    hide AllPublished, Nullifiers, Commitments, RootsFit, LeavesAfter, RootBy, Distinct;
  }

  /** The checks of a transaction ask just that of it. */
  lemma AcceptedFits(rootOf: RootFunction, s: PrivateSets, ts: seq<Transaction>, r: PrivateSets)
    requires ts != [] && Holds(rootOf, s, ts[..|ts| - 1], r)
    ensures var n := |ts| - 1;
            LastFits(rootOf, s, ts) <==> (ts[n].Private? ==> Accepts(r, ts[n].tx.published))
  {
    var n := |ts| - 1;
    var last := Published(ts[n]);
    NullifiersOf(last);
    CommitmentsIn(last);
    forall root
      ensures root in r.roots <==> RootBy(rootOf, s, ts, n, root)
    {
      RootByPrefix(rootOf, s, ts, n, n, root);
    }
    hide AllPublished, Nullifiers, Commitments, RootBy, Distinct;
    NothingDistinct<Nullifier>();
    NothingDistinct<Commitment>();
  }

  lemma NothingDistinct<T>()
    ensures Distinct<T>([])
  {
  }

  /** A history is accepted, transaction by transaction, if and only if it fits as a whole. */
  lemma {:induction false} HistoryAcceptedIff(rootOf: RootFunction, s: PrivateSets,
                                              ts: seq<Transaction>)
    ensures RecordAll(rootOf, s, ts).Some? <==> HistoryFits(rootOf, s, ts)
    decreases |ts|
  {
    if ts == [] {
      assert AllPublished(ts) == [];
    } else {
      hide Accepts, HistoryFits, LastFits, RecordActions, Holds;
      var n := |ts| - 1;
      HistoryAcceptedIff(rootOf, s, ts[..n]);
      FitsSnoc(rootOf, s, ts);
      if RecordAll(rootOf, s, ts[..n]).Some? {
        RecordedExactly(rootOf, s, ts[..n]);
        AcceptedFits(rootOf, s, ts, RecordAll(rootOf, s, ts[..n]).value);
      }
    }
  }

  // ---- From published actions back to notes ------------------------------------------------

  lemma {:induction false} SealAllAt(c: Crypto, notes: seq<Note>, i: nat)
    requires i < |notes|
    ensures |SealAll(c, notes)| == |notes| && SealAll(c, notes)[i] == Seal(c, notes[i])
    decreases |notes|
  {
    hide Seal;
    var n := |notes| - 1;
    if i < n {
      SealAllAt(c, notes[..n], i);
    } else if n > 0 {
      SealAllAt(c, notes[..n], 0);
    }
  }

  /** Different places before the reordering are different places after it. */
  lemma TwoPlaces(actions: seq<PrivateAction>, out: seq<PrivateAction>, i: nat, j: nat) returns (p: nat, q: nat)
    requires Obfuscates(actions, out) && i < |actions| && j < |actions| && i != j
    ensures p < |out| && q < |out| && p != q
    ensures BodyOf(out[p]) == BodyOf(actions[i]) && BodyOf(out[q]) == BodyOf(actions[j])
  {
    hide SortedBy, Bodies;
    p, q := OtherPlaces(Bodies(actions), Bodies(out), i, j);
  }

  ghost function NotesOf(c: Crypto, v: Prover, d: Derivations, t: PrivateTx): seq<Note>
    requires Proven(c, v, d, t)
  {
    Emitted(c, v, d, t.ids, t.program, t.outputs).value.notes
  }

  ghost function PreOf(c: Crypto, v: Prover, d: Derivations, t: PrivateTx): seq<AccountWithMetadata>
    requires Proven(c, v, d, t)
  {
    Derive(v, d, t.ids, t.program, t.outputs).value.pre
  }

  /** Every note's nullifier and root are published. */
  lemma NoteIsPublished(c: Crypto, v: Prover, d: Derivations, t: PrivateTx, i: nat) returns (p: nat)
    requires Proven(c, v, d, t) && i < |NotesOf(c, v, d, t)|
    ensures p < |t.published|
    ensures t.published[p].nullifier == NotesOf(c, v, d, t)[i].nullifier
    ensures t.published[p].root == NotesOf(c, v, d, t)[i].root
  {
    hide Emitted, Obfuscates;
    var notes := NotesOf(c, v, d, t);
    var actions := SealAll(c, notes) + SealDummies(c, t.dummies);
    SealAllAt(c, notes, i);
    assert actions[i] == Seal(c, notes[i]);
    SurvivesObfuscation(actions, t.published, actions[i]);
    var b :| b in t.published && BodyOf(b) == BodyOf(actions[i]);
    p :| 0 <= p < |t.published| && t.published[p] == b;
  }

  lemma NotesInTwoPlaces(c: Crypto, v: Prover, d: Derivations, t: PrivateTx, i: nat, j: nat) returns (p: nat, q: nat)
    requires Proven(c, v, d, t) && i < |NotesOf(c, v, d, t)| && j < |NotesOf(c, v, d, t)| && i != j
    ensures p < |t.published| && q < |t.published| && p != q
    ensures t.published[p].nullifier == NotesOf(c, v, d, t)[i].nullifier
    ensures t.published[q].nullifier == NotesOf(c, v, d, t)[j].nullifier
  {
    hide Emitted, Obfuscates;
    var notes := NotesOf(c, v, d, t);
    var actions := SealAll(c, notes) + SealDummies(c, t.dummies);
    SealAllAt(c, notes, i);
    SealAllAt(c, notes, j);
    assert actions[i] == Seal(c, notes[i]) && actions[j] == Seal(c, notes[j]);
    p, q := TwoPlaces(actions, t.published, i, j);
  }

  /** A note of a history: transaction `i`, note `k`. */
  ghost predicate HasNote(c: Crypto, v: Prover, d: Derivations, ts: seq<Transaction>, i: nat, k: nat) {
    && i < |ts| && ts[i].Private? && Proven(c, v, d, ts[i].tx)
    && k < |NotesOf(c, v, d, ts[i].tx)|
  }

  ghost function NoteIn(c: Crypto, v: Prover, d: Derivations, ts: seq<Transaction>, i: nat, k: nat): Note
    requires HasNote(c, v, d, ts, i, k)
  {
    NotesOf(c, v, d, ts[i].tx)[k]
  }

  /** Over any history, no two notes share a nullifier. */
  lemma NotesNullifyOnce(c: Crypto, v: Prover, d: Derivations, rootOf: RootFunction,
                         s: PrivateSets, ts: seq<Transaction>, i: nat, k: nat, j: nat, l: nat)
    requires RecordAll(rootOf, s, ts).Some?
    requires HasNote(c, v, d, ts, i, k) && HasNote(c, v, d, ts, j, l)
    requires NoteIn(c, v, d, ts, i, k).nullifier == NoteIn(c, v, d, ts, j, l).nullifier
    ensures i == j && k == l
  {
    hide RecordAll, NotesOf, Proven;
    if i == j && k != l {
      var p, q := NotesInTwoPlaces(c, v, d, ts[i].tx, k, l);
      NullifiedOnce(rootOf, s, ts, i, j, p, q);
    } else if i != j {
      var p := NoteIsPublished(c, v, d, ts[i].tx, k);
      var q := NoteIsPublished(c, v, d, ts[j].tx, l);
      NullifiedOnce(rootOf, s, ts, i, j, p, q);
    }
  }

  // ---- Accounts over a history -------------------------------------------------------------

  /** A private account of a history: transaction `i`, account `k`. */
  ghost predicate HasAccount(c: Crypto, v: Prover, d: Derivations, ts: seq<Transaction>, i: nat, k: nat) {
    && i < |ts| && ts[i].Private? && Proven(c, v, d, ts[i].tx)
    && k < |ts[i].tx.ids| && !ts[i].tx.ids[k].Public?
    && k < |PreOf(c, v, d, ts[i].tx)|
  }

  function IdentityIn(ts: seq<Transaction>, i: nat, k: nat): InputAccountIdentity
    requires i < |ts| && ts[i].Private? && k < |ts[i].tx.ids|
  {
    ts[i].tx.ids[k]
  }

  /** How the account came into its transaction. */
  ghost function PreIn(c: Crypto, v: Prover, d: Derivations, ts: seq<Transaction>, i: nat, k: nat): AccountWithMetadata
    requires HasAccount(c, v, d, ts, i, k)
  {
    PreOf(c, v, d, ts[i].tx)[k]
  }

  /** Each private account of a transaction has its own note, spending what it came in as. */
  lemma AccountNote(c: Crypto, v: Prover, d: Derivations, ts: seq<Transaction>, i: nat, k: nat) returns (m: nat)
    requires HasAccount(c, v, d, ts, i, k)
    ensures m == PrivateBefore(ts[i].tx.ids, k) && HasNote(c, v, d, ts, i, m)
    ensures var n, pre, identity := NoteIn(c, v, d, ts, i, m), PreIn(c, v, d, ts, i, k), IdentityIn(ts, i, k);
            && n.accountId == pre.accountId && Rederives(d, n)
            && n.npk == NpkOf(d, identity) && n.vpk == identity.vpk
            && (identity.IsInit() ==> n.nullifier == c.initNullifier(pre.accountId) && pre.account == DEFAULT_ACCOUNT)
            && (identity.IsUpdate() ==>
                  var before := c.commit(pre.accountId, pre.account);
                  && n.nullifier == c.updateNullifier(before, identity.nsk)
                  && n.root == c.digestForPath(before, identity.membershipProof))
  {
    hide Emitted, Derive, NoteFor, Obfuscates, Rederives;
    var t := ts[i].tx;
    m := PrivateBefore(t.ids, k);
    OutputFaithful(c, v, d, t.ids, t.program, t.outputs);
    var x := Derive(v, d, t.ids, t.program, t.outputs).value;
    assert EmittedAt(c, d, t.ids, x, k, Emitted(c, v, d, t.ids, t.program, t.outputs).value);
  }

  lemma OwnNotes(ids: seq<InputAccountIdentity>, k: nat, l: nat)
    requires k < |ids| && l < |ids| && !ids[k].Public? && !ids[l].Public?
    requires PrivateBefore(ids, k) == PrivateBefore(ids, l)
    ensures k == l
  {
    if k < l {
      PrivateBeforeGrows(ids, k, l);
    } else if l < k {
      PrivateBeforeGrows(ids, l, k);
    }
  }

  /** Over any history of proven transactions, no private account is created twice. */
  lemma CreatedAtMostOnce(c: Crypto, v: Prover, d: Derivations, rootOf: RootFunction,
                          s: PrivateSets, ts: seq<Transaction>, i: nat, k: nat, j: nat, l: nat)
    requires RecordAll(rootOf, s, ts).Some?
    requires HasAccount(c, v, d, ts, i, k) && HasAccount(c, v, d, ts, j, l)
    requires IdentityIn(ts, i, k).IsInit() && IdentityIn(ts, j, l).IsInit()
    requires PreIn(c, v, d, ts, i, k).accountId == PreIn(c, v, d, ts, j, l).accountId
    ensures i == j && k == l
  {
    hide RecordAll, HasAccount, HasNote, PreIn, NoteIn;
    var m := AccountNote(c, v, d, ts, i, k);
    var n := AccountNote(c, v, d, ts, j, l);
    NotesNullifyOnce(c, v, d, rootOf, s, ts, i, m, j, n);
    AccountIsPrivate(c, v, d, ts, i, k);
    AccountIsPrivate(c, v, d, ts, j, l);
    OwnNotes(ts[i].tx.ids, k, l);
  }

  lemma AccountIsPrivate(c: Crypto, v: Prover, d: Derivations, ts: seq<Transaction>, i: nat, k: nat)
    requires HasAccount(c, v, d, ts, i, k)
    ensures i < |ts| && ts[i].Private? && k < |ts[i].tx.ids| && !ts[i].tx.ids[k].Public?
  {
  }

  /** Different secret keys derive different account ids, whatever the kinds of the accounts. */
  ghost predicate KeysDoNotCollide(d: Derivations, a: InputAccountIdentity, b: InputAccountIdentity)
    requires a.IsUpdate() && b.IsUpdate()
  {
    forall x, y :: d.ForPrivateAccount(d.npkOf(a.nsk), a.vpk, x) == d.ForPrivateAccount(d.npkOf(b.nsk), b.vpk, y) ==>
      a.nsk == b.nsk
  }

  /**
   * Over any history of proven transactions, no state of a private account is spent twice,
   * unless two secret keys collide into one account id.
   */
  lemma SpentAtMostOnce(c: Crypto, v: Prover, d: Derivations, rootOf: RootFunction,
                        s: PrivateSets, ts: seq<Transaction>, i: nat, k: nat, j: nat, l: nat)
    requires RecordAll(rootOf, s, ts).Some?
    requires HasAccount(c, v, d, ts, i, k) && HasAccount(c, v, d, ts, j, l)
    requires IdentityIn(ts, i, k).IsUpdate() && IdentityIn(ts, j, l).IsUpdate()
    requires var a, b := PreIn(c, v, d, ts, i, k), PreIn(c, v, d, ts, j, l);
             a.accountId == b.accountId && a.account == b.account
    requires KeysDoNotCollide(d, IdentityIn(ts, i, k), IdentityIn(ts, j, l))
    ensures i == j && k == l
  {
    hide RecordAll, HasAccount, HasNote, PreIn, NoteIn;
    var m := AccountNote(c, v, d, ts, i, k);
    var n := AccountNote(c, v, d, ts, j, l);
    NotesNullifyOnce(c, v, d, rootOf, s, ts, i, m, j, n);
    AccountIsPrivate(c, v, d, ts, i, k);
    AccountIsPrivate(c, v, d, ts, j, l);
    OwnNotes(ts[i].tx.ids, k, l);
  }

  // ---- Where an updated state comes from ---------------------------------------------------

  /** Every recorded root is the root of the tree at some point. */
  ghost predicate RootsKnown(rootOf: RootFunction, s: PrivateSets) {
    forall r :: r in s.roots ==> exists k :: 0 <= k <= |s.leaves| && r == rootOf(s.leaves[..k])
  }

  lemma RecordRootsKnown(rootOf: RootFunction, s: PrivateSets, actions: seq<PrivateAction>)
    requires RootsKnown(rootOf, s)
    ensures RootsKnown(rootOf, RecordActions(rootOf, s, actions))
  {
    var after := RecordActions(rootOf, s, actions);
    forall r | r in after.roots
      ensures exists k :: 0 <= k <= |after.leaves| && r == rootOf(after.leaves[..k])
    {
      if r in s.roots {
        var k :| 0 <= k <= |s.leaves| && r == rootOf(s.leaves[..k]);
        assert after.leaves[..k] == s.leaves[..k];
      } else {
        assert after.leaves[..|after.leaves|] == after.leaves;
      }
    }
  }

  lemma {:induction false} HistoryRootsKnown(rootOf: RootFunction, s: PrivateSets,
                                             ts: seq<Transaction>)
    requires RootsKnown(rootOf, s) && RecordAll(rootOf, s, ts).Some?
    ensures RootsKnown(rootOf, RecordAll(rootOf, s, ts).value)
    decreases |ts|
  {
    hide RootsKnown, Accepts, RecordActions;
    if ts != [] {
      var n := |ts| - 1;
      HistoryRootsKnown(rootOf, s, ts[..n]);
      RecordRootsKnown(rootOf, RecordAll(rootOf, s, ts[..n]).value, Published(ts[n]));
    }
  }

  /** A recorded commitment was there at the start or was published by some transaction. */
  lemma {:induction false} LeafOrigin(rootOf: RootFunction, s: PrivateSets,
                                      ts: seq<Transaction>, x: Commitment) returns (i: nat)
    requires RecordAll(rootOf, s, ts).Some? && x in RecordAll(rootOf, s, ts).value.leaves && x !in s.leaves
    ensures i < |ts| && x in Commitments(Published(ts[i]))
    decreases |ts|
  {
    hide Accepts;
    var n := |ts| - 1;
    if x in Commitments(Published(ts[n])) {
      return n;
    }
    i := LeafOrigin(rootOf, s, ts[..n], x);
  }

  /** The commitments recorded before transaction `j`. */
  function LeavesBefore(rootOf: RootFunction, s: PrivateSets, ts: seq<Transaction>, j: nat)
    : seq<Commitment>
  {
    if j > |ts| then [] else
    match RecordAll(rootOf, s, ts[..j]) case Some(r) => r.leaves case None => []
  }

  /** The commitment to what the account came in as. */
  ghost function SpentIn(c: Crypto, v: Prover, d: Derivations, ts: seq<Transaction>, j: nat, l: nat): Commitment
    requires HasAccount(c, v, d, ts, j, l)
  {
    c.commit(PreIn(c, v, d, ts, j, l).accountId, PreIn(c, v, d, ts, j, l).account)
  }

  /** The membership proof shows what it claims: it leads to an earlier root only from a leaf under it. */
  ghost predicate ProofSound(c: Crypto, rootOf: RootFunction, leaves: seq<Commitment>,
                             x: Commitment, proof: MembershipProof)
  {
    forall k :: 0 <= k <= |leaves| && c.digestForPath(x, proof) == rootOf(leaves[..k]) ==> x in leaves[..k]
  }

  /** A private account of a history that is updated there on a sound membership proof. */
  ghost predicate Updates(c: Crypto, v: Prover, d: Derivations, rootOf: RootFunction,
                          s: PrivateSets, ts: seq<Transaction>, j: nat, l: nat)
  {
    && HasAccount(c, v, d, ts, j, l) && IdentityIn(ts, j, l).IsUpdate()
    && ProofSound(c, rootOf, LeavesBefore(rootOf, s, ts, j), SpentIn(c, v, d, ts, j, l),
                  IdentityIn(ts, j, l).membershipProof)
  }

  /** What an update spends had been recorded before. */
  lemma UpdateSpendsRecorded(c: Crypto, v: Prover, d: Derivations, rootOf: RootFunction,
                             s: PrivateSets, ts: seq<Transaction>, j: nat, l: nat)
    requires RecordAll(rootOf, s, ts).Some? && RootsKnown(rootOf, s)
    requires Updates(c, v, d, rootOf, s, ts, j, l)
    ensures SpentIn(c, v, d, ts, j, l) in LeavesBefore(rootOf, s, ts, j)
  {
    var m := AccountNote(c, v, d, ts, j, l);
    hide RecordAll, NotesOf, PreOf, Proven;
    var p := NoteIsPublished(c, v, d, ts[j].tx, m);
    RecordedPrefix(rootOf, s, ts, j);
    HistoryRootsKnown(rootOf, s, ts[..j]);
    var root := ts[j].tx.published[p].root;
    assert ts[j].tx.published[p] in ts[j].tx.published;
    assert root in RecordAll(rootOf, s, ts[..j]).value.roots;
  }

  /** Equal commitments commit to equal accounts, and no dummy collides with one. */
  ghost predicate Binding(c: Crypto, v: Prover, d: Derivations, ts: seq<Transaction>, id: AccountId, account: Account) {
    && (forall i, k :: HasNote(c, v, d, ts, i, k) ==>
          var n := NoteIn(c, v, d, ts, i, k);
          c.commit(n.accountId, n.post) == c.commit(id, account) ==> n.accountId == id && n.post == account)
    && (forall nullifier, seed :: c.dummyCommitment(nullifier, seed) != c.commit(id, account))
  }

  lemma {:induction false} DummyCommitments(c: Crypto, dummies: seq<DummyInput>, i: nat)
    requires i < |SealDummies(c, dummies)|
    ensures exists nullifier, seed :: SealDummies(c, dummies)[i].commitment == c.dummyCommitment(nullifier, seed)
    decreases |dummies|
  {
    var n := |dummies| - 1;
    if i < |SealDummies(c, dummies[..n])| {
      DummyCommitments(c, dummies[..n], i);
    } else {
      var nullifier := c.dummyNullifier(dummies[n].nullifierSeed);
      assert SealDummies(c, dummies)[i].commitment == c.dummyCommitment(nullifier, dummies[n].commitmentSeed);
    }
  }

  lemma CommittedBefore(actions: seq<PrivateAction>, out: seq<PrivateAction>, x: Commitment) returns (m: nat)
    requires Obfuscates(actions, out) && x in Commitments(out)
    ensures m < |actions| && actions[m].commitment == x
  {
    hide SortedBy, Bodies, Commitments;
    assert x in multiset(Commitments(out));
    assert x in multiset(Commitments(actions));
    m :| 0 <= m < |Commitments(actions)| && Commitments(actions)[m] == x;
  }

  /** A published commitment to an account is that of a note holding the account. */
  lemma PublishedIsNote(c: Crypto, v: Prover, d: Derivations, ts: seq<Transaction>, i: nat, id: AccountId,
                        account: Account)
    returns (k: nat)
    requires i < |ts| && ts[i].Private? && Proven(c, v, d, ts[i].tx)
    requires c.commit(id, account) in Commitments(ts[i].tx.published)
    requires Binding(c, v, d, ts, id, account)
    ensures HasNote(c, v, d, ts, i, k)
    ensures NoteIn(c, v, d, ts, i, k).accountId == id && NoteIn(c, v, d, ts, i, k).post == account
  {
    hide Emitted, Obfuscates;
    var t, x := ts[i].tx, c.commit(id, account);
    var notes := NotesOf(c, v, d, t);
    var actions := SealAll(c, notes) + SealDummies(c, t.dummies);
    var m := CommittedBefore(actions, t.published, x);
    SealAllLength(c, notes);
    if m < |notes| {
      SealAllAt(c, notes, m);
      k := m;
      assert HasNote(c, v, d, ts, i, k);
    } else {
      DummyCommitments(c, t.dummies, m - |notes|);
      assert false;
    }
  }

  /** Some transaction before `j` left the account like this in one of its notes. */
  ghost predicate LeftBefore(c: Crypto, v: Prover, d: Derivations, ts: seq<Transaction>, j: nat,
                             pre: AccountWithMetadata)
  {
    exists i: nat, k: nat :: i < j && HasNote(c, v, d, ts, i, k) && NoteHolds(NoteIn(c, v, d, ts, i, k), pre)
  }

  predicate NoteHolds(n: Note, pre: AccountWithMetadata) {
    n.accountId == pre.accountId && n.post == pre.account
  }

  /**
   * Private states are threaded across transactions as account states are within one: an update
   * comes in exactly as the note of some earlier transaction left the account, or as it was in
   * the initial set, given that membership proofs are sound and commitments binding.
   */
  lemma UpdateContinuesNote(c: Crypto, v: Prover, d: Derivations, rootOf: RootFunction,
                            s: PrivateSets, ts: seq<Transaction>, j: nat, l: nat)
    requires RecordAll(rootOf, s, ts).Some? && RootsKnown(rootOf, s)
    requires forall i :: 0 <= i < |ts| && ts[i].Private? ==> Proven(c, v, d, ts[i].tx)
    requires Updates(c, v, d, rootOf, s, ts, j, l)
    requires Binding(c, v, d, ts, PreIn(c, v, d, ts, j, l).accountId, PreIn(c, v, d, ts, j, l).account)
    ensures SpentIn(c, v, d, ts, j, l) in s.leaves || LeftBefore(c, v, d, ts, j, PreIn(c, v, d, ts, j, l))
  {
    UpdateSpendsRecorded(c, v, d, rootOf, s, ts, j, l);
    hide RecordAll, Proven, Binding, ProofSound, RootsKnown, PreOf, NotesOf, HasNote, NoteIn;
    var pre, x := PreIn(c, v, d, ts, j, l), SpentIn(c, v, d, ts, j, l);
    RecordedPrefix(rootOf, s, ts, j);
    if x !in s.leaves {
      var i := LeafOrigin(rootOf, s, ts[..j], x);
      assert ts[..j][i] == ts[i];
      var k := PublishedIsNote(c, v, d, ts, i, pre.accountId, pre.account);
    }
  }
}
