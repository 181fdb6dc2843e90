/** The circuit as it runs: derive the execution state, emit its actions, hide their order. */
module Circuit {
  import opened Prelude
  import opened Programs
  import opened Identities
  import opened CallTrees
  import opened Execution
  import opened ExecutionSteps
  import opened Derivation
  import opened ExecutionStates
  import opened CircuitOutputs
  import opened Sorting

  function SealAll(c: Crypto, notes: seq<Note>): seq<PrivateAction> {
    if notes == [] then [] else SealAll(c, notes[..|notes| - 1]) + [Seal(c, notes[|notes| - 1])]
  }

  function SealDummies(c: Crypto, dummies: seq<DummyInput>): seq<PrivateAction> {
    if dummies == [] then [] else SealDummies(c, dummies[..|dummies| - 1]) + [SealDummy(c, dummies[|dummies| - 1])]
  }

  lemma SealSnoc(c: Crypto, notes: seq<Note>, note: Note)
    ensures SealAll(c, notes + [note]) == SealAll(c, notes) + [Seal(c, note)]
  {
    assert (notes + [note])[..|notes|] == notes;
  }

  // ---- What is published -------------------------------------------------------------------

  /** The published actions of an accepted transaction. */
  ghost predicate Publishes(c: Crypto, v: Prover, d: Derivations, ids: seq<InputAccountIdentity>, program: ProgramId,
                            outputs: seq<ProgramOutput>, dummies: seq<DummyInput>, out: seq<PrivateAction>)
  {
    && Emitted(c, v, d, ids, program, outputs).Some?
    && var notes := Emitted(c, v, d, ids, program, outputs).value.notes;
       Obfuscates(SealAll(c, notes) + SealDummies(c, dummies), out)
  }

  /** The action carries the note: its nullifier and root, and the note encrypted to its viewing key. */
  predicate Carries(c: Crypto, a: PrivateAction, n: Note) {
    var (secret, epk) := c.encapsulate(n.vpk, c.ephemeralKey(n.accountId, n.randomSeed, n.post.nonce));
    && a.nullifier == n.nullifier && a.root == n.root
    && a.encryptedPostState.ciphertext == c.encrypt(n.post, n.kind, secret, n.nullifier)
    && a.encryptedPostState.epk == epk && a.encryptedPostState.viewTag == n.viewTag
  }

  /** Every private account has its note published, and a commitment to its new state. */
  lemma AccountIsPublished(c: Crypto, v: Prover, d: Derivations, ids: seq<InputAccountIdentity>, program: ProgramId,
                           outputs: seq<ProgramOutput>, dummies: seq<DummyInput>, out: seq<PrivateAction>, k: nat)
    requires Publishes(c, v, d, ids, program, outputs, dummies, out) && k < |ids| && !ids[k].Public?
    ensures Derive(v, d, ids, program, outputs).Some?
    ensures var x := Derive(v, d, ids, program, outputs).value;
            k < |x.pre| && x.pre[k].accountId in x.post &&
            exists n, a :: NoteOf(c, d, ids, x, k, x.post[x.pre[k].accountId], n)
                           && a in out && Carries(c, a, n) && c.commit(n.accountId, n.post) in Commitments(out)
  {
    hide Emitted, Derive, NoteFor, NoteOf, Obfuscates, Carries;
    OutputFaithful(c, v, d, ids, program, outputs);
    var e, x := Emitted(c, v, d, ids, program, outputs).value, Derive(v, d, ids, program, outputs).value;
    assert EmittedAt(c, d, ids, x, k, e);
    var n := e.notes[PrivateBefore(ids, k)];
    SealedIn(c, e.notes, n);
    SurvivesObfuscation(SealAll(c, e.notes) + SealDummies(c, dummies), out, Seal(c, n));
    var a :| a in out && BodyOf(a) == BodyOf(Seal(c, n));
    SealCarries(c, a, n);
  }

  lemma SealCarries(c: Crypto, a: PrivateAction, n: Note)
    requires BodyOf(a) == BodyOf(Seal(c, n))
    ensures Carries(c, a, n) && Seal(c, n).commitment == c.commit(n.accountId, n.post)
  {
  }

  /** Every dummy is published too, under the nullifier and commitment its seeds give. */
  lemma DummyIsPublished(c: Crypto, v: Prover, d: Derivations, ids: seq<InputAccountIdentity>, program: ProgramId,
                         outputs: seq<ProgramOutput>, dummies: seq<DummyInput>, out: seq<PrivateAction>, i: nat)
    requires Publishes(c, v, d, ids, program, outputs, dummies, out) && i < |dummies|
    ensures var dummy := dummies[i];
            var nullifier := c.dummyNullifier(dummy.nullifierSeed);
            && (exists a :: a in out && a.nullifier == nullifier && a.root == dummy.commitmentRoot
                            && a.encryptedPostState == dummy.note)
            && c.dummyCommitment(nullifier, dummy.commitmentSeed) in Commitments(out)
  {
    hide Emitted, Obfuscates;
    var notes := Emitted(c, v, d, ids, program, outputs).value.notes;
    DummySealed(c, dummies, i);
    SurvivesObfuscation(SealAll(c, notes) + SealDummies(c, dummies), out, SealDummy(c, dummies[i]));
    var a :| a in out && BodyOf(a) == BodyOf(SealDummy(c, dummies[i]));
  }

  lemma {:induction false} DummySealed(c: Crypto, dummies: seq<DummyInput>, i: nat)
    requires i < |dummies|
    ensures SealDummy(c, dummies[i]) in SealDummies(c, dummies)
    decreases |dummies|
  {
    hide SealDummy;
    if i < |dummies| - 1 {
      DummySealed(c, dummies[..|dummies| - 1], i);
    }
  }

  /** And nothing else: one action per private account and one per dummy. */
  lemma PublishedCount(c: Crypto, v: Prover, d: Derivations, ids: seq<InputAccountIdentity>, program: ProgramId,
                       outputs: seq<ProgramOutput>, dummies: seq<DummyInput>, out: seq<PrivateAction>)
    requires Publishes(c, v, d, ids, program, outputs, dummies, out)
    ensures |out| == PrivateBefore(ids, |ids|) + |dummies|
  {
    hide Emitted, Derive, SortedBy, Bodies, EmittedAt;
    OutputFaithful(c, v, d, ids, program, outputs);
    var notes := Emitted(c, v, d, ids, program, outputs).value.notes;
    SealAllLength(c, notes);
    SealDummiesLength(c, dummies);
    SameLength(Bodies(SealAll(c, notes) + SealDummies(c, dummies)), Bodies(out));
  }

  lemma {:induction false} SealAllLength(c: Crypto, notes: seq<Note>)
    ensures |SealAll(c, notes)| == |notes|
    decreases |notes|
  {
    if notes != [] {
      SealAllLength(c, notes[..|notes| - 1]);
    }
  }

  lemma {:induction false} SealDummiesLength(c: Crypto, dummies: seq<DummyInput>)
    ensures |SealDummies(c, dummies)| == |dummies|
    decreases |dummies|
  {
    if dummies != [] {
      SealDummiesLength(c, dummies[..|dummies| - 1]);
    }
  }

  // ---- What a recipient gets ---------------------------------------------------------------

  /** The receiving side of the encryption. */
  datatype Receiver = Receiver(
    decapsulate: EphemeralPublicKey -> SharedSecretKey,
    decrypt: (Ciphertext, SharedSecretKey, Nullifier) -> (Account, PrivateAccountKind))

  /** The receiver's keys open what was sealed to `vpk`. */
  ghost predicate Opens(c: Crypto, r: Receiver, vpk: ViewingPublicKey) {
    && (forall esk :: r.decapsulate(c.encapsulate(vpk, esk).1) == c.encapsulate(vpk, esk).0)
    && (forall account, kind, secret, nullifier ::
          r.decrypt(c.encrypt(account, kind, secret, nullifier), secret, nullifier) == (account, kind))
  }

  lemma {:induction false} SealedIn(c: Crypto, notes: seq<Note>, n: Note)
    requires n in notes
    ensures Seal(c, n) in SealAll(c, notes)
    decreases |notes|
  {
    hide Seal;
    var k := |notes| - 1;
    if n != notes[k] {
      assert notes == notes[..k] + [notes[k]];
      SealedIn(c, notes[..k], n);
    }
  }

  /** An action's body and its commitment both survive obfuscation, though not side by side. */
  lemma SurvivesObfuscation(actions: seq<PrivateAction>, out: seq<PrivateAction>, a: PrivateAction)
    requires Obfuscates(actions, out) && a in actions
    ensures exists b :: b in out && BodyOf(b) == BodyOf(a)
    ensures a.commitment in Commitments(out)
  {
    var i :| 0 <= i < |actions| && actions[i] == a;
    assert Bodies(actions)[i] in multiset(Bodies(out));
    assert Commitments(actions)[i] in multiset(Commitments(out));
    var j :| 0 <= j < |out| && Bodies(out)[j] == BodyOf(a);
    assert out[j] in out && BodyOf(out[j]) == BodyOf(a);
  }

  /**
   * Hiding costs the recipient nothing: from the published actions alone, whoever can open a
   * note finds its action, decrypts the account and its kind, re-derives the account id from
   * them, and finds the matching commitment among the published ones.
   */
  lemma RecipientRecovers(c: Crypto, v: Prover, d: Derivations, ids: seq<InputAccountIdentity>, program: ProgramId,
                          outputs: seq<ProgramOutput>, dummies: seq<DummyInput>, out: seq<PrivateAction>,
                          n: Note, r: Receiver)
    requires Publishes(c, v, d, ids, program, outputs, dummies, out)
    requires n in Emitted(c, v, d, ids, program, outputs).value.notes
    requires Opens(c, r, n.vpk)
    ensures exists a :: a in out && a.nullifier == n.nullifier
              && var (account, kind) := r.decrypt(a.encryptedPostState.ciphertext,
                                                  r.decapsulate(a.encryptedPostState.epk), a.nullifier);
                 && account == n.post && kind == n.kind
                 && d.ForPrivateAccount(n.npk, n.vpk, kind) == n.accountId
                 && c.commit(n.accountId, account) in Commitments(out)
  {
    hide Emitted, Derive, Obfuscates;
    var e := Emitted(c, v, d, ids, program, outputs).value;
    NotesRederive(c, v, d, ids, program, outputs, n);
    SealedIn(c, e.notes, n);
    var sealed := Seal(c, n);
    var actions := SealAll(c, e.notes) + SealDummies(c, dummies);
    SurvivesObfuscation(actions, out, sealed);
    var a :| a in out && BodyOf(a) == BodyOf(sealed);
    OpenSealed(c, d, r, n, a);
  }

  lemma NotesRederive(c: Crypto, v: Prover, d: Derivations, ids: seq<InputAccountIdentity>, program: ProgramId,
                      outputs: seq<ProgramOutput>, n: Note)
    requires Emitted(c, v, d, ids, program, outputs).Some? && n in Emitted(c, v, d, ids, program, outputs).value.notes
    ensures Rederives(d, n)
  {
    hide Emitted, Derive, NoteFor, Rederives;
    var notes := Emitted(c, v, d, ids, program, outputs).value.notes;
    OutputFaithful(c, v, d, ids, program, outputs);
    var i :| 0 <= i < |notes| && notes[i] == n;
    var k := NotePosition(ids, |ids|, i);
    assert EmittedAt(c, d, ids, Derive(v, d, ids, program, outputs).value, k,
                     Emitted(c, v, d, ids, program, outputs).value);
  }

  lemma OpenSealed(c: Crypto, d: Derivations, r: Receiver, n: Note, a: PrivateAction)
    requires Opens(c, r, n.vpk) && BodyOf(a) == BodyOf(Seal(c, n)) && Rederives(d, n)
    ensures a.nullifier == n.nullifier
    ensures var (account, kind) := r.decrypt(a.encryptedPostState.ciphertext,
                                             r.decapsulate(a.encryptedPostState.epk), a.nullifier);
            && account == n.post && kind == n.kind
            && d.ForPrivateAccount(n.npk, n.vpk, kind) == n.accountId
            && c.commit(n.accountId, account) == Seal(c, n).commitment
  {
    var esk := c.ephemeralKey(n.accountId, n.randomSeed, n.post.nonce);
    var (secret, epk) := c.encapsulate(n.vpk, esk);
    assert a.encryptedPostState.epk == epk;
    assert r.decapsulate(epk) == secret;
    assert r.decrypt(c.encrypt(n.post, n.kind, secret, n.nullifier), secret, n.nullifier) == (n.post, n.kind);
  }

  /** Post states not handed out yet, after the first `k` accounts. */
  ghost predicate Remaining(x: Exec, k: nat, posts: map<AccountId, Account>)
    requires k <= |x.pre|
  {
    forall i :: k <= i < |x.pre| ==>
      && x.pre[i].accountId in posts && x.pre[i].accountId in x.post
      && posts[x.pre[i].accountId] == x.post[x.pre[i].accountId]
  }

  lemma RemainingAtStart(x: Exec)
    requires Consistent(x)
    ensures Remaining(x, 0, x.post)
  {
    forall i | 0 <= i < |x.pre|
      ensures x.pre[i].accountId in x.post
    {
      PositionUnique(x.pre, i);
    }
  }

  lemma RemainingStep(x: Exec, k: nat, posts: map<AccountId, Account>)
    requires Consistent(x) && k < |x.pre| && Remaining(x, k, posts)
    ensures Remaining(x, k + 1, posts - {x.pre[k].accountId})
  {
  }

  lemma {:induction false} EmitStops(c: Crypto, d: Derivations, ids: seq<InputAccountIdentity>, x: Exec, k: nat, n: nat)
    requires k <= n <= |ids| && n <= |x.pre| && Emit(c, d, ids, x, k).None?
    ensures Emit(c, d, ids, x, n).None?
    decreases n
  {
    if k < n {
      EmitStops(c, d, ids, x, k, n - 1);
    }
  }

  /**
   * Turns an execution state into the circuit's output. Post states are handed out one by one;
   * none is ever missing.
   */
  method ComputeCircuitOutput(c: Crypto, state: ExecutionState, dummies: seq<DummyInput>)
    returns (out: Option<CircuitOutput>)
    requires Consistent(state.Model())
    ensures var x := state.Model();
            && (out.Some? <==> |state.ids| == |x.pre| && Emit(c, state.d, state.ids, x, |state.ids|).Some?)
            && (out.Some? ==>
                  var e := Emit(c, state.d, state.ids, x, |state.ids|).value;
                  && out.value.publicActions == e.public
                  && Obfuscates(SealAll(c, e.notes) + SealDummies(c, dummies), out.value.privateActions)
                  && out.value.blockWindow == state.blockWindow
                  && out.value.timestampWindow == state.timestampWindow)
  {
    hide Obfuscates, NoteFor, Seal, Consistent, Remaining;
    var ids := state.ids;
    if |ids| != |state.preStates| {
      return None;
    }
    ghost var x := state.Model();
    ghost var notes: seq<Note> := [];
    var public: seq<PublicAction>, private: seq<PrivateAction> := [], [];
    var posts := state.postStates;
    RemainingAtStart(x);
    for pos := 0 to |ids|
      invariant Remaining(x, pos, posts)
      invariant Emit(c, state.d, ids, x, pos) == Some(Emission(public, notes))
      invariant private == SealAll(c, notes)
    {
      var pre := state.preStates[pos];
      assert pre.accountId in posts && pre.accountId in x.post && posts[pre.accountId] == x.post[pre.accountId] by {
        RemainingHere(x, pos, posts);
      }
      var post := posts[pre.accountId];
      RemainingStep(x, pos, posts);
      posts := posts - {pre.accountId};
      if ids[pos].Public? {
        public := public + [PublicAction(pre, post)];
      } else {
        var bound := if pos in state.privatePdaBoundPositions then Some(state.privatePdaBoundPositions[pos]) else None;
        var note := NoteFor(c, state.d, ids[pos], pre, post, bound);
        if note.None? {
          EmitStops(c, state.d, ids, x, pos + 1, |ids|);
          return None;
        }
        private := private + [Seal(c, note.value)];
        SealSnoc(c, notes, note.value);
        notes := notes + [note.value];
      }
    }
    ghost var genuine := private;
    assert dummies[..0] == [];
    for i := 0 to |dummies|
      invariant private == genuine + SealDummies(c, dummies[..i])
    {
      assert dummies[..i + 1][..i] == dummies[..i];
      private := private + [SealDummy(c, dummies[i])];
    }
    assert dummies[..|dummies|] == dummies;
    private := ObfuscateOutputOrdering(private);
    return Some(CircuitOutput(public, private, state.blockWindow, state.timestampWindow));
  }

  lemma RemainingHere(x: Exec, k: nat, posts: map<AccountId, Account>)
    requires k < |x.pre| && Remaining(x, k, posts)
    ensures var id := x.pre[k].accountId; id in posts && id in x.post && posts[id] == x.post[id]
  {
  }

  /**
   * The whole circuit. It produces an output exactly for the transactions the specification
   * accepts, and the output is that emission with its private actions sealed and reordered.
   */
  method RunCircuit(c: Crypto, v: Prover, d: Derivations, ids: seq<InputAccountIdentity>, program: ProgramId,
                    outputs: seq<ProgramOutput>, dummies: seq<DummyInput>) returns (out: Option<CircuitOutput>)
    ensures out.Some? <==> Emitted(c, v, d, ids, program, outputs).Some?
    ensures out.Some? ==>
              && Publishes(c, v, d, ids, program, outputs, dummies, out.value.privateActions)
              && out.value.publicActions == Emitted(c, v, d, ids, program, outputs).value.public
              && out.value.blockWindow == Intersect(BlockWindows(outputs))
              && out.value.timestampWindow == Intersect(TimestampWindows(outputs))
  {
    hide Derive, Emit, Obfuscates, Intersect;
    var state := new ExecutionState(v, d, ids);
    var ok := state.DeriveFromOutputs(program, outputs);
    if !ok {
      return None;
    }
    ghost var vs, x := DeriveParts(v, d, ids, program, outputs);
    out := ComputeCircuitOutput(c, state, dummies);
  }
}
