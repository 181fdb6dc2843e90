/** The circuit's output: public actions, sealed private actions, and their hiding order. */
module CircuitOutputs {
  import opened Prelude
  import opened Programs
  import opened Identities
  import opened CallTrees
  import opened Execution
  import opened ExecutionSteps
  import opened ExecutionProperties
  import opened Derivation
  import opened Sorting

  // 32-byte values; byte-wise lexicographic order is numeric order.
  datatype Nullifier = Nullifier(bytes: Bytes32)
  datatype Commitment = Commitment(bytes: Bytes32)

  type Ciphertext(==, !new)
  type EphemeralSecretKey(==, !new)
  type EphemeralPublicKey(==, !new)
  type SharedSecretKey(==, !new)

  datatype EncryptedAccountData = EncryptedAccountData(
    ciphertext: Ciphertext,
    epk: EphemeralPublicKey,
    viewTag: ViewTag)

  datatype PublicAction = PublicAction(pre: AccountWithMetadata, post: Account)

  datatype PrivateAction = PrivateAction(
    nullifier: Nullifier,
    root: CommitmentSetDigest,
    commitment: Commitment,
    encryptedPostState: EncryptedAccountData)

  datatype DummyInput = DummyInput(
    nullifierSeed: Bytes32,
    commitmentSeed: Bytes32,
    note: EncryptedAccountData,
    commitmentRoot: CommitmentSetDigest)

  datatype CircuitOutput = CircuitOutput(
    publicActions: seq<PublicAction>,
    privateActions: seq<PrivateAction>,
    blockWindow: ValidityWindow,
    timestampWindow: ValidityWindow)

  /** The cryptographic operations: arbitrary functions. */
  datatype Crypto = Crypto(
    commit: (AccountId, Account) -> Commitment,
    dummyCommitment: (Nullifier, Bytes32) -> Commitment,
    initNullifier: AccountId -> Nullifier,
    updateNullifier: (Commitment, NullifierSecretKey) -> Nullifier,
    dummyNullifier: Bytes32 -> Nullifier,
    digestForPath: (Commitment, MembershipProof) -> CommitmentSetDigest,
    initNonce: AccountId -> U128,
    nextNonce: (U128, NullifierSecretKey) -> U128,
    viewTag: (NullifierPublicKey, ViewingPublicKey) -> ViewTag,
    ephemeralKey: (AccountId, Bytes32, U128) -> EphemeralSecretKey,
    encapsulate: (ViewingPublicKey, EphemeralSecretKey) -> (SharedSecretKey, EphemeralPublicKey),
    encrypt: (Account, PrivateAccountKind, SharedSecretKey, Nullifier) -> Ciphertext)

  // ---- Notes -------------------------------------------------------------------------------

  /** The plain content behind one real private action. */
  datatype Note = Note(
    accountId: AccountId,
    kind: PrivateAccountKind,
    npk: NullifierPublicKey,
    vpk: ViewingPublicKey,
    randomSeed: Bytes32,
    viewTag: ViewTag,
    post: Account,
    nullifier: Nullifier,
    root: CommitmentSetDigest)

  /** Commits to and encrypts a note. */
  function Seal(c: Crypto, n: Note): PrivateAction {
    var esk := c.ephemeralKey(n.accountId, n.randomSeed, n.post.nonce);
    var (secret, epk) := c.encapsulate(n.vpk, esk);
    PrivateAction(n.nullifier, n.root, c.commit(n.accountId, n.post),
                  EncryptedAccountData(c.encrypt(n.post, n.kind, secret, n.nullifier), epk, n.viewTag))
  }

  function SealDummy(c: Crypto, dummy: DummyInput): PrivateAction {
    var nullifier := c.dummyNullifier(dummy.nullifierSeed);
    PrivateAction(nullifier, dummy.commitmentRoot, c.dummyCommitment(nullifier, dummy.commitmentSeed), dummy.note)
  }

  /** A note creating an account: it must come in as the default account. */
  function InitNote(c: Crypto, pre: AccountWithMetadata, post: Account, kind: PrivateAccountKind,
                    npk: NullifierPublicKey, vpk: ViewingPublicKey, randomSeed: Bytes32,
                    root: CommitmentSetDigest): Option<Note>
  {
    if pre.account != DEFAULT_ACCOUNT then None
    else Some(Note(pre.accountId, kind, npk, vpk, randomSeed, c.viewTag(npk, vpk),
                   post.(nonce := c.initNonce(pre.accountId)), c.initNullifier(pre.accountId), root))
  }

  /** A note updating an account committed to before. */
  function UpdateNote(c: Crypto, pre: AccountWithMetadata, post: Account, kind: PrivateAccountKind,
                      npk: NullifierPublicKey, vpk: ViewingPublicKey, randomSeed: Bytes32, viewTag: ViewTag,
                      nsk: NullifierSecretKey, proof: MembershipProof): Note
  {
    var before := c.commit(pre.accountId, pre.account);
    Note(pre.accountId, kind, npk, vpk, randomSeed, viewTag,
         post.(nonce := c.nextNonce(pre.account.nonce, nsk)),
         c.updateNullifier(before, nsk), c.digestForPath(before, proof))
  }

  /** The note of one private account, or rejection. */
  function NoteFor(c: Crypto, d: Derivations, identity: InputAccountIdentity, pre: AccountWithMetadata,
                   post: Account, bound: Option<(ProgramId, PdaSeed)>): Option<Note>
    requires !identity.Public?
  {
    match identity
    case PrivateAuthorizedInit(vpk, randomSeed, nsk, identifier, root) =>
      var npk := d.npkOf(nsk);
      if d.forRegularPrivateAccount(npk, vpk, identifier) != pre.accountId || !pre.isAuthorized then None
      else InitNote(c, pre, post, RegularKind(identifier), npk, vpk, randomSeed, root)
    case PrivateAuthorizedUpdate(vpk, randomSeed, viewTag, nsk, proof, identifier) =>
      var npk := d.npkOf(nsk);
      if d.forRegularPrivateAccount(npk, vpk, identifier) != pre.accountId || !pre.isAuthorized then None
      else Some(UpdateNote(c, pre, post, RegularKind(identifier), npk, vpk, randomSeed, viewTag, nsk, proof))
    case PrivateForeignInit(vpk, randomSeed, npk, identifier, root) =>
      if d.forRegularPrivateAccount(npk, vpk, identifier) != pre.accountId || !pre.isAuthorized then None
      else InitNote(c, pre, post, RegularKind(identifier), npk, vpk, randomSeed, root)
    case PrivatePdaInit(vpk, randomSeed, npk, identifier, root, _) =>
      var (program, seed) :- bound;
      if pre.isAuthorized then None
      else InitNote(c, pre, post, PdaKind(program, seed, identifier), npk, vpk, randomSeed, root)
    case PrivatePdaUpdate(vpk, randomSeed, viewTag, nsk, proof, identifier, external) =>
      var (program, seed) :- bound;
      if pre.isAuthorized == external.Some? then None
      else Some(UpdateNote(c, pre, post, PdaKind(program, seed, identifier), d.npkOf(nsk), vpk, randomSeed, viewTag,
                           nsk, proof))
  }

  // ---- Emission ----------------------------------------------------------------------------

  datatype Emission = Emission(public: seq<PublicAction>, notes: seq<Note>)

  function BoundAt(x: Exec, k: nat): Option<(ProgramId, PdaSeed)> {
    if k in x.bindings.bound then Some(x.bindings.bound[k]) else None
  }

  /** What the first `k` accounts emit. */
  function Emit(c: Crypto, d: Derivations, ids: seq<InputAccountIdentity>, x: Exec, k: nat): Option<Emission>
    requires k <= |ids| && k <= |x.pre|
  {
    if k == 0 then Some(Emission([], []))
    else
      var e :- Emit(c, d, ids, x, k - 1);
      var pre := x.pre[k - 1];
      if pre.accountId !in x.post then None
      else
        var post := x.post[pre.accountId];
        if ids[k - 1].Public? then Some(e.(public := e.public + [PublicAction(pre, post)]))
        else
          var note :- NoteFor(c, d, ids[k - 1], pre, post, BoundAt(x, k - 1));
          Some(e.(notes := e.notes + [note]))
  }

  lemma EmitNothing(c: Crypto, d: Derivations, ids: seq<InputAccountIdentity>, x: Exec)
    ensures Emit(c, d, ids, x, 0) == Some(Emission([], []))
  {
  }

  /** What the last account adds to the emission. */
  lemma EmitNext(c: Crypto, d: Derivations, ids: seq<InputAccountIdentity>, x: Exec, k: nat)
    requires k < |ids| && k < |x.pre| && Emit(c, d, ids, x, k + 1).Some?
    ensures Emit(c, d, ids, x, k).Some? && x.pre[k].accountId in x.post
    ensures var e, post := Emit(c, d, ids, x, k).value, x.post[x.pre[k].accountId];
            if ids[k].Public? then
              Emit(c, d, ids, x, k + 1).value == e.(public := e.public + [PublicAction(x.pre[k], post)])
            else
              var note := NoteFor(c, d, ids[k], x.pre[k], post, BoundAt(x, k));
              note.Some? && Emit(c, d, ids, x, k + 1).value == e.(notes := e.notes + [note.value])
  {
    hide NoteFor;
  }

  /** The kind and keys of a note re-derive the account it is for. */
  predicate Rederives(d: Derivations, n: Note) {
    d.ForPrivateAccount(n.npk, n.vpk, n.kind) == n.accountId
  }

  /** The nullifier public key supplied with a private identity. */
  function NpkOf(d: Derivations, identity: InputAccountIdentity): NullifierPublicKey
    requires !identity.Public?
  {
    if identity.PrivateForeignInit? || identity.PrivatePdaInit? then identity.npk else d.npkOf(identity.nsk)
  }

  /** The kind of the account at a position: a PDA of the program and seed bound there, or regular. */
  function KindAt(ids: seq<InputAccountIdentity>, x: Exec, k: nat): PrivateAccountKind
    requires k < |ids| && !ids[k].Public?
    requires ids[k].IsPrivatePda() ==> k in x.bindings.bound
  {
    if ids[k].IsPrivatePda()
    then PdaKind(x.bindings.bound[k].0, x.bindings.bound[k].1, ids[k].identifier)
    else RegularKind(ids[k].identifier)
  }

  /**
   * The note of position `k`: for the account there, with the keys supplied there and the seed
   * bound there, from which the account id re-derives; holding the derived post state with the
   * next nonce, and spending the account's creation or the state it came in with.
   */
  predicate NoteOf(c: Crypto, d: Derivations, ids: seq<InputAccountIdentity>, x: Exec, k: nat, post: Account, n: Note)
    requires k < |ids| && k < |x.pre| && !ids[k].Public?
  {
    var id, before := x.pre[k].accountId, x.pre[k].account;
    && n.accountId == x.pre[k].accountId
    && n.vpk == ids[k].vpk && n.npk == NpkOf(d, ids[k])
    && (ids[k].IsPrivatePda() ==> k in x.bindings.bound)
    && n.kind == KindAt(ids, x, k)
    && Rederives(d, n)
    && n.randomSeed == ids[k].randomSeed
    && (ids[k].IsInit() ==>
          && before == DEFAULT_ACCOUNT
          && n.post == post.(nonce := c.initNonce(id)) && n.viewTag == c.viewTag(n.npk, n.vpk)
          && n.nullifier == c.initNullifier(id) && n.root == ids[k].commitmentRoot)
    && (ids[k].IsUpdate() ==>
          && n.post == post.(nonce := c.nextNonce(before.nonce, ids[k].nsk)) && n.viewTag == ids[k].viewTag
          && n.nullifier == c.updateNullifier(c.commit(id, before), ids[k].nsk)
          && n.root == c.digestForPath(c.commit(id, before), ids[k].membershipProof))
  }

  lemma NoteRederives(c: Crypto, d: Derivations, ids: seq<InputAccountIdentity>, x: Exec, k: nat, post: Account)
    requires k < |ids| && k < |x.pre| && !ids[k].Public? && BoundDerives(d, ids, x)
    requires NoteFor(c, d, ids[k], x.pre[k], post, BoundAt(x, k)).Some?
    ensures NoteOf(c, d, ids, x, k, post, NoteFor(c, d, ids[k], x.pre[k], post, BoundAt(x, k)).value)
  {
    if k in x.bindings.bound {
      var (program, seed) := x.bindings.bound[k];
      assert Derives(d, ids, Resolution(program, seed, x.pre[k].accountId, Some(k)));
    }
  }

  /**
   * What a private account must come in as: a regular one under the keys supplied and authorized;
   * a PDA with its seed bound, unauthorized when created, and when updated authorized unless its
   * seed was supplied from outside. One that is created comes in as the default account.
   */
  predicate ActionAllowed(d: Derivations, ids: seq<InputAccountIdentity>, x: Exec, k: nat)
    requires k < |ids| && k < |x.pre|
  {
    var pre := x.pre[k];
    match ids[k]
    case Public => true
    case PrivateAuthorizedInit(vpk, _, nsk, identifier, _) =>
      && d.forRegularPrivateAccount(d.npkOf(nsk), vpk, identifier) == pre.accountId
      && pre.isAuthorized && pre.account == DEFAULT_ACCOUNT
    case PrivateAuthorizedUpdate(vpk, _, _, nsk, _, identifier) =>
      d.forRegularPrivateAccount(d.npkOf(nsk), vpk, identifier) == pre.accountId && pre.isAuthorized
    case PrivateForeignInit(vpk, _, npk, identifier, _) =>
      && d.forRegularPrivateAccount(npk, vpk, identifier) == pre.accountId
      && pre.isAuthorized && pre.account == DEFAULT_ACCOUNT
    case PrivatePdaInit(_, _, _, _, _, _) =>
      k in x.bindings.bound && !pre.isAuthorized && pre.account == DEFAULT_ACCOUNT
    case PrivatePdaUpdate(_, _, _, _, _, _, seed) =>
      k in x.bindings.bound && (pre.isAuthorized <==> seed.None?)
  }

  lemma NoteForIff(c: Crypto, d: Derivations, ids: seq<InputAccountIdentity>, x: Exec, k: nat, post: Account)
    requires k < |ids| && k < |x.pre| && !ids[k].Public?
    ensures NoteFor(c, d, ids[k], x.pre[k], post, BoundAt(x, k)).Some? <==> ActionAllowed(d, ids, x, k)
  {
  }

  /** The first `k` accounts emit if and only if each of them may. */
  lemma {:induction false} EmitIff(c: Crypto, d: Derivations, ids: seq<InputAccountIdentity>, x: Exec, k: nat)
    requires k <= |ids| && k <= |x.pre|
    ensures Emit(c, d, ids, x, k).Some? <==>
            forall j :: 0 <= j < k ==> x.pre[j].accountId in x.post && ActionAllowed(d, ids, x, j)
    decreases k
  {
    hide NoteFor, ActionAllowed;
    if k > 0 {
      EmitIff(c, d, ids, x, k - 1);
      if x.pre[k - 1].accountId in x.post && !ids[k - 1].Public? {
        NoteForIff(c, d, ids, x, k - 1, x.post[x.pre[k - 1].accountId]);
      }
      PublicAllowed(d, ids, x, k - 1);
    }
  }

  lemma PublicAllowed(d: Derivations, ids: seq<InputAccountIdentity>, x: Exec, k: nat)
    requires k < |ids| && k < |x.pre|
    ensures ids[k].Public? ==> ActionAllowed(d, ids, x, k)
  {
  }

  /** How many of the first `k` accounts are private. */
  function PrivateBefore(ids: seq<InputAccountIdentity>, k: nat): (r: nat)
    requires k <= |ids|
    ensures r <= k
  {
    if k == 0 then 0 else PrivateBefore(ids, k - 1) + if ids[k - 1].Public? then 0 else 1
  }

  lemma {:induction false} PrivateBeforeGrows(ids: seq<InputAccountIdentity>, j: nat, k: nat)
    requires j < k <= |ids|
    ensures PrivateBefore(ids, j) <= PrivateBefore(ids, k)
    ensures !ids[j].Public? ==> PrivateBefore(ids, j) < PrivateBefore(ids, k)
    decreases k
  {
    if j < k - 1 {
      PrivateBeforeGrows(ids, j, k - 1);
    }
  }

  /**
   * Account `k` emits one action, at its own place: its public action among the public ones, or
   * its note among the notes.
   */
  ghost predicate EmittedAt(c: Crypto, d: Derivations, ids: seq<InputAccountIdentity>, x: Exec, k: nat, e: Emission)
    requires k < |ids| && k < |x.pre|
  {
    var pre, private := x.pre[k], PrivateBefore(ids, k);
    && pre.accountId in x.post
    && var post := x.post[pre.accountId];
       if ids[k].Public? then
         k - private < |e.public| && e.public[k - private] == PublicAction(pre, post)
       else
         && private < |e.notes|
         && NoteFor(c, d, ids[k], pre, post, BoundAt(x, k)) == Some(e.notes[private])
         && NoteOf(c, d, ids, x, k, post, e.notes[private])
  }

  lemma EmittedStays(c: Crypto, d: Derivations, ids: seq<InputAccountIdentity>, x: Exec, k: nat,
                     e: Emission, f: Emission)
    requires k < |ids| && k < |x.pre| && EmittedAt(c, d, ids, x, k, e)
    requires e.public <= f.public && e.notes <= f.notes
    ensures EmittedAt(c, d, ids, x, k, f)
  {
    hide NoteFor, NoteOf;
  }

  lemma EmittedLast(c: Crypto, d: Derivations, ids: seq<InputAccountIdentity>, x: Exec, k: nat)
    requires k < |ids| && k < |x.pre| && Emit(c, d, ids, x, k).Some? && Emit(c, d, ids, x, k + 1).Some?
    requires var e := Emit(c, d, ids, x, k).value;
             |e.notes| == PrivateBefore(ids, k) && |e.public| == k - PrivateBefore(ids, k)
    requires x.pre[k].accountId in x.post
    requires var post := x.post[x.pre[k].accountId];
             !ids[k].Public? ==>
               && NoteFor(c, d, ids[k], x.pre[k], post, BoundAt(x, k)).Some?
               && NoteOf(c, d, ids, x, k, post, NoteFor(c, d, ids[k], x.pre[k], post, BoundAt(x, k)).value)
    ensures EmittedAt(c, d, ids, x, k, Emit(c, d, ids, x, k + 1).value)
  {
    hide NoteFor, NoteOf, Emit;
    EmitNext(c, d, ids, x, k);
  }

  /** The first `k` accounts emitted one action each, at their places, and there are no others. */
  ghost predicate AllEmitted(c: Crypto, d: Derivations, ids: seq<InputAccountIdentity>, x: Exec, k: nat, e: Emission)
    requires k <= |ids| && k <= |x.pre|
  {
    && |e.notes| == PrivateBefore(ids, k) && |e.public| == k - PrivateBefore(ids, k)
    && forall j :: 0 <= j < k ==> EmittedAt(c, d, ids, x, j, e)
  }

  lemma AllEmittedNext(c: Crypto, d: Derivations, ids: seq<InputAccountIdentity>, x: Exec, k: nat)
    requires k < |ids| && k < |x.pre| && BoundDerives(d, ids, x)
    requires Emit(c, d, ids, x, k).Some? && Emit(c, d, ids, x, k + 1).Some?
    requires AllEmitted(c, d, ids, x, k, Emit(c, d, ids, x, k).value)
    ensures AllEmitted(c, d, ids, x, k + 1, Emit(c, d, ids, x, k + 1).value)
  {
    hide NoteFor, NoteOf, BoundDerives, EmittedAt, Emit;
    var before, e := Emit(c, d, ids, x, k).value, Emit(c, d, ids, x, k + 1).value;
    EmitNext(c, d, ids, x, k);
    if !ids[k].Public? {
      NoteRederives(c, d, ids, x, k, x.post[x.pre[k].accountId]);
    }
    EmittedLast(c, d, ids, x, k);
    forall j | 0 <= j < k
      ensures EmittedAt(c, d, ids, x, j, e)
    {
      EmittedStays(c, d, ids, x, j, before, e);
    }
  }

  /** Every account emits exactly one action, in order, and there are no others. */
  lemma {:induction false} EmitPlaces(c: Crypto, d: Derivations, ids: seq<InputAccountIdentity>, x: Exec, k: nat)
    requires k <= |ids| && k <= |x.pre| && BoundDerives(d, ids, x)
    requires Emit(c, d, ids, x, k).Some?
    ensures AllEmitted(c, d, ids, x, k, Emit(c, d, ids, x, k).value)
    decreases k
  {
    hide BoundDerives, Emit;
    if k == 0 {
      EmitNothing(c, d, ids, x);
    } else {
      hide AllEmitted;
      EmitNext(c, d, ids, x, k - 1);
      EmitPlaces(c, d, ids, x, k - 1);
      AllEmittedNext(c, d, ids, x, k - 1);
    }
  }

  function PublicSum(actions: seq<PublicAction>): nat {
    if actions == [] then 0 else PublicSum(actions[..|actions| - 1]) + actions[|actions| - 1].post.balance
  }

  function NoteSum(notes: seq<Note>): nat {
    if notes == [] then 0 else NoteSum(notes[..|notes| - 1]) + notes[|notes| - 1].post.balance
  }

  lemma PublicSumSnoc(actions: seq<PublicAction>, action: PublicAction)
    ensures PublicSum(actions + [action]) == PublicSum(actions) + action.post.balance
  {
    assert (actions + [action])[..|actions|] == actions;
  }

  lemma NoteSumSnoc(notes: seq<Note>, note: Note)
    ensures NoteSum(notes + [note]) == NoteSum(notes) + note.post.balance
  {
    assert (notes + [note])[..|notes|] == notes;
  }

  lemma NoteBalance(c: Crypto, d: Derivations, identity: InputAccountIdentity, pre: AccountWithMetadata, post: Account,
                    bound: Option<(ProgramId, PdaSeed)>)
    requires !identity.Public? && NoteFor(c, d, identity, pre, post, bound).Some?
    ensures NoteFor(c, d, identity, pre, post, bound).value.post.balance == post.balance
  {
  }

  lemma SumPostNext(x: Exec, k: nat)
    requires k < |x.pre| && x.pre[k].accountId in x.post
    ensures SumPost(x.pre[..k + 1], x.post) == SumPost(x.pre[..k], x.post) + x.post[x.pre[k].accountId].balance
  {
    assert x.pre[..k + 1][..k] == x.pre[..k];
  }

  function EmittedSum(e: Emission): nat {
    PublicSum(e.public) + NoteSum(e.notes)
  }

  lemma EmittedSumNext(c: Crypto, d: Derivations, ids: seq<InputAccountIdentity>, x: Exec, k: nat)
    requires k < |ids| && k < |x.pre| && Emit(c, d, ids, x, k + 1).Some?
    ensures Emit(c, d, ids, x, k).Some? && x.pre[k].accountId in x.post
    ensures EmittedSum(Emit(c, d, ids, x, k + 1).value) ==
            EmittedSum(Emit(c, d, ids, x, k).value) + x.post[x.pre[k].accountId].balance
  {
    hide NoteFor, PublicSum, NoteSum, Emit;
    EmitNext(c, d, ids, x, k);
    var e, pre := Emit(c, d, ids, x, k).value, x.pre[k];
    var post := x.post[pre.accountId];
    if ids[k].Public? {
      PublicSumSnoc(e.public, PublicAction(pre, post));
    } else {
      NoteBalance(c, d, ids[k], pre, post, BoundAt(x, k));
      NoteSumSnoc(e.notes, NoteFor(c, d, ids[k], pre, post, BoundAt(x, k)).value);
    }
  }

  /** No balance goes missing between the derived post states and the emitted actions. */
  lemma {:induction false} EmissionFaithful(c: Crypto, d: Derivations, ids: seq<InputAccountIdentity>, x: Exec, k: nat)
    requires k <= |ids| && k <= |x.pre|
    requires Emit(c, d, ids, x, k).Some?
    ensures EmittedSum(Emit(c, d, ids, x, k).value) == SumPost(x.pre[..k], x.post)
    decreases k
  {
    hide Emit;
    if k == 0 {
      EmitNothing(c, d, ids, x);
    } else {
      hide EmittedSum, SumPost;
      EmittedSumNext(c, d, ids, x, k - 1);
      EmissionFaithful(c, d, ids, x, k - 1);
      SumPostNext(x, k - 1);
    }
  }

  /** The emission of a whole accepted transaction. */
  ghost function Emitted(c: Crypto, v: Prover, d: Derivations, ids: seq<InputAccountIdentity>,
                         program: ProgramId, outputs: seq<ProgramOutput>): Option<Emission>
  {
    var x :- Derive(v, d, ids, program, outputs);
    if |ids| != |x.pre| then None else Emit(c, d, ids, x, |ids|)
  }

  /**
   * A derived transaction is emitted if and only if it has one identity per account and every
   * private account comes in as its identity demands.
   */
  lemma EmittedIff(c: Crypto, v: Prover, d: Derivations, ids: seq<InputAccountIdentity>,
                   program: ProgramId, outputs: seq<ProgramOutput>)
    ensures Emitted(c, v, d, ids, program, outputs).Some? <==>
            && Derive(v, d, ids, program, outputs).Some?
            && var x := Derive(v, d, ids, program, outputs).value;
            && |ids| == |x.pre|
            && forall k :: 0 <= k < |ids| ==> ActionAllowed(d, ids, x, k)
  {
    hide Derive, Emit, ActionAllowed, Calls, Sync, Touches;
    if Derive(v, d, ids, program, outputs).Some? {
      var vs, x := DeriveParts(v, d, ids, program, outputs);
      if |ids| == |x.pre| {
        EmitIff(c, d, ids, x, |ids|);
        forall k | 0 <= k < |x.pre|
          ensures x.pre[k].accountId in x.post
        {
          PositionUnique(x.pre, k);
        }
      }
    }
  }

  /**
   * End to end: in an accepted transaction every account emits exactly one action at its place,
   * a private one as a note whose supplied keys and bound seed re-derive the account's id, and
   * the balances behind all actions add up to the balances the accounts came in with.
   */
  lemma OutputFaithful(c: Crypto, v: Prover, d: Derivations, ids: seq<InputAccountIdentity>,
                       program: ProgramId, outputs: seq<ProgramOutput>)
    requires Emitted(c, v, d, ids, program, outputs).Some?
    ensures var e := Emitted(c, v, d, ids, program, outputs).value;
            && Derive(v, d, ids, program, outputs).Some?
            && var x := Derive(v, d, ids, program, outputs).value;
            && |x.pre| == |ids|
            && AllEmitted(c, d, ids, x, |ids|, e)
            && EmittedSum(e) == SumPre(x.pre)
  {
    hide Derive, Emit, Calls, Sync, Touches, EmittedAt;
    var vs, x := DeriveParts(v, d, ids, program, outputs);
    AcceptedConserves(v, d, ids, program, outputs);
    EmissionFaithful(c, d, ids, x, |ids|);
    EmitPlaces(c, d, ids, x, |ids|);
    assert x.pre[..|ids|] == x.pre;
  }

  /** Every note is the note of some position. */
  lemma {:induction false} NotePosition(ids: seq<InputAccountIdentity>, k: nat, i: nat) returns (j: nat)
    requires k <= |ids| && i < PrivateBefore(ids, k)
    ensures j < k && !ids[j].Public? && PrivateBefore(ids, j) == i
    decreases k
  {
    if !ids[k - 1].Public? && i == PrivateBefore(ids, k - 1) {
      return k - 1;
    }
    j := NotePosition(ids, k - 1, i);
  }

  // ---- Hiding order ------------------------------------------------------------------------

  /** An action without its commitment. */
  datatype Body = Body(nullifier: Nullifier, root: CommitmentSetDigest, note: EncryptedAccountData)

  function BodyOf(a: PrivateAction): Body {
    Body(a.nullifier, a.root, a.encryptedPostState)
  }

  function Bodies(actions: seq<PrivateAction>): (r: seq<Body>)
    ensures |r| == |actions| && forall i :: 0 <= i < |r| ==> r[i] == BodyOf(actions[i])
  {
    seq(|actions|, i requires 0 <= i < |actions| => BodyOf(actions[i]))
  }

  function Commitments(actions: seq<PrivateAction>): (r: seq<Commitment>)
    ensures |r| == |actions| && forall i :: 0 <= i < |r| ==> r[i] == actions[i].commitment
  {
    seq(|actions|, i requires 0 <= i < |actions| => actions[i].commitment)
  }

  const BY_NULLIFIER: PrivateAction -> real := (a: PrivateAction) => a.nullifier.bytes as real
  const BY_BODY: Body -> real := (b: Body) => b.nullifier.bytes as real
  const BY_BYTES: Commitment -> real := (c: Commitment) => c.bytes as real

  function Reassign(actions: seq<PrivateAction>, commitments: seq<Commitment>): (r: seq<PrivateAction>)
    requires |actions| == |commitments|
    ensures |r| == |actions| && forall i :: 0 <= i < |r| ==> r[i] == actions[i].(commitment := commitments[i])
  {
    seq(|actions|, i requires 0 <= i < |actions| => actions[i].(commitment := commitments[i]))
  }

  /**
   * Nullifiers ascend, commitments ascend, the same commitments are there, and every nullifier
   * still stands with its own root and note.
   */
  ghost predicate Obfuscates(actions: seq<PrivateAction>, out: seq<PrivateAction>) {
    && SortOf(Bodies(actions), Bodies(out), BY_BODY)
    && SortOf(Commitments(actions), Commitments(out), BY_BYTES)
  }

  method ObfuscateOutputOrdering(actions: seq<PrivateAction>) returns (out: seq<PrivateAction>)
    ensures Obfuscates(actions, out)
  {
    hide SortOf, Obfuscates;
    var commitments := Sort(Commitments(actions), BY_BYTES);
    var sorted := Sort(actions, BY_NULLIFIER);
    SortLength(actions, sorted, BY_NULLIFIER);
    SortLength(Commitments(actions), commitments, BY_BYTES);
    out := [];
    for i := 0 to |sorted|
      invariant |out| == i
      invariant forall k :: 0 <= k < i ==> out[k] == sorted[k].(commitment := commitments[k])
    {
      out := out + [sorted[i].(commitment := commitments[i])];
    }
    assert out == Reassign(sorted, commitments);
    AnySortObfuscates(actions, sorted, commitments);
  }

  lemma BodiesRemove(b: seq<PrivateAction>, j: nat)
    requires j < |b|
    ensures multiset(Bodies(b)) == multiset(Bodies(b[..j] + b[j + 1..])) + multiset{BodyOf(b[j])}
  {
    RemoveAt(Bodies(b), j);
    assert Bodies(b)[..j] + Bodies(b)[j + 1..] == Bodies(b[..j] + b[j + 1..]);
  }

  lemma {:induction false} BodiesMultiset(a: seq<PrivateAction>, b: seq<PrivateAction>)
    requires multiset(a) == multiset(b)
    ensures multiset(Bodies(a)) == multiset(Bodies(b))
    decreases |a|
  {
    hide Bodies;
    SameLength(a, b);
    if a != [] {
      var n := |a| - 1;
      assert a[n] in multiset(b);
      var j :| 0 <= j < |b| && b[j] == a[n];
      RemoveBoth(a, n, b, j);
      BodiesMultiset(a[..n] + a[n + 1..], b[..j] + b[j + 1..]);
      BodiesRemove(a, n);
      BodiesRemove(b, j);
    }
  }

  /** Whatever an unstable sort does with ties, sorting both lists and re-pairing obfuscates. */
  lemma AnySortObfuscates(actions: seq<PrivateAction>, sorted: seq<PrivateAction>, commitments: seq<Commitment>)
    requires SortOf(actions, sorted, BY_NULLIFIER) && SortOf(Commitments(actions), commitments, BY_BYTES)
    requires |sorted| == |commitments|
    ensures Obfuscates(actions, Reassign(sorted, commitments))
  {
    var out := Reassign(sorted, commitments);
    assert Commitments(out) == commitments;
    assert Bodies(out) == Bodies(sorted);
    BodiesMultiset(actions, sorted);
  }

  lemma CommitmentsKeyed(s: seq<Commitment>)
    ensures Keyed(s, BY_BYTES)
  {
  }

  /**
   * The order gives nothing away: if equal nullifiers only occur with equal contents, any two
   * lists with the same bodies and the same commitments, however ordered and however paired,
   * come out identical.
   */
  lemma CanonicalForm(a: seq<PrivateAction>, b: seq<PrivateAction>, x: seq<PrivateAction>, y: seq<PrivateAction>)
    requires multiset(Bodies(a)) == multiset(Bodies(b))
    requires multiset(Commitments(a)) == multiset(Commitments(b))
    requires Keyed(Bodies(a), BY_BODY)
    requires Obfuscates(a, x) && Obfuscates(b, y)
    ensures x == y
  {
    hide SortedBy, Keyed, Bodies, Commitments;
    KeyedPermutation(Bodies(a), Bodies(x), BY_BODY);
    CommitmentsKeyed(Commitments(x));
    SortedUnique(Bodies(x), Bodies(y), BY_BODY);
    SortedUnique(Commitments(x), Commitments(y), BY_BYTES);
    forall i | 0 <= i < |x|
      ensures x[i] == y[i]
    {
      assert Bodies(x)[i] == Bodies(y)[i] && Commitments(x)[i] == Commitments(y)[i];
    }
    assert |x| == |Bodies(x)| == |Bodies(y)| == |y|;
  }

  /** And that condition is exact: otherwise the sort alone leaves two different results. */
  lemma OrderIsHiddenIff(a: seq<PrivateAction>)
    ensures Keyed(Bodies(a), BY_BODY) <==> forall x, y :: Obfuscates(a, x) && Obfuscates(a, y) ==> x == y
  {
    if Keyed(Bodies(a), BY_BODY) {
      forall x, y | Obfuscates(a, x) && Obfuscates(a, y)
        ensures x == y
      {
        CanonicalForm(a, a, x, y);
      }
    } else {
      var x, y := TwoResults(a);
    }
  }

  /** A sorted list with two different bodies under one nullifier. */
  lemma ClashingPair(s: seq<PrivateAction>) returns (p: nat, q: nat)
    requires !Keyed(Bodies(s), BY_BODY)
    ensures p < q < |s| && BY_NULLIFIER(s[p]) == BY_NULLIFIER(s[q]) && BodyOf(s[p]) != BodyOf(s[q])
  {
    var i, j :| 0 <= i < |s| && 0 <= j < |s|
                && BY_BODY(Bodies(s)[i]) == BY_BODY(Bodies(s)[j]) && Bodies(s)[i] != Bodies(s)[j];
    p, q := if i < j then i else j, if i < j then j else i;
  }

  lemma TwoResults(a: seq<PrivateAction>) returns (x: seq<PrivateAction>, y: seq<PrivateAction>)
    requires !Keyed(Bodies(a), BY_BODY)
    ensures Obfuscates(a, x) && Obfuscates(a, y) && x != y
  {
    var sorted := Sort(a, BY_NULLIFIER);
    var commitments := Sort(Commitments(a), BY_BYTES);
    SameLength(a, sorted);
    SameLength(Commitments(a), commitments);
    BodiesMultiset(a, sorted);
    if Keyed(Bodies(sorted), BY_BODY) {
      KeyedPermutation(Bodies(sorted), Bodies(a), BY_BODY);
    }
    var p, q := ClashingPair(sorted);
    SwapSorted(sorted, p, q, BY_NULLIFIER);
    var swapped := Swap(sorted, p, q);
    x := Reassign(sorted, commitments);
    y := Reassign(swapped, commitments);
    AnySortObfuscates(a, sorted, commitments);
    AnySortObfuscates(a, swapped, commitments);
    assert BodyOf(x[p]) == BodyOf(sorted[p]) && BodyOf(y[p]) == BodyOf(sorted[q]);
  }
}
