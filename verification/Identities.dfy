/** Who an account belongs to in the circuit's input, and how account ids are derived. */
module Identities {
  import opened Prelude
  import opened Programs

  type NullifierPublicKey(==, !new)
  type NullifierSecretKey(==, !new)
  type ViewingPublicKey(==, !new)
  type ViewTag(==, !new)
  type MembershipProof(==, !new)
  type CommitmentSetDigest(==, !new)

  type Identifier = U128

  /** One entry per account the execution involves, in first-seen order. */
  datatype InputAccountIdentity =
    | Public
    | PrivateAuthorizedInit(vpk: ViewingPublicKey, randomSeed: Bytes32, nsk: NullifierSecretKey,
                            identifier: Identifier, commitmentRoot: CommitmentSetDigest)
    | PrivateAuthorizedUpdate(vpk: ViewingPublicKey, randomSeed: Bytes32, viewTag: ViewTag,
                              nsk: NullifierSecretKey, membershipProof: MembershipProof,
                              identifier: Identifier)
    | PrivateForeignInit(vpk: ViewingPublicKey, randomSeed: Bytes32, npk: NullifierPublicKey,
                         identifier: Identifier, commitmentRoot: CommitmentSetDigest)
    | PrivatePdaInit(vpk: ViewingPublicKey, randomSeed: Bytes32, npk: NullifierPublicKey,
                     identifier: Identifier, commitmentRoot: CommitmentSetDigest,
                     seed: Option<(PdaSeed, ProgramId)>)
    | PrivatePdaUpdate(vpk: ViewingPublicKey, randomSeed: Bytes32, viewTag: ViewTag,
                       nsk: NullifierSecretKey, membershipProof: MembershipProof,
                       identifier: Identifier, seed: Option<(PdaSeed, ProgramId)>)
  {
    /** The account is created here. */
    predicate IsInit() {
      PrivateAuthorizedInit? || PrivateForeignInit? || PrivatePdaInit?
    }

    /** The account was committed to before. */
    predicate IsUpdate() {
      PrivateAuthorizedUpdate? || PrivatePdaUpdate?
    }

    predicate IsPrivatePda() {
      PrivatePdaInit? || PrivatePdaUpdate?
    }

    /** A seed supplied with the input rather than by a claim or a caller. */
    function ExternalSeed(): Option<(PdaSeed, ProgramId)> {
      if IsPrivatePda() then seed else None
    }
  }

  /** Which account a note is for, with what is needed to re-derive its id. */
  datatype PrivateAccountKind =
    | RegularKind(identifier: Identifier)
    | PdaKind(programId: ProgramId, seed: PdaSeed, identifier: Identifier)

  datatype PdaKeys = PdaKeys(npk: NullifierPublicKey, vpk: ViewingPublicKey, identifier: Identifier)

  /** The id derivations: arbitrary functions, no injectivity assumed. */
  datatype Derivations = Derivations(
    forPublicPda: (ProgramId, PdaSeed) -> AccountId,
    forPrivatePda: (ProgramId, PdaSeed, NullifierPublicKey, ViewingPublicKey, Identifier) -> AccountId,
    forRegularPrivateAccount: (NullifierPublicKey, ViewingPublicKey, Identifier) -> AccountId,
    npkOf: NullifierSecretKey -> NullifierPublicKey)
  {
    function PrivatePda(program: ProgramId, seed: PdaSeed, keys: PdaKeys): AccountId {
      forPrivatePda(program, seed, keys.npk, keys.vpk, keys.identifier)
    }

    function ForPrivateAccount(npk: NullifierPublicKey, vpk: ViewingPublicKey, kind: PrivateAccountKind): AccountId {
      match kind
      case RegularKind(identifier) => forRegularPrivateAccount(npk, vpk, identifier)
      case PdaKind(program, seed, identifier) => forPrivatePda(program, seed, npk, vpk, identifier)
    }

    /** The keys supplied for a private PDA. */
    function KeysOf(identity: InputAccountIdentity): Option<PdaKeys> {
      match identity
      case PrivatePdaInit(vpk, _, npk, identifier, _, _) => Some(PdaKeys(npk, vpk, identifier))
      case PrivatePdaUpdate(vpk, _, _, nsk, _, identifier, _) => Some(PdaKeys(npkOf(nsk), vpk, identifier))
      case _ => None
    }
  }

  /** The keys supplied at a position, if a private PDA is declared there. */
  function KeysAt(d: Derivations, ids: seq<InputAccountIdentity>, pos: nat): Option<PdaKeys> {
    if pos < |ids| then d.KeysOf(ids[pos]) else None
  }
}
