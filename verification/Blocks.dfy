/** Blocks, their hashes, and the ledger operations a block is applied with. */
module Blocks {
  import opened Prelude

  datatype HashType = HashType(bytes: Bytes32)
  datatype MsgId = MsgId(bytes: Bytes32)

  type V03State(==, !new)
  type PublicTransaction(==, !new)
  type PrivateTransaction(==, !new)
  type DeploymentTransaction(==, !new)
  type Signature(==, !new)

  datatype LeeTransaction =
    | Public(public: PublicTransaction)
    | PrivacyPreserving(private: PrivateTransaction)
    | ProgramDeployment(deployment: DeploymentTransaction)

  datatype BlockHeader = BlockHeader(
    blockId: nat,
    prevBlockHash: HashType,
    hash: HashType,
    timestamp: nat,
    signature: Signature)

  datatype BedrockStatus = Pending | Safe | Finalized

  datatype Block = Block(
    header: BlockHeader,
    transactions: seq<LeeTransaction>,
    bedrockStatus: BedrockStatus)

  /** The part of a block its hash covers. */
  datatype HashableBlockData = HashableBlockData(
    blockId: nat,
    prevBlockHash: HashType,
    timestamp: nat,
    transactions: seq<LeeTransaction>)

  function Hashable(block: Block): HashableBlockData {
    HashableBlockData(block.header.blockId, block.header.prevBlockHash,
                      block.header.timestamp, block.transactions)
  }

  /**
   * Everything the chain takes from elsewhere: the block hash, the canonical clock
   * transaction, and the state transition of each kind of transaction. All are arbitrary
   * deterministic functions; a transition either yields the next state or a reason.
   */
  datatype Protocol = Protocol(
    computeHash: HashableBlockData -> HashType,
    clockInvocation: nat -> PublicTransaction,
    publicTransition: (V03State, PublicTransaction, nat, nat) -> Result<V03State, string>,
    privateTransition: (V03State, PrivateTransaction, nat, nat) -> Result<V03State, string>,
    deployTransition: (V03State, DeploymentTransaction) -> Result<V03State, string>)
  {
    function RecomputeHash(block: Block): HashType {
      computeHash(Hashable(block))
    }

    /** Executes one transaction as `LeeTransaction::execute_on_state` does. */
    function Execute(state: V03State, tx: LeeTransaction, blockId: nat, timestamp: nat)
      : Result<V03State, string>
    {
      match tx
      case Public(t) => publicTransition(state, t, blockId, timestamp)
      case PrivacyPreserving(t) => privateTransition(state, t, blockId, timestamp)
      case ProgramDeployment(t) => deployTransition(state, t)
    }
  }

  /**
   * No two different well-hashed blocks of `blocks` share a hash. Asked only of the blocks
   * that two runs actually received, never of the hash function as a whole.
   */
  ghost predicate CollisionFree(p: Protocol, blocks: set<Block>) {
    forall a, b :: a in blocks && b in blocks && p.RecomputeHash(a) == p.RecomputeHash(b) ==>
      Hashable(a) == Hashable(b)
  }
}
