/**
 * The NEAR receipt data the host delivers to the handler (the parts of
 * `near.ReceiptWithOutcome` the mapping reads), and the host functions the
 * mapping calls but whose code is not part of this model.
 */
module Near {
  import opened Wrappers
  import opened Json

  type U64 = x: nat | x < 0x1_0000_0000_0000_0000

  type Bytes = seq<bv8>

  /** `near.ActionValue`, by kind; only a function call carries what the mapping reads. */
  datatype ActionValue =
    | CreateAccount
    | DeployContract
    | FunctionCall(methodName: string)
    | Transfer
    | Stake
    | AddKey
    | DeleteKey
    | DeleteAccount

  datatype PublicKey = PublicKey(bytes: Bytes)

  datatype ActionReceipt = ActionReceipt(
    id: Bytes,
    predecessorId: string,
    receiverId: string,
    signerId: string,
    signerPublicKey: PublicKey,
    actions: seq<ActionValue>)

  datatype BlockHeader = BlockHeader(height: U64, hash: Bytes, timestampNanosec: U64)

  datatype Block = Block(header: BlockHeader)

  datatype ExecutionOutcome = ExecutionOutcome(
    gasBurnt: U64,
    tokensBurnt: nat,
    logs: seq<string>,
    id: Bytes,
    executorId: string,
    blockHash: Bytes)

  datatype ReceiptWithOutcome = ReceiptWithOutcome(
    outcome: ExecutionOutcome,
    receipt: ActionReceipt,
    block: Block)

  /** The four arguments `handleReceipt` passes to `handleAction` besides the action. */
  datatype Context = Context(
    receipt: ActionReceipt,
    header: BlockHeader,
    outcome: ExecutionOutcome,
    publicKey: PublicKey)

  function ContextOf(r: ReceiptWithOutcome): Context {
    Context(r.receipt, r.block.header, r.outcome, r.receipt.signerPublicKey)
  }

  /**
   * Host functions: `toBase58` renders bytes as text, `parse` is
   * `json.fromString`, `None` when the text is not JSON.
   */
  datatype Host = Host(toBase58: Bytes -> string, parse: string -> Option<JValue>)
}
