/**
 * The three entity kinds the mapping saves, their fields, the store they
 * are saved in and the informational notices the mapping logs.
 */
module Entities {
  import opened Wrappers

  datatype Kind = InitKind | SetContractToFundKind | TransferAdminKind

  /** The method name that routes an action to each kind. */
  function MethodName(k: Kind): string {
    match k
    case InitKind => "init"
    case SetContractToFundKind => "setContractToFund"
    case TransferAdminKind => "transferAdmin"
  }

  /** The fields every kind copies from the receipt, block header and outcome. */
  datatype Provenance = Provenance(
    blockTime: int,
    blockHeight: int,
    blockHash: string,
    predecessorId: string,
    receiverId: string,
    signerId: string,
    signerPublicKey: string,
    gasBurned: int,
    tokensBurned: int,
    outcomeId: string,
    executorId: string,
    outcomeBlockHash: string)

  datatype Envelope = Envelope(standard: Option<string>, event: Option<string>, version: Option<string>)

  const NO_ENVELOPE := Envelope(None, None, None)

  datatype InitFields = InitFields(adminId: Option<string>, adminSet: Option<int>, accountId: Option<string>)

  const EMPTY_INIT := InitFields(None, None, None)

  datatype FundFields = FundFields(
    contractPublicKey: Option<string>,
    allowance: Option<string>,
    contract: Option<string>,
    methods: seq<string>,
    time: Option<int>,
    admin: Option<string>)

  const EMPTY_FUND := FundFields(None, None, None, [], None, None)

  datatype TransferFields = TransferFields(
    transferredFrom: Option<string>,
    transferred: Option<int>,
    transferredTo: Option<string>)

  const EMPTY_TRANSFER := TransferFields(None, None, None)

  /** The event-specific part of an entity; its constructor decides the kind. */
  datatype Payload =
    | InitData(init: InitFields)
    | FundData(fund: FundFields)
    | TransferData(transfer: TransferFields)

  function KindOf(p: Payload): Kind {
    match p
    case InitData(_) => InitKind
    case FundData(_) => SetContractToFundKind
    case TransferData(_) => TransferAdminKind
  }

  /** The payload of a freshly created entity of kind `k`: nothing set. */
  function EmptyPayload(k: Kind): (p: Payload)
    ensures KindOf(p) == k
  {
    match k
    case InitKind => InitData(EMPTY_INIT)
    case SetContractToFundKind => FundData(EMPTY_FUND)
    case TransferAdminKind => TransferData(EMPTY_TRANSFER)
  }

  /** An `Init`, `SetContractToFund` or `TransferAdmin` entity as saved. */
  datatype Record = Record(id: string, provenance: Provenance, envelope: Envelope, payload: Payload)

  /** Entities are stored per kind, by id. */
  type Key = (Kind, string)

  function KeyOf(r: Record): Key {
    (KindOf(r.payload), r.id)
  }

  /** `save()` upserts by key; saving several records applies them in order. */
  function SaveAll(store: map<Key, Record>, records: seq<Record>): map<Key, Record>
    decreases |records|
  {
    if |records| == 0 then store
    else
      var last := records[|records| - 1];
      SaveAll(store, records[..|records| - 1])[KeyOf(last) := last]
  }

  /** Saving `first` and then `next` is saving them all in that order. */
  lemma {:induction false} SaveAllConcat(store: map<Key, Record>, first: seq<Record>, next: seq<Record>)
    ensures SaveAll(SaveAll(store, first), next) == SaveAll(store, first + next)
    decreases |next|
  {
    if |next| == 0 {
      assert first + next == first;
    } else {
      var n := |next| - 1;
      SaveAllConcat(store, first, next[..n]);
      assert (first + next)[..|first + next| - 1] == first + next[..n];
    }
  }

  /** The `log.info` lines the mapping writes. */
  datatype Notice =
    | EarlyReturn(reason: string)
    | NotProcessed(methodName: string)

  const NOT_A_FUNCTION_CALL := "Not a function call"
}
