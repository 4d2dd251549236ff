# NEAR receipt mapping, modelled in Dafny

This project models the mapping handler of a NEAR subgraph (`src/mapping.ts`).
For every action of an incoming receipt the handler does the following:

- An action that is not a function call logs an early-return notice.
- A function call runs three blocks in turn: `init`, `setContractToFund` and `transferAdmin`.
  - A block whose method name does not match logs a "not processed" notice.
  - A block whose method name matches builds an entity keyed by the base58 receipt id.
    The entity has the standard receipt properties: block time and height, hashes, the
    accounts, gas and tokens burnt.
  - If the outcome has a first log line, the block parses it as JSON.
  - If the parse is an object, the block copies the envelope fields `standard`, `event`
    and `version`, and then the method's data fields, into the entity.
  - The block then saves the entity.

The files:

| file | contents |
|---|---|
| `json.dfy` | the JSON values the host hands over, and the asserting accessors `toObject`, `toString`, `toBigInt` and `toArray`. A kind mismatch is an `Abort`. |
| `near.dfy` | the receipt types, and the host functions `toBase58` and `json.fromString`, passed in as the function values of `Host` |
| `entities.dfy` | the three entities as one record type, the store as a map keyed by (entity type, id) in which `save` is an upsert, and the notices |
| `projection.dfy` | the envelope and data loops as folds over the object's entries, with their properties |
| `dispatch.dfy` | what one block, one action and one receipt do to the store and the notices, as functions, with their properties |
| `mapping.dfy` | the handler itself as the class `Mapper`. It holds the store and the notice log and has the handler's loops. Each method is proved equal to the function that specifies it. |

The model follows the code as written, including these behaviours:

- **Type mismatches abort.** A data value of the wrong JSON kind aborts the handler; the field is not skipped.
- **`contract` always aborts.** The `contract` case has no `break`, so it runs on into the
  `methods` case. That case reads the same value as an array, while `contract` reads it as a
  string. Any data entry keyed `contract` therefore aborts.
- **Data comes from the first envelope entry.** The data object is the first entry of the
  envelope, whatever its key. A log shaped as `{ "standard": …, "event": …, "version": …, "data": {…} }`
  inside the outer object therefore aborts when the host delivers the entries in text order,
  because its first entry is then a string.
- **Repeated keys.** The last occurrence of a repeated key wins.
- **`methods` accumulates.** Unlike the other fields, `methods` keeps every `methods` entry's
  strings in order. An empty array pushes its own text form, the empty string.
- **Unparseable log line.** `json.fromString` has no failure result, so a log line that does
  not parse aborts.
- **No log lines.** An outcome without log lines saves nothing.
- **Unknown method name.** It logs three "not processed" notices, one from each block.
- **Known method name.** It logs two "not processed" notices, one from each non-matching
  block, unless the handler aborts earlier.
- **Stop at the first abort.** Once an accessor aborts, nothing after it in the receipt runs.

## Model

| member | source | states |
|---|---|---|
| Mapping.Mapper.HandleReceipt | src/mapping.ts:4-16 | the store, notices and abort after the loop over all actions equal `RunActions` of the old state: each action's effect applied in order, stopping at the first abort |
| Mapping.Mapper.HandleAction | src/mapping.ts:18-276 | the new store and notices are the old ones with `ActionSpec` applied, and the returned abort is that effect's abort |
| Mapping.Mapper.HandleBlock | src/mapping.ts:35-107 | one `if (methodName == …)` block changes the store and notices exactly as `BlockSpec` says |
| Mapping.Mapper.Save | src/mapping.ts:102 | `save` upserts the record under its (entity type, id) key and changes nothing else |
| Mapping.Mapper.Info | src/mapping.ts:106 | `log.info` appends one notice to the log |
| Mapping.ReadEnvelope | src/mapping.ts:67-80 | the envelope loop returns exactly the fold `ReadEnvelopeSpec` of the entries, including where it aborts |
| Mapping.ReadInitData | src/mapping.ts:84-99 | the `init` data loop returns the fold of `InitStep` over the data entries |
| Mapping.ReadFundData | src/mapping.ts:158-191 | the `setContractToFund` data loop returns the fold of `FundStep`, including the fall-through from `contract` into `methods` |
| Mapping.PushMethods | src/mapping.ts:174-178 | the push loop returns `PushAll` of the array |
| Mapping.ReadTransferData | src/mapping.ts:251-266 | the `transferAdmin` data loop returns the fold of `TransferStep` |
| Mapping.ReadData | src/mapping.ts:84-266 | dispatches to the data loop of the block's entity kind (lines 84-99, 158-191 or 251-266) and returns `ProjectData` |
| Dispatch.ProvenanceOf | src/mapping.ts:42-53 | the standard properties: block time is the nanosecond timestamp floored to milliseconds; height, gas, tokens and accounts are copied; the hashes, key and outcome id are base58 of the originals |
| Dispatch.NonCallReturnsEarly | src/mapping.ts:26-29 | a non-call action logs exactly one early-return notice, saves nothing and does not abort |
| Dispatch.ActionSavesAtMostOneOfItsKind | src/mapping.ts:35-39 | an action saves at most one record. That record exists only for a function call whose name is the method of the record's kind. It is saved under the base58 receipt id, with the receipt's provenance |
| Dispatch.UnknownMethodLogsThreeNotices | src/mapping.ts:105-107 | a method name other than the three logs three "not processed" notices for it, saves nothing and does not abort |
| Dispatch.KnownMethodEffect | src/mapping.ts:56-103 | for a known method: no log line means nothing is saved; otherwise the built record is saved, or the abort ends the action. The other blocks' notices are logged only up to the abort |
| Dispatch.NonObjectLogSavesProvenanceOnly | src/mapping.ts:56-102 | a first log line that parses to a non-object saves the record with provenance only: envelope and data fields are left unset |
| Dispatch.RunStopsAtFault | src/mapping.ts:7-15 | once an action aborts, the actions after it change nothing |
| Dispatch.ReceiptWritesOnlyItsId | src/mapping.ts:36-39 | a receipt leaves every entry under another id as it was, present or absent |
| Dispatch.ReceiptWithoutKnownCallsSavesNothing | src/mapping.ts:7-15 | a receipt with no call to the three methods leaves the store unchanged and never aborts |
| Dispatch.LastSaveWins | src/mapping.ts:7-15 | over the action loop, with `save` at line 102 as an upsert: the record an action saves is the one the store holds under its key at the end of the receipt, whatever later actions do, unless one of them calls the same method |
| Dispatch.RepeatedCallRewritesSameRecord | src/mapping.ts:7-15 | two calls of one method in a receipt leave the store as one call does; only the notices repeat |
| Projection.EnvelopeReadsOnlyItsKeys | src/mapping.ts:67-80 | the envelope loop's result depends only on the entries keyed `standard`, `event` or `version` |
| Projection.EnvelopeFieldsAreLastOccurrences | src/mapping.ts:67-80 | each envelope field holds the string value of its key's last occurrence, or is unset if the key is absent |
| Projection.EnvelopeAbortsIffNonString | src/mapping.ts:70-78 | the envelope loop aborts if and only if some envelope key carries a non-string value |
| Projection.DataReadsOnlyItsKeys | src/mapping.ts:84-98 | each data loop depends only on the entries keyed by its own fields |
| Projection.InitFieldsAreLastOccurrences | src/mapping.ts:88-98 | `adminId`, `adminSet` and `accountId` each hold their key's last value |
| Projection.FundFieldsAreLastOccurrences | src/mapping.ts:162-190 | `contractPublicKey`, `allowance`, `contract`, `time` and `admin` each hold their key's last value |
| Projection.TransferFieldsAreLastOccurrences | src/mapping.ts:255-265 | `transferredFrom`, `transferred` and `transferredTo` each hold their key's last value |
| Projection.ContractAlwaysAborts | src/mapping.ts:169-172 | a `contract` entry aborts: not an array if it is a string, otherwise not a string |
| Projection.DataAbortsIffSomeEntryRejected | src/mapping.ts:88-265 | in each of the three data switches (lines 88-98, 162-190, 255-265), a data loop aborts if and only if some entry of its kind has a value of the wrong JSON kind |
| Projection.MethodsCaseAppends | src/mapping.ts:171-183 | an array of strings appends its elements to `methods` in order, an empty array appends the empty string, and no other field changes |
| Projection.FundMethodsAccumulate | src/mapping.ts:158-191 | after the whole `setContractToFund` data loop, `methods` holds `AllMethods` of the data: each `methods` entry's strings, or the empty-array text, in entry order |
| Projection.PushAll | src/mapping.ts:174-178 | pushing succeeds if and only if every element is a string, and then appends those strings in order after the existing ones |
| Projection.ProjectData | src/mapping.ts:83-99 | the data fields produced are of the block's own entity kind |
| Projection.NonObjectLogSetsNothing | src/mapping.ts:59 | a parsed log that is not an object sets no envelope or data field |
| Projection.DataIsFirstEnvelopeEntry | src/mapping.ts:61-83 | when the log projects, the envelope is the first top-level value and the data is the envelope's first value, whatever their keys |
| Projection.ProjectEventDoneIff | src/mapping.ts:59-99 | a parsed log object yields a record if and only if its first value is an object whose first value is an object, and no envelope or data entry has a value of the wrong JSON kind; `{}` and a non-object first value abort |
| Projection.EnvelopeLedByScalarAborts | src/mapping.ts:83 | an envelope whose first value is not an object aborts |
| Projection.StandardFirstEnvelopeAborts | src/mapping.ts:64-83 | a concrete `init` log with `standard` first in its envelope aborts with "not an object" |

## Left out

- JSON text parsing is not modelled: `json.fromString` is the host function `Host.parse`, and a line it cannot parse aborts.
- Base58 encoding is not modelled: `toBase58` is the host function `Host.toBase58`.
- JSON numbers are integers, and `toBigInt` is exact on them. Fractional numbers and the BigInt representation are not modelled.
- `BigInt.fromU64` is the identity on the unsigned 64-bit inputs; its wire representation is not modelled.
- `log.info` is modelled as a list of notices. The log sink and its formatting are not modelled.
- The generated entity classes are not part of this model. An entity is a record value, `save` is an upsert by entity type and id, and a new entity starts with an empty `methods` list. The model also assumes that `logs.methods.push(…)` changes the entity's own list; that depends on the generated getter, which is not part of this model.
- The mapping builds all provenance fields at once, rather than assigning them one by one; nothing reads them in between.
- For an outcome without log lines, the model follows the `logs[0] != null` check as written and saves nothing. Whether the AssemblyScript runtime would instead abort on the out-of-range index is not modelled.
- What the indexing host does after a handler aborts (discarding the block's writes, retrying) is not modelled. The model only records that the handler stopped and what it had done by then.
- Chain reorganisations, block ordering and delivery of receipts are not modelled.
- The order and duplication of keys in a JSON object are taken as the host delivers them.
- Function-call arguments, gas and deposit, and the other action kinds' payloads are not modelled, because the mapping never reads them.
