/**
 * The handler itself: a mapper holding the entity store and the notice log,
 * whose methods walk a receipt's actions, assign an entity's fields one at a
 * time and save it. Each method is proved against the functions of
 * `Projection` and `Dispatch`.
 */
module Mapping {
  import opened Wrappers
  import opened Json
  import opened Near
  import opened Entities
  import opened Projection
  import opened Dispatch

  /** The loop over `eventJSON.entries` that reads `standard`, `event` and `version`. */
  method ReadEnvelope(eventJSON: seq<Entry>) returns (r: Outcome<Envelope>)
    ensures r == ReadEnvelopeSpec(eventJSON)
  {
    var logs := NO_ENVELOPE;
    var i := 0;
    while i < |eventJSON|
      invariant i <= |eventJSON|
      invariant Project(eventJSON[..i], NO_ENVELOPE, EnvelopeStep) == Done(logs)
    {
      var (key, value) := eventJSON[i];
      ProjectStep(eventJSON, i, NO_ENVELOPE, EnvelopeStep);
      if (key == "standard" || key == "event" || key == "version") && !value.JString? {
        AbortSticks(eventJSON, i + 1, NO_ENVELOPE, EnvelopeStep);
        return Abort(NotAString);
      }
      if key == "standard" {
        logs := logs.(standard := Some(value.s));
      } else if key == "event" {
        logs := logs.(event := Some(value.s));
      } else if key == "version" {
        logs := logs.(version := Some(value.s));
      }
      i := i + 1;
    }
    assert eventJSON[..i] == eventJSON;
    return Done(logs);
  }

  /** The `init` data loop. */
  method ReadInitData(data: seq<Entry>) returns (r: Outcome<InitFields>)
    ensures r == Project(data, EMPTY_INIT, InitStep)
  {
    var logs := EMPTY_INIT;
    var i := 0;
    while i < |data|
      invariant i <= |data|
      invariant Project(data[..i], EMPTY_INIT, InitStep) == Done(logs)
    {
      var (key, value) := data[i];
      ProjectStep(data, i, EMPTY_INIT, InitStep);
      if ((key == "adminId" || key == "accountId") && !value.JString?) || (key == "adminSet" && !value.JNumber?) {
        AbortSticks(data, i + 1, EMPTY_INIT, InitStep);
        return Abort(if key == "adminSet" then NotANumber else NotAString);
      }
      if key == "adminId" {
        logs := logs.(adminId := Some(value.s));
      } else if key == "adminSet" {
        logs := logs.(adminSet := Some(value.n));
      } else if key == "accountId" {
        logs := logs.(accountId := Some(value.s));
      }
      i := i + 1;
    }
    assert data[..i] == data;
    return Done(logs);
  }

  /** The nested loop `logs.methods.push(methodsArray[i].toString())`. */
  method PushMethods(methods: seq<string>, methodsArray: seq<JValue>) returns (r: Outcome<seq<string>>)
    ensures r == PushAll(methods, methodsArray)
  {
    var pushed := methods;
    var i := 0;
    while i < |methodsArray|
      invariant i <= |methodsArray|
      invariant PushAll(methods, methodsArray[..i]) == Done(pushed)
    {
      assert methodsArray[..i + 1][..i] == methodsArray[..i];
      if !methodsArray[i].JString? {
        return Abort(NotAString);
      }
      pushed := pushed + [methodsArray[i].s];
      i := i + 1;
    }
    assert methodsArray[..i] == methodsArray;
    return Done(pushed);
  }

  /** The `setContractToFund` data loop, with the `contract` case running on into `methods`. */
  method ReadFundData(data: seq<Entry>) returns (r: Outcome<FundFields>)
    ensures r == Project(data, EMPTY_FUND, FundStep)
  {
    var logs := EMPTY_FUND;
    var i := 0;
    while i < |data|
      invariant i <= |data|
      invariant Project(data[..i], EMPTY_FUND, FundStep) == Done(logs)
    {
      var (key, value) := data[i];
      ProjectStep(data, i, EMPTY_FUND, FundStep);
      var fault: Option<Fault> := None;
      if key == "contractPublicKey" || key == "allowance" || key == "admin" {
        if !value.JString? {
          fault := Some(NotAString);
        } else if key == "contractPublicKey" {
          logs := logs.(contractPublicKey := Some(value.s));
        } else if key == "allowance" {
          logs := logs.(allowance := Some(value.s));
        } else {
          logs := logs.(admin := Some(value.s));
        }
      } else if key == "contract" || key == "methods" {
        if key == "contract" {
          if !value.JString? {
            fault := Some(NotAString);
          } else {
            logs := logs.(contract := Some(value.s));
          }
        }
        // no `break`: the `contract` case continues with the `methods` body
        if fault.None? {
          if !value.JArray? {
            fault := Some(NotAnArray);
          } else if |value.elems| > 0 {
            var pushed := PushMethods(logs.methods, value.elems);
            if pushed.Abort? {
              fault := Some(pushed.fault);
            } else {
              logs := logs.(methods := pushed.value);
            }
          } else {
            logs := logs.(methods := logs.methods + [EMPTY_ARRAY_TEXT]);
          }
        }
      } else if key == "time" {
        if !value.JNumber? {
          fault := Some(NotANumber);
        } else {
          logs := logs.(time := Some(value.n));
        }
      }
      if fault.Some? {
        AbortSticks(data, i + 1, EMPTY_FUND, FundStep);
        return Abort(fault.value);
      }
      i := i + 1;
    }
    assert data[..i] == data;
    return Done(logs);
  }

  /** The `transferAdmin` data loop. */
  method ReadTransferData(data: seq<Entry>) returns (r: Outcome<TransferFields>)
    ensures r == Project(data, EMPTY_TRANSFER, TransferStep)
  {
    var logs := EMPTY_TRANSFER;
    var i := 0;
    while i < |data|
      invariant i <= |data|
      invariant Project(data[..i], EMPTY_TRANSFER, TransferStep) == Done(logs)
    {
      var (key, value) := data[i];
      ProjectStep(data, i, EMPTY_TRANSFER, TransferStep);
      if ((key == "transferredFrom" || key == "transferredTo") && !value.JString?) || (key == "transferred" && !value.JNumber?) {
        AbortSticks(data, i + 1, EMPTY_TRANSFER, TransferStep);
        return Abort(if key == "transferred" then NotANumber else NotAString);
      }
      if key == "transferredFrom" {
        logs := logs.(transferredFrom := Some(value.s));
      } else if key == "transferred" {
        logs := logs.(transferred := Some(value.n));
      } else if key == "transferredTo" {
        logs := logs.(transferredTo := Some(value.s));
      }
      i := i + 1;
    }
    assert data[..i] == data;
    return Done(logs);
  }

  /** The data loop of the block for `kind`. */
  method ReadData(kind: Kind, data: seq<Entry>) returns (r: Outcome<Payload>)
    ensures r == ProjectData(kind, data)
  {
    match kind {
      case InitKind =>
        var f := ReadInitData(data);
        r := if f.Abort? then Abort(f.fault) else Done(InitData(f.value));
      case SetContractToFundKind =>
        var f := ReadFundData(data);
        r := if f.Abort? then Abort(f.fault) else Done(FundData(f.value));
      case TransferAdminKind =>
        var f := ReadTransferData(data);
        r := if f.Abort? then Abort(f.fault) else Done(TransferData(f.value));
    }
  }

  /** The mapping's view of the world: the entity store it saves into and the info log it writes. */
  class Mapper {
    const host: Host
    var store: map<Key, Record>
    var notices: seq<Notice>

    /** Model setup: a mapper over whatever the host's entity store already holds. */
    constructor (host: Host, store: map<Key, Record>)
      ensures this.host == host && this.store == store && notices == []
    {
      this.host := host;
      this.store := store;
      notices := [];
    }

    /** `entity.save()`: upsert by kind and id. */
    method Save(r: Record)
      modifies this
      ensures store == SaveAll(old(store), [r]) && notices == old(notices)
    {
      assert [r][..0] == [];
      store := store[KeyOf(r) := r];
    }

    /** `log.info(...)`. */
    method Info(n: Notice)
      modifies this
      ensures notices == old(notices) + [n] && store == old(store)
    {
      notices := notices + [n];
    }

    /** `handleReceipt`: every action of the receipt in order, until one aborts. */
    method HandleReceipt(receipt: ReceiptWithOutcome) returns (fault: Option<Fault>)
      modifies this
      ensures Run(store, notices, fault) ==
                RunActions(host, ContextOf(receipt), receipt.receipt.actions, old(store), old(notices))
    {
      var ctx := ContextOf(receipt);
      var actions := receipt.receipt.actions;
      ghost var effects := ActionEffects(host, ctx, actions);
      var i := 0;
      while i < |actions|
        invariant i <= |actions|
        invariant RunEffects(effects[..i], old(store), old(notices)) == Run(store, notices, None)
      {
        RunStep(effects, i, old(store), old(notices));
        fault := HandleAction(actions[i], ctx);
        if fault.Some? {
          RunStopsAtFault(effects, i + 1, old(store), old(notices));
          return;
        }
        i := i + 1;
      }
      assert effects[..i] == effects;
      fault := None;
    }

    /** `handleAction`: return early on a non-call, else run the three method blocks in turn. */
    method HandleAction(action: ActionValue, ctx: Context) returns (fault: Option<Fault>)
      modifies this
      ensures var e := ActionSpec(host, ctx, action);
                notices == old(notices) + e.notices && store == SaveAll(old(store), e.saved) && fault == e.fault
    {
      if !action.FunctionCall? {
        Info(EarlyReturn(NOT_A_FUNCTION_CALL));
        assert SaveAll(old(store), []) == old(store);
        return None;
      }
      var name := action.methodName;
      ghost var e1 := BlockSpec(host, ctx, InitKind, name);
      ghost var e2 := BlockSpec(host, ctx, SetContractToFundKind, name);
      ghost var e3 := BlockSpec(host, ctx, TransferAdminKind, name);
      CallRunsThreeBlocks(host, ctx, name);
      fault := HandleBlock(InitKind, name, ctx);
      if fault.Some? {
        return;
      }
      fault := HandleBlock(SetContractToFundKind, name, ctx);
      ThenApplies(old(store), old(notices), e1, e2);
      if fault.Some? {
        return;
      }
      fault := HandleBlock(TransferAdminKind, name, ctx);
      ThenApplies(old(store), old(notices), Then(e1, e2), e3);
    }

    /** One `if (functionCall.methodName == ...)` block: build the entity, fill it from the first log line, save it. */
    method HandleBlock(kind: Kind, name: string, ctx: Context) returns (fault: Option<Fault>)
      modifies this
      ensures var e := BlockSpec(host, ctx, kind, name);
                notices == old(notices) + e.notices && store == SaveAll(old(store), e.saved) && fault == e.fault
    {
      assert SaveAll(store, []) == store;
      if name != MethodName(kind) {
        Info(NotProcessed(name));
        return None;
      }
      var receiptId := host.toBase58(ctx.receipt.id);
      var logs := Record(receiptId, ProvenanceOf(host, ctx), NO_ENVELOPE, EmptyPayload(kind));
      if |ctx.outcome.logs| == 0 {
        return None;
      }
      var parsed := host.parse(ctx.outcome.logs[0]);
      if parsed.None? {
        return Some(Unparseable);
      }
      if parsed.value.JObject? {
        var entry := parsed.value.entries;
        if |entry| == 0 {
          return Some(MissingEntry);
        }
        if !entry[0].1.JObject? {
          return Some(NotAnObject);
        }
        var eventJSON := entry[0].1.entries;
        var envelope := ReadEnvelope(eventJSON);
        if envelope.Abort? {
          return Some(envelope.fault);
        }
        if |eventJSON| == 0 {
          return Some(MissingEntry);
        }
        if !eventJSON[0].1.JObject? {
          return Some(NotAnObject);
        }
        var payload := ReadData(kind, eventJSON[0].1.entries);
        if payload.Abort? {
          return Some(payload.fault);
        }
        logs := logs.(envelope := envelope.value, payload := payload.value);
      }
      Save(logs);
      return None;
    }
  }
}
