/**
 * What `handleAction` and `handleReceipt` do, as functions of their inputs:
 * the notices logged, the records saved (in order) and the abort, if any.
 */
module Dispatch {
  import opened Wrappers
  import opened Json
  import opened Near
  import opened Entities
  import opened Projection

  const KNOWN_NAMES: set<string> := {"init", "setContractToFund", "transferAdmin"}

  /** The standard receipt properties every kind copies. */
  function ProvenanceOf(host: Host, ctx: Context): (p: Provenance)
    ensures p.blockTime * 1_000_000 <= ctx.header.timestampNanosec < (p.blockTime + 1) * 1_000_000
    ensures p.blockHeight == ctx.header.height && p.gasBurned == ctx.outcome.gasBurnt
    ensures p.tokensBurned == ctx.outcome.tokensBurnt
    ensures p.predecessorId == ctx.receipt.predecessorId && p.receiverId == ctx.receipt.receiverId
    ensures p.signerId == ctx.receipt.signerId && p.executorId == ctx.outcome.executorId
    ensures p.blockHash == host.toBase58(ctx.header.hash) && p.signerPublicKey == host.toBase58(ctx.publicKey.bytes)
    ensures p.outcomeId == host.toBase58(ctx.outcome.id) && p.outcomeBlockHash == host.toBase58(ctx.outcome.blockHash)
  {
    Provenance(
      blockTime := ctx.header.timestampNanosec / 1_000_000,
      blockHeight := ctx.header.height,
      blockHash := host.toBase58(ctx.header.hash),
      predecessorId := ctx.receipt.predecessorId,
      receiverId := ctx.receipt.receiverId,
      signerId := ctx.receipt.signerId,
      signerPublicKey := host.toBase58(ctx.publicKey.bytes),
      gasBurned := ctx.outcome.gasBurnt,
      tokensBurned := ctx.outcome.tokensBurnt,
      outcomeId := host.toBase58(ctx.outcome.id),
      executorId := ctx.outcome.executorId,
      outcomeBlockHash := host.toBase58(ctx.outcome.blockHash))
  }

  /** What a piece of the handler did: the notices it logged, the records it
      saved, and the abort that ended it, if one did. */
  datatype Effect = Effect(notices: seq<Notice>, saved: seq<Record>, fault: Option<Fault>)

  /** `first`, then `next` unless `first` aborted. */
  function Then(first: Effect, next: Effect): Effect {
    if first.fault.Some? then first
    else Effect(first.notices + next.notices, first.saved + next.saved, next.fault)
  }

  /** Applying `first` and then `next` to the store and the log is applying `Then(first, next)`. */
  lemma ThenApplies(store: map<Key, Record>, notices: seq<Notice>, first: Effect, next: Effect)
    requires first.fault.None?
    ensures SaveAll(SaveAll(store, first.saved), next.saved) == SaveAll(store, Then(first, next).saved)
    ensures (notices + first.notices) + next.notices == notices + Then(first, next).notices
    ensures Then(first, next).fault == next.fault
  {
    SaveAllConcat(store, first.saved, next.saved);
  }

  /** The entity of kind `kind` built from the receipt and its first log line. */
  function EventRecord(host: Host, ctx: Context, kind: Kind): Outcome<Record>
    requires |ctx.outcome.logs| > 0
  {
    var created := Record(host.toBase58(ctx.receipt.id), ProvenanceOf(host, ctx), NO_ENVELOPE, EmptyPayload(kind));
    match host.parse(ctx.outcome.logs[0])
    case None => Abort(Unparseable)
    case Some(parsed) =>
      var event :- ProjectEvent(kind, parsed);
      Done(created.(envelope := event.0, payload := event.1))
  }

  /** One of the three `if (functionCall.methodName == ...)` blocks. */
  function BlockSpec(host: Host, ctx: Context, kind: Kind, methodName: string): Effect {
    if methodName != MethodName(kind) then Effect([NotProcessed(methodName)], [], None)
    else if |ctx.outcome.logs| == 0 then Effect([], [], None)
    else
      match EventRecord(host, ctx, kind)
      case Abort(f) => Effect([], [], Some(f))
      case Done(r) => Effect([], [r], None)
  }

  /** `handleAction` on a call is its three blocks, one after the other. */
  lemma CallRunsThreeBlocks(host: Host, ctx: Context, name: string)
    ensures ActionSpec(host, ctx, FunctionCall(name)) ==
              Then(Then(BlockSpec(host, ctx, InitKind, name), BlockSpec(host, ctx, SetContractToFundKind, name)),
                   BlockSpec(host, ctx, TransferAdminKind, name))
  {
  }

  /** `handleAction`: a non-call returns early; a call runs the three blocks in turn. */
  function ActionSpec(host: Host, ctx: Context, action: ActionValue): Effect {
    if !action.FunctionCall? then Effect([EarlyReturn(NOT_A_FUNCTION_CALL)], [], None)
    else
      var name := action.methodName;
      Then(Then(BlockSpec(host, ctx, InitKind, name), BlockSpec(host, ctx, SetContractToFundKind, name)),
           BlockSpec(host, ctx, TransferAdminKind, name))
  }

  /** The state the mapping leaves behind and whether it aborted. */
  datatype Run = Run(store: map<Key, Record>, notices: seq<Notice>, fault: Option<Fault>)

  /** Applies the effects of a receipt's actions in order, stopping at the first abort. */
  function RunEffects(effects: seq<Effect>, store: map<Key, Record>, notices: seq<Notice>): Run
    decreases |effects|
  {
    if |effects| == 0 then Run(store, notices, None)
    else
      var before := RunEffects(effects[..|effects| - 1], store, notices);
      var e := effects[|effects| - 1];
      if before.fault.Some? then before
      else Run(SaveAll(before.store, e.saved), before.notices + e.notices, e.fault)
  }

  /** The effect `handleAction` has for each action of the receipt. */
  function ActionEffects(host: Host, ctx: Context, actions: seq<ActionValue>): (effects: seq<Effect>)
    ensures |effects| == |actions|
    ensures forall i :: 0 <= i < |actions| ==> effects[i] == ActionSpec(host, ctx, actions[i])
  {
    seq(|actions|, i requires 0 <= i < |actions| => ActionSpec(host, ctx, actions[i]))
  }

  /** `handleReceipt`: the loop over `actions`. */
  function RunActions(host: Host, ctx: Context, actions: seq<ActionValue>, store: map<Key, Record>, notices: seq<Notice>): Run {
    RunEffects(ActionEffects(host, ctx, actions), store, notices)
  }

  function Repeat(n: Notice, count: nat): (r: seq<Notice>)
    ensures |r| == count && forall i :: 0 <= i < count ==> r[i] == n
  {
    seq(count, _ => n)
  }

  /** Where each block stands in `handleAction`: how many blocks run before it. */
  function Position(k: Kind): nat {
    match k
    case InitKind => 0
    case SetContractToFundKind => 1
    case TransferAdminKind => 2
  }

  // ---------------------------------------------------------------------------
  // One action

  /** An action that is not a function call logs one early-return notice and does nothing else. */
  lemma NonCallReturnsEarly(host: Host, ctx: Context, action: ActionValue)
    requires !action.FunctionCall?
    ensures ActionSpec(host, ctx, action) == Effect([EarlyReturn(NOT_A_FUNCTION_CALL)], [], None)
  {
  }

  /** An action saves at most one record: of the kind its method names, under
      the receipt id, with the receipt's provenance. */
  lemma ActionSavesAtMostOneOfItsKind(host: Host, ctx: Context, action: ActionValue)
    ensures var e := ActionSpec(host, ctx, action);
              && |e.saved| <= 1
              && forall r :: r in e.saved ==>
                   && action.FunctionCall?
                   && MethodName(KindOf(r.payload)) == action.methodName
                   && r.id == host.toBase58(ctx.receipt.id)
                   && r.provenance == ProvenanceOf(host, ctx)
  {
    if action.FunctionCall? {
      var name := action.methodName;
      forall k: Kind ensures var b := BlockSpec(host, ctx, k, name);
                               |b.saved| <= 1 && (|b.saved| == 1 ==> name == MethodName(k)) &&
                               forall r :: r in b.saved ==> KindOf(r.payload) == k && r.id == host.toBase58(ctx.receipt.id)
                                                            && r.provenance == ProvenanceOf(host, ctx) {
        if name == MethodName(k) && |ctx.outcome.logs| > 0 {
          var er := EventRecord(host, ctx, k);
          if er.Done? {
            var parsed := host.parse(ctx.outcome.logs[0]).value;
            assert ProjectEvent(k, parsed).Done?;
            if parsed.JObject? {
              DataIsFirstEnvelopeEntry(k, parsed);
            }
          }
        }
      }
    }
  }

  /** A method name matching none of the three logs three "not processed" notices and saves nothing. */
  lemma UnknownMethodLogsThreeNotices(host: Host, ctx: Context, name: string)
    requires name !in KNOWN_NAMES
    ensures ActionSpec(host, ctx, FunctionCall(name)) == Effect(Repeat(NotProcessed(name), 3), [], None)
  {
  }

  /**
   * A method name matching `kind`: the other blocks log "not processed" (those
   * after an abort never run); a record is saved exactly when a first log
   * line exists and its projection does not abort.
   */
  lemma KnownMethodEffect(host: Host, ctx: Context, kind: Kind)
    ensures var e := ActionSpec(host, ctx, FunctionCall(MethodName(kind)));
              && (|ctx.outcome.logs| == 0 ==> e.saved == [] && e.fault == None)
              && (|ctx.outcome.logs| > 0 ==>
                    match EventRecord(host, ctx, kind)
                    case Done(r) => e.saved == [r] && e.fault == None
                    case Abort(f) => e.saved == [] && e.fault == Some(f))
              && e.notices == Repeat(NotProcessed(MethodName(kind)), if e.fault.Some? then Position(kind) else 2)
  {
    var name := MethodName(kind);
    CallRunsThreeBlocks(host, ctx, name);
    var skipped := Effect([NotProcessed(name)], [], None);
    var own := BlockSpec(host, ctx, kind, name);
    match kind
    case InitKind =>
      assert ActionSpec(host, ctx, FunctionCall(name)) == Then(Then(own, skipped), skipped);
    case SetContractToFundKind =>
      assert ActionSpec(host, ctx, FunctionCall(name)) == Then(Then(skipped, own), skipped);
    case TransferAdminKind =>
      assert ActionSpec(host, ctx, FunctionCall(name)) == Then(Then(skipped, skipped), own);
  }

  /** A first log line that parses to something other than an object still
      saves a record, carrying provenance and nothing else. */
  lemma NonObjectLogSavesProvenanceOnly(host: Host, ctx: Context, kind: Kind)
    requires |ctx.outcome.logs| > 0
    requires host.parse(ctx.outcome.logs[0]).Some? && !host.parse(ctx.outcome.logs[0]).value.JObject?
    ensures ActionSpec(host, ctx, FunctionCall(MethodName(kind))).saved ==
              [Record(host.toBase58(ctx.receipt.id), ProvenanceOf(host, ctx), NO_ENVELOPE, EmptyPayload(kind))]
  {
    KnownMethodEffect(host, ctx, kind);
  }

  // ---------------------------------------------------------------------------
  // A whole receipt

  lemma RunStep(effects: seq<Effect>, i: nat, store: map<Key, Record>, notices: seq<Notice>)
    requires i < |effects|
    ensures var before := RunEffects(effects[..i], store, notices);
              RunEffects(effects[..i + 1], store, notices) ==
                if before.fault.Some? then before
                else Run(SaveAll(before.store, effects[i].saved), before.notices + effects[i].notices, effects[i].fault)
  {
    assert effects[..i + 1][..i] == effects[..i];
  }

  /** After an abort the remaining actions are not processed. */
  lemma {:induction false} RunStopsAtFault(effects: seq<Effect>, n: nat, store: map<Key, Record>, notices: seq<Notice>)
    requires n <= |effects| && RunEffects(effects[..n], store, notices).fault.Some?
    ensures RunEffects(effects, store, notices) == RunEffects(effects[..n], store, notices)
    decreases |effects| - n
  {
    if n < |effects| {
      RunStep(effects, n, store, notices);
      RunStopsAtFault(effects, n + 1, store, notices);
    } else {
      assert effects[..n] == effects;
    }
  }

  lemma ActionEffectsPrefix(host: Host, ctx: Context, actions: seq<ActionValue>, n: nat)
    requires n <= |actions|
    ensures ActionEffects(host, ctx, actions[..n]) == ActionEffects(host, ctx, actions)[..n]
  {
  }

  /** Under a key of another id, `after` holds what `before` held (or still nothing). */
  predicate KeptUnder(before: map<Key, Record>, after: map<Key, Record>, key: Key) {
    && (key in before <==> key in after)
    && (key in before ==> after[key] == before[key])
  }

  /** An effect that saves at most one record, and that one under id `id`. */
  predicate SavesOnlyUnder(e: Effect, id: string) {
    |e.saved| <= 1 && forall r :: r in e.saved ==> r.id == id
  }

  /** Effects that each save only under `id` leave every other id's entries alone. */
  lemma {:induction false} EffectsKeepOtherIds(effects: seq<Effect>, store: map<Key, Record>, notices: seq<Notice>,
                                               id: string, key: Key)
    requires forall i :: 0 <= i < |effects| ==> SavesOnlyUnder(effects[i], id)
    requires key.1 != id
    ensures KeptUnder(store, RunEffects(effects, store, notices).store, key)
    decreases |effects|
  {
    if |effects| > 0 {
      var n := |effects| - 1;
      var before := RunEffects(effects[..n], store, notices);
      EffectsKeepOtherIds(effects[..n], store, notices, id, key);
      assert effects[..n] == effects[..|effects| - 1];
      if before.fault.None? {
        var saved := effects[n].saved;
        assert SavesOnlyUnder(effects[n], id);
        if |saved| == 1 {
          assert saved[0] in saved;
          assert saved[..0] == [];
          assert KeyOf(saved[0]) != key;
          assert SaveAll(before.store, saved) == before.store[KeyOf(saved[0]) := saved[0]];
        } else {
          assert saved == [];
        }
        assert RunEffects(effects, store, notices).store == SaveAll(before.store, saved);
      }
    }
  }

  /** A receipt only ever writes under its own id: the entry under any key of
      another id is left as it was (present or absent). */
  lemma ReceiptWritesOnlyItsId(host: Host, ctx: Context, actions: seq<ActionValue>,
                               store: map<Key, Record>, notices: seq<Notice>, key: Key)
    requires key.1 != host.toBase58(ctx.receipt.id)
    ensures KeptUnder(store, RunActions(host, ctx, actions, store, notices).store, key)
  {
    var id := host.toBase58(ctx.receipt.id);
    var effects := ActionEffects(host, ctx, actions);
    forall i | 0 <= i < |effects| ensures SavesOnlyUnder(effects[i], id) {
      ActionSavesAtMostOneOfItsKind(host, ctx, actions[i]);
    }
    EffectsKeepOtherIds(effects, store, notices, id, key);
  }

  /** Effects that save nothing and never abort leave the store as it was. */
  lemma {:induction false} QuietEffectsKeepStore(effects: seq<Effect>, store: map<Key, Record>, notices: seq<Notice>)
    requires forall i :: 0 <= i < |effects| ==> effects[i].saved == [] && effects[i].fault == None
    ensures RunEffects(effects, store, notices).store == store
    ensures RunEffects(effects, store, notices).fault == None
    decreases |effects|
  {
    if |effects| > 0 {
      QuietEffectsKeepStore(effects[..|effects| - 1], store, notices);
    }
  }

  /** A receipt with no function call to one of the three methods changes no record and never aborts. */
  lemma ReceiptWithoutKnownCallsSavesNothing(host: Host, ctx: Context, actions: seq<ActionValue>,
                                             store: map<Key, Record>, notices: seq<Notice>)
    requires forall i :: 0 <= i < |actions| ==> !(actions[i].FunctionCall? && actions[i].methodName in KNOWN_NAMES)
    ensures RunActions(host, ctx, actions, store, notices).store == store
    ensures RunActions(host, ctx, actions, store, notices).fault == None
  {
    var effects := ActionEffects(host, ctx, actions);
    forall i | 0 <= i < |effects| ensures effects[i].saved == [] && effects[i].fault == None {
      if actions[i].FunctionCall? {
        UnknownMethodLogsThreeNotices(host, ctx, actions[i].methodName);
      }
    }
    QuietEffectsKeepStore(effects, store, notices);
  }

  /** Saving records under other keys leaves the entry under `key` as it was. */
  lemma {:induction false} SaveAllKeepsOtherKeys(store: map<Key, Record>, saved: seq<Record>, key: Key)
    requires forall s :: s in saved ==> KeyOf(s) != key
    ensures KeptUnder(store, SaveAll(store, saved), key)
    decreases |saved|
  {
    if |saved| > 0 {
      var n := |saved| - 1;
      assert saved[n] in saved;
      assert forall s :: s in saved[..n] ==> s in saved;
      SaveAllKeepsOtherKeys(store, saved[..n], key);
    }
  }

  /** The record saved by effect `j` survives every later effect that saves under other keys. */
  lemma {:induction false} SaveSurvivesLaterEffects(effects: seq<Effect>, j: nat, store: map<Key, Record>,
                                                    notices: seq<Notice>, r: Record)
    requires j < |effects| && effects[j].saved == [r]
    requires RunEffects(effects[..j], store, notices).fault == None
    requires forall i, s :: j < i < |effects| && s in effects[i].saved ==> KeyOf(s) != KeyOf(r)
    ensures var after := RunEffects(effects, store, notices).store;
              KeyOf(r) in after && after[KeyOf(r)] == r
    decreases |effects|
  {
    var n := |effects| - 1;
    if n == j {
      RunStep(effects, j, store, notices);
      assert effects[..j + 1] == effects;
      assert [r][..0] == [];
    } else {
      var prefix := effects[..n];
      assert prefix[..j] == effects[..j];
      SaveSurvivesLaterEffects(prefix, j, store, notices, r);
      RunStep(effects, n, store, notices);
      assert effects[..n + 1] == effects;
      var before := RunEffects(prefix, store, notices);
      if before.fault.None? {
        SaveAllKeepsOtherKeys(before.store, effects[n].saved, KeyOf(r));
      }
    }
  }

  /** The record an action saves is the one the store holds at the end of the
      receipt, provided no later action calls the same method: actions calling
      other methods, or not calling at all, never overwrite it. */
  lemma LastSaveWins(host: Host, ctx: Context, actions: seq<ActionValue>, store: map<Key, Record>, notices: seq<Notice>,
                     j: nat, r: Record)
    requires j < |actions|
    requires RunActions(host, ctx, actions[..j], store, notices).fault == None
    requires ActionSpec(host, ctx, actions[j]).saved == [r]
    requires forall i :: j < i < |actions| ==> actions[i] != FunctionCall(MethodName(KindOf(r.payload)))
    ensures var after := RunActions(host, ctx, actions, store, notices);
              KeyOf(r) in after.store && after.store[KeyOf(r)] == r
  {
    var effects := ActionEffects(host, ctx, actions);
    ActionEffectsPrefix(host, ctx, actions, j);
    forall i, s | j < i < |effects| && s in effects[i].saved ensures KeyOf(s) != KeyOf(r) {
      ActionSavesAtMostOneOfItsKind(host, ctx, actions[i]);
    }
    SaveSurvivesLaterEffects(effects, j, store, notices, r);
  }

  /** Two actions of one receipt calling the same method write the same record
      under the same key: the store ends as after one of them, and only the
      notices are logged twice. */
  lemma RepeatedCallRewritesSameRecord(host: Host, ctx: Context, name: string, store: map<Key, Record>, notices: seq<Notice>)
    requires ActionSpec(host, ctx, FunctionCall(name)).fault == None
    ensures var once := RunActions(host, ctx, [FunctionCall(name)], store, notices);
            var twice := RunActions(host, ctx, [FunctionCall(name), FunctionCall(name)], store, notices);
              && twice.store == once.store
              && twice.notices == once.notices + ActionSpec(host, ctx, FunctionCall(name)).notices
              && twice.fault == None
  {
    var a := FunctionCall(name);
    var e := ActionSpec(host, ctx, a);
    ActionSavesAtMostOneOfItsKind(host, ctx, a);
    assert ActionEffects(host, ctx, [a]) == [e];
    assert ActionEffects(host, ctx, [a, a]) == [e, e];
    EffectTwice(e, store, notices);
  }

  lemma EffectTwice(e: Effect, store: map<Key, Record>, notices: seq<Notice>)
    requires |e.saved| <= 1 && e.fault == None
    ensures var once := RunEffects([e], store, notices);
            var twice := RunEffects([e, e], store, notices);
              && twice.store == once.store
              && twice.notices == once.notices + e.notices
              && twice.fault == None
  {
    assert [e, e][..1] == [e];
    assert [e][..0] == [];
    SaveTwiceIsSaveOnce(store, e.saved);
  }

  lemma SaveTwiceIsSaveOnce(store: map<Key, Record>, saved: seq<Record>)
    requires |saved| <= 1
    ensures SaveAll(SaveAll(store, saved), saved) == SaveAll(store, saved)
  {
    if |saved| == 1 {
      var r := saved[0];
      assert saved[..0] == [];
      assert store[KeyOf(r) := r][KeyOf(r) := r] == store[KeyOf(r) := r];
    }
  }
}
