/**
 * What one log line projects to: the envelope fields `standard`, `event`
 * and `version`, and the event-specific data fields of each entity kind.
 *
 * The mapping walks object entries with `for` loops whose bodies are a
 * `switch (true)` on the entry's key; `Project` is that loop as a left fold
 * and the `...Step` functions are the switch bodies. Every accessor the
 * bodies use asserts the kind of its value, so a step can abort, and an
 * abort ends the whole handler.
 */
module Projection {
  import opened Wrappers
  import opened Json
  import opened Entities

  /** The loop `for (i = 0; i < entries.length; i++) { switch ... }`. */
  function Project<T>(entries: seq<Entry>, start: T, step: (T, string, JValue) -> Outcome<T>): Outcome<T>
    decreases |entries|
  {
    if |entries| == 0 then Done(start)
    else
      var acc :- Project(entries[..|entries| - 1], start, step);
      step(acc, entries[|entries| - 1].0, entries[|entries| - 1].1)
  }

  /** One more turn of the loop. */
  lemma ProjectStep<T>(entries: seq<Entry>, i: nat, start: T, step: (T, string, JValue) -> Outcome<T>)
    requires i < |entries|
    ensures Project(entries[..i], start, step).Abort? ==>
              Project(entries[..i + 1], start, step) == Project(entries[..i], start, step)
    ensures Project(entries[..i], start, step).Done? ==>
              Project(entries[..i + 1], start, step) == step(Project(entries[..i], start, step).value, entries[i].0, entries[i].1)
  {
    assert entries[..i + 1][..i] == entries[..i];
  }

  /** Once an entry has aborted the loop, the later entries are never looked at. */
  lemma {:induction false} AbortSticks<T>(entries: seq<Entry>, n: nat, start: T, step: (T, string, JValue) -> Outcome<T>)
    requires n <= |entries| && Project(entries[..n], start, step).Abort?
    ensures Project(entries, start, step) == Project(entries[..n], start, step)
    decreases |entries| - n
  {
    if n < |entries| {
      ProjectStep(entries, n, start, step);
      AbortSticks(entries, n + 1, start, step);
    } else {
      assert entries[..n] == entries;
    }
  }

  /** The entries whose key is one of `keys`, in their original order. */
  function Only(entries: seq<Entry>, keys: set<string>): (r: seq<Entry>)
    ensures forall i :: 0 <= i < |r| ==> r[i].0 in keys && r[i] in entries
    ensures forall i :: 0 <= i < |entries| && entries[i].0 in keys ==> entries[i] in r
    decreases |entries|
  {
    if |entries| == 0 then []
    else
      var last := entries[|entries| - 1];
      Only(entries[..|entries| - 1], keys) + (if last.0 in keys then [last] else [])
  }

  /** A step that leaves everything unchanged for keys outside `keys` makes the
      loop's result depend on the entries with those keys only. */
  lemma {:induction false} IgnoresOtherKeys<T>(entries: seq<Entry>, start: T, step: (T, string, JValue) -> Outcome<T>, keys: set<string>)
    requires forall acc, k, v :: k !in keys ==> step(acc, k, v) == Done(acc)
    ensures Project(entries, start, step) == Project(Only(entries, keys), start, step)
    decreases |entries|
  {
    if |entries| > 0 {
      var n := |entries| - 1;
      var last := entries[n];
      IgnoresOtherKeys(entries[..n], start, step, keys);
      var kept := Only(entries[..n], keys);
      if last.0 in keys {
        var all := kept + [last];
        assert Only(entries, keys) == all;
        assert all[..|all| - 1] == kept;
      } else {
        assert Only(entries, keys) == kept;
      }
    }
  }

  /** `field` is the value of the LAST entry keyed `key`, and unset exactly when no entry has that key. */
  ghost predicate IsLastValue(entries: seq<Entry>, key: string, field: Option<JValue>) {
    && (field.None? <==> forall i :: 0 <= i < |entries| ==> entries[i].0 != key)
    && (field.Some? ==>
          exists i :: 0 <= i < |entries| && entries[i] == (key, field.value) &&
                      forall j :: i < j < |entries| ==> entries[j].0 != key)
  }

  /** An entry with another key does not change which value is the last one for `key`. */
  lemma LastValueAfterOtherKey(prefix: seq<Entry>, e: Entry, key: string, field: Option<JValue>)
    requires e.0 != key && IsLastValue(prefix, key, field)
    ensures IsLastValue(prefix + [e], key, field)
  {
    var entries := prefix + [e];
    if field.Some? {
      var i :| 0 <= i < |prefix| && prefix[i] == (key, field.value) &&
               forall j :: i < j < |prefix| ==> prefix[j].0 != key;
      assert entries[i] == prefix[i];
      assert forall j :: i < j < |entries| ==> entries[j].0 != key by {
        forall j | i < j < |entries| ensures entries[j].0 != key {
          if j < |prefix| {
            assert entries[j] == prefix[j];
          }
        }
      }
    } else {
      assert forall i :: 0 <= i < |entries| ==> entries[i].0 != key by {
        forall i | 0 <= i < |entries| ensures entries[i].0 != key {
          if i < |prefix| {
            assert entries[i] == prefix[i];
          }
        }
      }
    }
  }

  /** An entry keyed `key` is the last one for `key`. */
  lemma LastValueAfterSameKey(prefix: seq<Entry>, key: string, v: JValue)
    ensures IsLastValue(prefix + [(key, v)], key, Some(v))
  {
    var entries := prefix + [(key, v)];
    assert entries[|prefix|] == (key, v);
  }

  /** A field that starts unset and that only entries keyed `key` set, to their
      own value, ends up holding the last such entry's value. */
  lemma {:induction false} LastOccurrenceWins<T>(entries: seq<Entry>, start: T, step: (T, string, JValue) -> Outcome<T>,
                                                key: string, field: T -> Option<JValue>)
    requires field(start) == None
    requires forall acc, k, v :: step(acc, k, v).Done? ==>
               field(step(acc, k, v).value) == if k == key then Some(v) else field(acc)
    requires Project(entries, start, step).Done?
    ensures IsLastValue(entries, key, field(Project(entries, start, step).value))
    decreases |entries|
  {
    if |entries| > 0 {
      var n := |entries| - 1;
      var prefix := entries[..n];
      var last := entries[n];
      assert entries == prefix + [last];
      var before := Project(prefix, start, step);
      assert before.Done?;
      LastOccurrenceWins(prefix, start, step, key, field);
      var after := step(before.value, last.0, last.1);
      assert Project(entries, start, step) == after;
      if last.0 == key {
        assert field(after.value) == Some(last.1);
        LastValueAfterSameKey(prefix, key, last.1);
      } else {
        assert field(after.value) == field(before.value);
        LastValueAfterOtherKey(prefix, last, key, field(before.value));
      }
    }
  }

  /** A step whose aborting depends on the entry alone, as `rejects` says,
      aborts the loop exactly when some entry is rejected. */
  lemma {:induction false} AbortsIffSomeEntryRejected<T>(entries: seq<Entry>, start: T, step: (T, string, JValue) -> Outcome<T>,
                                                        rejects: (string, JValue) -> bool)
    requires forall acc, k, v :: step(acc, k, v).Abort? <==> rejects(k, v)
    ensures Project(entries, start, step).Abort? <==>
              exists i :: 0 <= i < |entries| && rejects(entries[i].0, entries[i].1)
    decreases |entries|
  {
    if |entries| > 0 {
      var n := |entries| - 1;
      var prefix := entries[..n];
      AbortsIffSomeEntryRejected(prefix, start, step, rejects);
      if exists i :: 0 <= i < n && rejects(prefix[i].0, prefix[i].1) {
        var i :| 0 <= i < n && rejects(prefix[i].0, prefix[i].1);
        assert entries[i] == prefix[i];
      }
      if exists i :: 0 <= i < |entries| && rejects(entries[i].0, entries[i].1) {
        var i :| 0 <= i < |entries| && rejects(entries[i].0, entries[i].1);
        if i < n {
          assert prefix[i] == entries[i];
        }
      }
    }
  }

  /** As an optional JSON value: what an entry must have held to set the field. */
  function StringValue(o: Option<string>): Option<JValue> {
    match o
    case None => None
    case Some(s) => Some(JString(s))
  }

  function NumberValue(o: Option<int>): Option<JValue> {
    match o
    case None => None
    case Some(n) => Some(JNumber(n))
  }

  // ---------------------------------------------------------------------------
  // The envelope: `standard`, `event`, `version`

  const ENVELOPE_KEYS: set<string> := {"standard", "event", "version"}

  /** The `switch (true)` over the envelope's keys; only exact key matches assign. */
  function EnvelopeStep(env: Envelope, key: string, value: JValue): Outcome<Envelope> {
    if key == "standard" then var s :- AsString(value); Done(env.(standard := Some(s)))
    else if key == "event" then var s :- AsString(value); Done(env.(event := Some(s)))
    else if key == "version" then var s :- AsString(value); Done(env.(version := Some(s)))
    else Done(env)
  }

  function ReadEnvelopeSpec(entries: seq<Entry>): Outcome<Envelope> {
    Project(entries, NO_ENVELOPE, EnvelopeStep)
  }

  /** Keys other than the three envelope keys change nothing. */
  lemma EnvelopeReadsOnlyItsKeys(entries: seq<Entry>)
    ensures ReadEnvelopeSpec(entries) == ReadEnvelopeSpec(Only(entries, ENVELOPE_KEYS))
  {
    IgnoresOtherKeys(entries, NO_ENVELOPE, EnvelopeStep, ENVELOPE_KEYS);
  }

  /** Each envelope field holds the last string its key carried, or is unset if the key never occurs. */
  lemma EnvelopeFieldsAreLastOccurrences(entries: seq<Entry>, env: Envelope)
    requires ReadEnvelopeSpec(entries) == Done(env)
    ensures IsLastValue(entries, "standard", StringValue(env.standard))
    ensures IsLastValue(entries, "event", StringValue(env.event))
    ensures IsLastValue(entries, "version", StringValue(env.version))
  {
    LastOccurrenceWins(entries, NO_ENVELOPE, EnvelopeStep, "standard", (e: Envelope) => StringValue(e.standard));
    LastOccurrenceWins(entries, NO_ENVELOPE, EnvelopeStep, "event", (e: Envelope) => StringValue(e.event));
    LastOccurrenceWins(entries, NO_ENVELOPE, EnvelopeStep, "version", (e: Envelope) => StringValue(e.version));
  }

  predicate EnvelopeRejects(key: string, value: JValue) {
    key in ENVELOPE_KEYS && !value.JString?
  }

  /** Reading the envelope aborts exactly when one of its three keys holds a non-string. */
  lemma EnvelopeAbortsIffNonString(entries: seq<Entry>)
    ensures ReadEnvelopeSpec(entries).Abort? <==>
              exists i :: 0 <= i < |entries| && EnvelopeRejects(entries[i].0, entries[i].1)
  {
    AbortsIffSomeEntryRejected(entries, NO_ENVELOPE, EnvelopeStep, EnvelopeRejects);
  }

  // ---------------------------------------------------------------------------
  // The data fields of each kind

  const INIT_KEYS: set<string> := {"adminId", "adminSet", "accountId"}

  function InitStep(f: InitFields, key: string, value: JValue): Outcome<InitFields> {
    if key == "adminId" then var s :- AsString(value); Done(f.(adminId := Some(s)))
    else if key == "adminSet" then var n :- AsBigInt(value); Done(f.(adminSet := Some(n)))
    else if key == "accountId" then var s :- AsString(value); Done(f.(accountId := Some(s)))
    else Done(f)
  }

  const FUND_KEYS: set<string> := {"contractPublicKey", "allowance", "contract", "methods", "time", "admin"}

  /** `methodsArray.toString()` of an empty array: joining no elements gives the empty string. */
  const EMPTY_ARRAY_TEXT: string := ""

  /** Pushes `elems[i].toString()` onto `methods` for each `i` in order. */
  function PushAll(methods: seq<string>, elems: seq<JValue>): (r: Outcome<seq<string>>)
    ensures r.Done? <==> forall i :: 0 <= i < |elems| ==> elems[i].JString?
    ensures r.Abort? ==> r.fault == NotAString
    ensures r.Done? ==>
              && |r.value| == |methods| + |elems|
              && r.value[..|methods|] == methods
              && forall i :: 0 <= i < |elems| ==> elems[i] == JString(r.value[|methods| + i])
    decreases |elems|
  {
    if |elems| == 0 then Done(methods)
    else
      var pushed :- PushAll(methods, elems[..|elems| - 1]);
      var s :- AsString(elems[|elems| - 1]);
      Done(pushed + [s])
  }

  /** The body of `case key == 'methods'`. */
  function MethodsCase(f: FundFields, value: JValue): Outcome<FundFields> {
    var methodsArray :- AsArray(value);
    if |methodsArray| > 0 then
      var pushed :- PushAll(f.methods, methodsArray);
      Done(f.(methods := pushed))
    else
      Done(f.(methods := f.methods + [EMPTY_ARRAY_TEXT]))
  }

  /** The `setContractToFund` switch: `contract` has no `break` and runs on into the `methods` case. */
  function FundStep(f: FundFields, key: string, value: JValue): Outcome<FundFields> {
    if key == "contractPublicKey" then var s :- AsString(value); Done(f.(contractPublicKey := Some(s)))
    else if key == "allowance" then var s :- AsString(value); Done(f.(allowance := Some(s)))
    else if key == "contract" then var s :- AsString(value); MethodsCase(f.(contract := Some(s)), value)
    else if key == "methods" then MethodsCase(f, value)
    else if key == "time" then var n :- AsBigInt(value); Done(f.(time := Some(n)))
    else if key == "admin" then var s :- AsString(value); Done(f.(admin := Some(s)))
    else Done(f)
  }

  const TRANSFER_KEYS: set<string> := {"transferredFrom", "transferred", "transferredTo"}

  function TransferStep(f: TransferFields, key: string, value: JValue): Outcome<TransferFields> {
    if key == "transferredFrom" then var s :- AsString(value); Done(f.(transferredFrom := Some(s)))
    else if key == "transferred" then var n :- AsBigInt(value); Done(f.(transferred := Some(n)))
    else if key == "transferredTo" then var s :- AsString(value); Done(f.(transferredTo := Some(s)))
    else Done(f)
  }

  function DataKeys(kind: Kind): set<string> {
    match kind
    case InitKind => INIT_KEYS
    case SetContractToFundKind => FUND_KEYS
    case TransferAdminKind => TRANSFER_KEYS
  }

  /** The data loop of the entity of kind `kind`, started on a fresh entity. */
  function ProjectData(kind: Kind, data: seq<Entry>): (r: Outcome<Payload>)
    ensures r.Done? ==> KindOf(r.value) == kind
  {
    match kind
    case InitKind => var f :- Project(data, EMPTY_INIT, InitStep); Done(InitData(f))
    case SetContractToFundKind => var f :- Project(data, EMPTY_FUND, FundStep); Done(FundData(f))
    case TransferAdminKind => var f :- Project(data, EMPTY_TRANSFER, TransferStep); Done(TransferData(f))
  }

  /** Data keys outside the kind's switch change nothing. */
  lemma DataReadsOnlyItsKeys(kind: Kind, data: seq<Entry>)
    ensures ProjectData(kind, data) == ProjectData(kind, Only(data, DataKeys(kind)))
  {
    match kind
    case InitKind => IgnoresOtherKeys(data, EMPTY_INIT, InitStep, INIT_KEYS);
    case SetContractToFundKind => IgnoresOtherKeys(data, EMPTY_FUND, FundStep, FUND_KEYS);
    case TransferAdminKind => IgnoresOtherKeys(data, EMPTY_TRANSFER, TransferStep, TRANSFER_KEYS);
  }

  /** `adminId`/`accountId` come from strings, `adminSet` from a number; each holds its key's last value. */
  lemma InitFieldsAreLastOccurrences(data: seq<Entry>, f: InitFields)
    requires Project(data, EMPTY_INIT, InitStep) == Done(f)
    ensures IsLastValue(data, "adminId", StringValue(f.adminId))
    ensures IsLastValue(data, "adminSet", NumberValue(f.adminSet))
    ensures IsLastValue(data, "accountId", StringValue(f.accountId))
  {
    LastOccurrenceWins(data, EMPTY_INIT, InitStep, "adminId", (g: InitFields) => StringValue(g.adminId));
    LastOccurrenceWins(data, EMPTY_INIT, InitStep, "adminSet", (g: InitFields) => NumberValue(g.adminSet));
    LastOccurrenceWins(data, EMPTY_INIT, InitStep, "accountId", (g: InitFields) => StringValue(g.accountId));
  }

  /** The scalar `setContractToFund` fields; `contract` can only be unset, since its key always aborts. */
  lemma FundFieldsAreLastOccurrences(data: seq<Entry>, f: FundFields)
    requires Project(data, EMPTY_FUND, FundStep) == Done(f)
    ensures IsLastValue(data, "contractPublicKey", StringValue(f.contractPublicKey))
    ensures IsLastValue(data, "allowance", StringValue(f.allowance))
    ensures IsLastValue(data, "contract", StringValue(f.contract))
    ensures IsLastValue(data, "time", NumberValue(f.time))
    ensures IsLastValue(data, "admin", StringValue(f.admin))
  {
    FundContractPublicKeyIsLast(data);
    FundAllowanceIsLast(data);
    FundContractIsLast(data);
    FundTimeIsLast(data);
    FundAdminIsLast(data);
  }

  lemma FundContractPublicKeyIsLast(data: seq<Entry>)
    requires Project(data, EMPTY_FUND, FundStep).Done?
    ensures IsLastValue(data, "contractPublicKey", StringValue(Project(data, EMPTY_FUND, FundStep).value.contractPublicKey))
  {
    LastOccurrenceWins(data, EMPTY_FUND, FundStep, "contractPublicKey", (g: FundFields) => StringValue(g.contractPublicKey));
  }

  lemma FundAllowanceIsLast(data: seq<Entry>)
    requires Project(data, EMPTY_FUND, FundStep).Done?
    ensures IsLastValue(data, "allowance", StringValue(Project(data, EMPTY_FUND, FundStep).value.allowance))
  {
    LastOccurrenceWins(data, EMPTY_FUND, FundStep, "allowance", (g: FundFields) => StringValue(g.allowance));
  }

  lemma FundContractIsLast(data: seq<Entry>)
    requires Project(data, EMPTY_FUND, FundStep).Done?
    ensures IsLastValue(data, "contract", StringValue(Project(data, EMPTY_FUND, FundStep).value.contract))
  {
    LastOccurrenceWins(data, EMPTY_FUND, FundStep, "contract", (g: FundFields) => StringValue(g.contract));
  }

  lemma FundTimeIsLast(data: seq<Entry>)
    requires Project(data, EMPTY_FUND, FundStep).Done?
    ensures IsLastValue(data, "time", NumberValue(Project(data, EMPTY_FUND, FundStep).value.time))
  {
    LastOccurrenceWins(data, EMPTY_FUND, FundStep, "time", (g: FundFields) => NumberValue(g.time));
  }

  lemma FundAdminIsLast(data: seq<Entry>)
    requires Project(data, EMPTY_FUND, FundStep).Done?
    ensures IsLastValue(data, "admin", StringValue(Project(data, EMPTY_FUND, FundStep).value.admin))
  {
    LastOccurrenceWins(data, EMPTY_FUND, FundStep, "admin", (g: FundFields) => StringValue(g.admin));
  }

  lemma TransferFieldsAreLastOccurrences(data: seq<Entry>, f: TransferFields)
    requires Project(data, EMPTY_TRANSFER, TransferStep) == Done(f)
    ensures IsLastValue(data, "transferredFrom", StringValue(f.transferredFrom))
    ensures IsLastValue(data, "transferred", NumberValue(f.transferred))
    ensures IsLastValue(data, "transferredTo", StringValue(f.transferredTo))
  {
    LastOccurrenceWins(data, EMPTY_TRANSFER, TransferStep, "transferredFrom", (g: TransferFields) => StringValue(g.transferredFrom));
    LastOccurrenceWins(data, EMPTY_TRANSFER, TransferStep, "transferred", (g: TransferFields) => NumberValue(g.transferred));
    LastOccurrenceWins(data, EMPTY_TRANSFER, TransferStep, "transferredTo", (g: TransferFields) => StringValue(g.transferredTo));
  }

  /** Which data entries make the handler abort, kind by kind: a value of the
      wrong JSON kind for its key, and for `setContractToFund` any `contract`
      entry at all. */
  predicate DataRejects(kind: Kind, key: string, value: JValue) {
    match kind
    case InitKind =>
      || ((key == "adminId" || key == "accountId") && !value.JString?)
      || (key == "adminSet" && !value.JNumber?)
    case SetContractToFundKind =>
      || ((key == "contractPublicKey" || key == "allowance" || key == "admin") && !value.JString?)
      || (key == "time" && !value.JNumber?)
      || key == "contract"
      || (key == "methods" && !(value.JArray? && forall e :: e in value.elems ==> e.JString?))
    case TransferAdminKind =>
      || ((key == "transferredFrom" || key == "transferredTo") && !value.JString?)
      || (key == "transferred" && !value.JNumber?)
  }

  /** A `contract` entry can never be read: `toString` needs a string, the
      `methods` body it falls into needs an array. */
  lemma ContractAlwaysAborts(f: FundFields, value: JValue)
    ensures FundStep(f, "contract", value) == Abort(if value.JString? then NotAnArray else NotAString)
  {
  }

  /** The data loop aborts exactly when some entry is rejected; no field is skipped. */
  lemma DataAbortsIffSomeEntryRejected(kind: Kind, data: seq<Entry>)
    ensures ProjectData(kind, data).Abort? <==>
              exists i :: 0 <= i < |data| && DataRejects(kind, data[i].0, data[i].1)
  {
    var rejects := (k, v) => DataRejects(kind, k, v);
    match kind
    case InitKind => AbortsIffSomeEntryRejected(data, EMPTY_INIT, InitStep, rejects);
    case SetContractToFundKind =>
      forall acc, k, v ensures FundStep(acc, k, v).Abort? <==> rejects(k, v) {
        if k == "methods" || k == "contract" {
          if v.JArray? && |v.elems| > 0 {
            assert (forall i :: 0 <= i < |v.elems| ==> v.elems[i].JString?) <==>
                   (forall e :: e in v.elems ==> e.JString?);
          }
        }
      }
      AbortsIffSomeEntryRejected(data, EMPTY_FUND, FundStep, rejects);
    case TransferAdminKind => AbortsIffSomeEntryRejected(data, EMPTY_TRANSFER, TransferStep, rejects);
  }

  /** The `methods` body: a non-empty array appends its strings in order, an
      empty one appends exactly one element, its own text; nothing else changes. */
  lemma MethodsCaseAppends(f: FundFields, elems: seq<JValue>)
    requires forall i :: 0 <= i < |elems| ==> elems[i].JString?
    ensures MethodsCase(f, JArray(elems)).Done?
    ensures var g := MethodsCase(f, JArray(elems)).value;
              && g == f.(methods := g.methods)
              && (|elems| == 0 ==> g.methods == f.methods + [EMPTY_ARRAY_TEXT])
              && (|elems| > 0 ==>
                    && |g.methods| == |f.methods| + |elems|
                    && g.methods[..|f.methods|] == f.methods
                    && forall i :: 0 <= i < |elems| ==> elems[i] == JString(g.methods[|f.methods| + i]))
  {
  }

  /** The text one array element contributes to `methods`. */
  function ElementText(v: JValue): string {
    if v.JString? then v.s else ""
  }

  /** What one `methods` value contributes: the strings of a non-empty array
      in order, or the one empty-array text for an empty array. */
  function MethodsOf(value: JValue): seq<string> {
    if !value.JArray? then []
    else if |value.elems| == 0 then [EMPTY_ARRAY_TEXT]
    else seq(|value.elems|, i requires 0 <= i < |value.elems| => ElementText(value.elems[i]))
  }

  /** Everything the `methods` entries of a data object contribute, in entry order. */
  function AllMethods(data: seq<Entry>): seq<string>
    decreases |data|
  {
    if |data| == 0 then []
    else
      var last := data[|data| - 1];
      AllMethods(data[..|data| - 1]) + (if last.0 == "methods" then MethodsOf(last.1) else [])
  }

  /** One `methods` entry that the loop accepts appends exactly `MethodsOf` its value. */
  lemma MethodsCaseAppendsMethodsOf(f: FundFields, value: JValue)
    requires MethodsCase(f, value).Done?
    ensures MethodsCase(f, value).value == f.(methods := f.methods + MethodsOf(value))
  {
    assert value.JArray?;
    var elems := value.elems;
    if |elems| > 0 {
      var m := f.methods;
      var pushed := PushAll(m, elems);
      assert pushed.Done?;
      var g := pushed.value;
      var added := MethodsOf(value);
      assert |added| == |elems|;
      forall k | 0 <= k < |g| ensures g[k] == (m + added)[k] {
        if k < |m| {
          assert g[..|m|][k] == g[k];
        } else {
          assert elems[k - |m|] == JString(g[|m| + (k - |m|)]);
        }
      }
      assert g == m + added;
    }
  }

  /** Unlike the other fields, `methods` accumulates: after the whole
      `setContractToFund` data loop it holds every `methods` entry's
      contribution, in order. */
  lemma {:induction false} FundMethodsAccumulate(data: seq<Entry>)
    requires Project(data, EMPTY_FUND, FundStep).Done?
    ensures Project(data, EMPTY_FUND, FundStep).value.methods == AllMethods(data)
    decreases |data|
  {
    if |data| > 0 {
      var n := |data| - 1;
      var acc := Project(data[..n], EMPTY_FUND, FundStep);
      FundMethodsAccumulate(data[..n]);
      var key := data[n].0;
      var value := data[n].1;
      if key == "methods" {
        MethodsCaseAppendsMethodsOf(acc.value, value);
      } else if key == "contract" {
        ContractAlwaysAborts(acc.value, value);
        assert false;
      }
    }
  }

  // ---------------------------------------------------------------------------
  // A whole log line

  /**
   * The block `if (parsed.kind == OBJECT) { ... }`: the envelope is the value
   * of the first top-level entry, the data object the value of the first
   * envelope entry, whatever their keys. A log that is not an object leaves
   * the fresh entity as it is.
   */
  function ProjectEvent(kind: Kind, parsed: JValue): Outcome<(Envelope, Payload)> {
    if !parsed.JObject? then Done((NO_ENVELOPE, EmptyPayload(kind)))
    else
      var first :- FirstValue(parsed.entries);
      var eventJSON :- AsObject(first);
      var env :- ReadEnvelopeSpec(eventJSON);
      var dataValue :- FirstValue(eventJSON);
      var data :- AsObject(dataValue);
      var payload :- ProjectData(kind, data);
      Done((env, payload))
  }

  /** A log that parses to anything but an object sets no envelope or data field. */
  lemma NonObjectLogSetsNothing(kind: Kind, parsed: JValue)
    requires !parsed.JObject?
    ensures ProjectEvent(kind, parsed) == Done((NO_ENVELOPE, EmptyPayload(kind)))
  {
  }

  /** When a log projects, the envelope came from the first top-level entry and
      the data from that envelope's first entry, whatever their keys were. */
  lemma DataIsFirstEnvelopeEntry(kind: Kind, parsed: JValue)
    requires parsed.JObject? && ProjectEvent(kind, parsed).Done?
    ensures |parsed.entries| > 0 && parsed.entries[0].1.JObject?
    ensures var eventJSON := parsed.entries[0].1.entries;
              && |eventJSON| > 0 && eventJSON[0].1.JObject?
              && ReadEnvelopeSpec(eventJSON).Done?
              && ProjectData(kind, eventJSON[0].1.entries).Done?
              && ProjectEvent(kind, parsed).value ==
                   (ReadEnvelopeSpec(eventJSON).value, ProjectData(kind, eventJSON[0].1.entries).value)
  {
  }

  /** Which parsed log objects yield a record: exactly those whose first value
      is an object whose own first value is an object, with no envelope entry
      and no data entry of the wrong JSON kind. Every other shape aborts,
      among them `{}` and a first value that is not an object. */
  lemma ProjectEventDoneIff(kind: Kind, es: seq<Entry>)
    ensures ProjectEvent(kind, JObject(es)).Done? <==>
              && |es| > 0 && es[0].1.JObject?
              && var env := es[0].1.entries;
                 && |env| > 0 && env[0].1.JObject?
                 && (forall i :: 0 <= i < |env| ==> !EnvelopeRejects(env[i].0, env[i].1))
                 && var data := env[0].1.entries;
                    forall i :: 0 <= i < |data| ==> !DataRejects(kind, data[i].0, data[i].1)
  {
    if |es| > 0 && es[0].1.JObject? {
      var env := es[0].1.entries;
      EnvelopeAbortsIffNonString(env);
      if |env| > 0 && env[0].1.JObject? {
        DataAbortsIffSomeEntryRejected(kind, env[0].1.entries);
      }
    }
  }

  /** An envelope whose first entry is not an object (as when it starts with
      `"standard": "..."`) never yields an entity: the data read aborts. */
  lemma EnvelopeLedByScalarAborts(kind: Kind, parsed: JValue)
    requires parsed.JObject? && |parsed.entries| > 0 && parsed.entries[0].1.JObject?
    requires var eventJSON := parsed.entries[0].1.entries; |eventJSON| > 0 && !eventJSON[0].1.JObject?
    ensures ProjectEvent(kind, parsed).Abort?
  {
  }

  /** An `init` log whose envelope lists `standard`, `event`, `version` and then
      the `data` object aborts: the data read takes the `standard` string. */
  lemma StandardFirstEnvelopeAborts()
    ensures
      var data := JObject([("adminId", JString("a")), ("adminSet", JNumber(1)), ("accountId", JString("b"))]);
      var envelope := JObject([("standard", JString("s")), ("event", JString("init")),
                               ("version", JString("v")), ("data", data)]);
      ProjectEvent(InitKind, JObject([("e", envelope)])) == Abort(NotAnObject)
  {
    var data := JObject([("adminId", JString("a")), ("adminSet", JNumber(1)), ("accountId", JString("b"))]);
    var entries := [("standard", JString("s")), ("event", JString("init")),
                    ("version", JString("v")), ("data", data)];
    EnvelopeAbortsIffNonString(entries);
  }
}
