/** append_audit_event of apps/audit/append.py: validation, and the event and its seal job in one commit. */
module Append {
  import opened Prelude
  import opened Hashing
  import opened AuditTables
  import opened Sealing
  import opened LedgerInvariant
  import opened LedgerRuns
  import opened JobQueue
  import Backlog

  const AUDIT_EVENT_TYPES := {
    "inventory.created", "inventory.changed", "discovery.completed", "reconciliation.accepted", "rule.created",
    "rule.changed", "assessment.completed", "report.generated", "connector.connected", "connector.disconnected"
  }

  datatype AppendError =
    | UnsupportedEventType
    | EmptyEntityType
    | EntityTypeTooLong
    | DataMustBeObject
    | BinaryFloat(at: seq<nat>)
    | KeyNotText(at: seq<nat>)
    | NotRepresentable
    | DuplicateKey
  {
    /** The refusals that come before the data is looked into. */
    predicate IsEarly() {
      UnsupportedEventType? || EmptyEntityType? || EntityTypeTooLong? || DataMustBeObject?
    }
  }

  // -------------------------------------------------------------- event data

  /** The Python values that a caller may pass as event data. */
  datatype Data =
    | NoneData
    | BoolData(flag: bool)
    | IntData(number: int)
    | FloatData(approximation: real)
    | TextData(text: string)
    | ListData(items: seq<Data>)
    | DictData(fields: seq<(Key, Data)>)
    | OtherData

  datatype Key = TextKey(text: string) | OtherKey

  function Children(value: Data): (children: seq<Data>)
    ensures forall i :: 0 <= i < |children| ==> children[i] < value
  {
    match value
    case ListData(items) => items
    case DictData(fields) => seq(|fields|, i requires 0 <= i < |fields| => fields[i].1)
    case _ => []
  }

  /** The value that a path of child positions leads to. */
  function Resolve(value: Data, path: seq<nat>): Option<Data>
    decreases |path|
  {
    if path == [] then Some(value)
    else if path[0] >= |Children(value)| then None
    else Resolve(Children(value)[path[0]], path[1..])
  }

  predicate HasOtherKey(value: Data) {
    value.DictData? && exists i :: 0 <= i < |value.fields| && value.fields[i].0.OtherKey?
  }

  /** _validate_json_value: the first binary float or non-text key, depth first; the path says where it is. */
  function FirstRefused(value: Data): Option<AppendError>
    decreases value, 1, 0
  {
    match value
    case FloatData(_) => Some(BinaryFloat([]))
    case ListData(_) => FirstRefusedChild(value, 0)
    case DictData(_) => FirstRefusedChild(value, 0)
    case _ => None
  }

  /** The children from position i on. A key is looked at before its value. */
  function FirstRefusedChild(value: Data, i: nat): Option<AppendError>
    decreases value, 0, |Children(value)| - i
  {
    if i >= |Children(value)| then None
    else if value.DictData? && value.fields[i].0.OtherKey? then Some(KeyNotText([]))
    else
      match FirstRefused(Children(value)[i])
      case Some(BinaryFloat(at)) => Some(BinaryFloat([i] + at))
      case Some(KeyNotText(at)) => Some(KeyNotText([i] + at))
      case Some(error) => Some(error)
      case None => FirstRefusedChild(value, i + 1)
  }

  /** A refusal points at a binary float or at a dictionary with a key that is not text. */
  ghost predicate PointsAtCause(value: Data, error: AppendError) {
    match error
    case BinaryFloat(at) => Resolve(value, at).Some? && Resolve(value, at).value.FloatData?
    case KeyNotText(at) => Resolve(value, at).Some? && HasOtherKey(Resolve(value, at).value)
    case _ => false
  }

  lemma {:induction false} RefusalsHaveACause(value: Data)
    ensures FirstRefused(value).Some? ==> PointsAtCause(value, FirstRefused(value).value)
    decreases value, 1, 0
  {
    if value.ListData? || value.DictData? {
      ChildRefusalsHaveACause(value, 0);
    }
  }

  lemma {:induction false} ChildRefusalsHaveACause(value: Data, i: nat)
    ensures FirstRefusedChild(value, i).Some? ==> PointsAtCause(value, FirstRefusedChild(value, i).value)
    decreases value, 0, |Children(value)| - i
  {
    if i < |Children(value)| {
      var child := Children(value)[i];
      RefusalsHaveACause(child);
      ChildRefusalsHaveACause(value, i + 1);
      if FirstRefused(child).Some? {
        var at := FirstRefused(child).value.at;
        assert ([i] + at)[1..] == at;
      }
    }
  }

  lemma {:induction false} AcceptedChild(value: Data, i: nat, k: nat)
    requires FirstRefusedChild(value, i).None? && i <= k < |Children(value)|
    ensures FirstRefused(Children(value)[k]).None?
    ensures value.DictData? ==> !value.fields[k].0.OtherKey?
    decreases k - i
  {
    if i < k {
      AcceptedChild(value, i + 1, k);
    }
  }

  /** Data passes exactly when nothing in it, at any depth, is a binary float or a key that is not text. */
  lemma {:induction false} AcceptedDataIsExact(value: Data, path: seq<nat>)
    requires FirstRefused(value).None? && Resolve(value, path).Some?
    ensures !Resolve(value, path).value.FloatData? && !HasOtherKey(Resolve(value, path).value)
    decreases |path|
  {
    if path != [] {
      AcceptedChild(value, 0, path[0]);
      AcceptedDataIsExact(Children(value)[path[0]], path[1..]);
    } else if HasOtherKey(value) {
      var i: nat :| i < |value.fields| && value.fields[i].0.OtherKey?;
      AcceptedChild(value, 0, i);
    }
  }

  /** The document that accepted data is; None for a value that has no JSON form. */
  function ToJson(value: Data): Option<Json>
    decreases value, 1, 0
  {
    match value
    case NoneData => Some(JNull)
    case BoolData(flag) => Some(JBool(flag))
    case IntData(number) => Some(JNumber(number as real))
    case FloatData(approximation) => Some(JNumber(approximation))
    case TextData(text) => Some(JString(text))
    case ListData(_) =>
      var items := ItemsToJson(value, |Children(value)|);
      if items.None? then None else Some(JArray(items.value))
    case DictData(_) =>
      var fields := FieldsToJson(value, |Children(value)|);
      if fields.None? then None else Some(JObject(fields.value))
    case OtherData => None
  }

  function ItemsToJson(value: Data, n: nat): Option<seq<Json>>
    requires n <= |Children(value)|
    decreases value, 0, n
  {
    if n == 0 then Some([])
    else
      match (ItemsToJson(value, n - 1), ToJson(Children(value)[n - 1]))
      case (Some(items), Some(item)) => Some(items + [item])
      case _ => None
  }

  function FieldsToJson(value: Data, n: nat): Option<map<string, Json>>
    requires value.DictData? && n <= |Children(value)|
    decreases value, 0, n
  {
    if n == 0 then Some(map[])
    else
      match (FieldsToJson(value, n - 1), value.fields[n - 1].0, ToJson(Children(value)[n - 1]))
      case (Some(fields), TextKey(text), Some(field)) => Some(fields[text := field])
      case _ => None
  }

  /** Neither a value without a JSON form nor a dictionary with a key that is not text. */
  predicate Plain(value: Data) {
    !value.OtherData? && !HasOtherKey(value)
  }

  /** Nothing at any depth lacks a JSON form. */
  ghost predicate AllPlain(value: Data) {
    forall path: seq<nat> :: Resolve(value, path).Some? ==> Plain(Resolve(value, path).value)
  }

  lemma {:induction false} ConvertedChild(value: Data, n: nat, k: nat)
    requires k < n <= |Children(value)|
    requires (value.ListData? && ItemsToJson(value, n).Some?) || (value.DictData? && FieldsToJson(value, n).Some?)
    ensures ToJson(Children(value)[k]).Some? && (value.DictData? ==> value.fields[k].0.TextKey?)
    decreases n
  {
    if k < n - 1 {
      ConvertedChild(value, n - 1, k);
    }
  }

  lemma {:induction false} ConvertedIsPlain(value: Data, path: seq<nat>)
    requires ToJson(value).Some? && Resolve(value, path).Some?
    ensures Plain(Resolve(value, path).value)
    decreases |path|
  {
    if path != [] {
      ConvertedChild(value, |Children(value)|, path[0]);
      ConvertedIsPlain(Children(value)[path[0]], path[1..]);
    } else if HasOtherKey(value) {
      var i: nat :| i < |value.fields| && value.fields[i].0.OtherKey?;
      ConvertedChild(value, |Children(value)|, i);
    }
  }

  lemma {:induction false} FindUnconverted(value: Data, n: nat) returns (k: nat)
    requires n <= |Children(value)|
    requires (value.ListData? && ItemsToJson(value, n).None?) || (value.DictData? && FieldsToJson(value, n).None?)
    ensures k < n && (ToJson(Children(value)[k]).None? || (value.DictData? && value.fields[k].0.OtherKey?))
    decreases n
  {
    if ToJson(Children(value)[n - 1]).None? || (value.DictData? && value.fields[n - 1].0.OtherKey?) {
      k := n - 1;
    } else {
      k := FindUnconverted(value, n - 1);
    }
  }

  lemma {:induction false} FindOther(value: Data) returns (path: seq<nat>)
    requires ToJson(value).None?
    ensures Resolve(value, path).Some? && !Plain(Resolve(value, path).value)
    decreases value
  {
    path := [];
    if Plain(value) {
      var k := FindUnconverted(value, |Children(value)|);
      var rest := FindOther(Children(value)[k]);
      path := [k] + rest;
      assert path[1..] == rest;
    }
  }

  /** Data has a document exactly when nothing in it, at any depth, lacks a JSON form. */
  lemma ConvertsExactly(value: Data)
    ensures ToJson(value).Some? <==> AllPlain(value)
  {
    if ToJson(value).Some? {
      forall path: seq<nat> | Resolve(value, path).Some? ensures Plain(Resolve(value, path).value) {
        ConvertedIsPlain(value, path);
      }
    } else {
      var path := FindOther(value);
    }
  }

  // --------------------------------------------- what the document holds

  datatype Step = AtKey(text: string) | AtPosition(i: nat)

  /** The value under a key; of equal keys the last one counts. */
  function FieldOf(fields: seq<(Key, Data)>, text: string): Option<Data> {
    if fields == [] then None
    else if fields[|fields| - 1].0 == TextKey(text) then Some(fields[|fields| - 1].1)
    else FieldOf(fields[..|fields| - 1], text)
  }

  function DataStep(value: Data, step: Step): Option<Data> {
    match step
    case AtKey(text) => if value.DictData? then FieldOf(value.fields, text) else None
    case AtPosition(i) => if value.ListData? && i < |value.items| then Some(value.items[i]) else None
  }

  function DocumentStep(document: Json, step: Step): Option<Json> {
    match step
    case AtKey(text) => if document.JObject? then Lookup(document.fields, text) else None
    case AtPosition(i) => if document.JArray? && i < |document.items| then Some(document.items[i]) else None
  }

  /** What a path of keys and positions leads to. */
  function DataAt(value: Data, path: seq<Step>): Option<Data>
    decreases |path|
  {
    if path == [] then Some(value)
    else
      match DataStep(value, path[0])
      case None => None
      case Some(child) => DataAt(child, path[1..])
  }

  function DocumentAt(document: Json, path: seq<Step>): Option<Json>
    decreases |path|
  {
    if path == [] then Some(document)
    else
      match DocumentStep(document, path[0])
      case None => None
      case Some(child) => DocumentAt(child, path[1..])
  }

  /** The same scalar, or a collection of the same kind and, for lists, of the same length. */
  predicate SameNode(value: Data, document: Json) {
    match value
    case NoneData => document.JNull?
    case BoolData(flag) => document == JBool(flag)
    case IntData(number) => document == JNumber(number as real)
    case FloatData(approximation) => document == JNumber(approximation)
    case TextData(text) => document == JString(text)
    case ListData(items) => document.JArray? && |document.items| == |items|
    case DictData(_) => document.JObject?
    case OtherData => false
  }

  /** The path leads nowhere in both, or to the same thing in both. */
  predicate SameAt(value: Data, document: Json, path: seq<Step>) {
    && DataAt(value, path).Some? == DocumentAt(document, path).Some?
    && (DataAt(value, path).Some? ==> SameNode(DataAt(value, path).value, DocumentAt(document, path).value))
  }

  lemma {:induction false} ItemIsConverted(value: Data, n: nat, i: nat)
    requires n <= |Children(value)| && ItemsToJson(value, n).Some?
    ensures |ItemsToJson(value, n).value| == n
    ensures i < n ==> ToJson(Children(value)[i]) == Some(ItemsToJson(value, n).value[i])
    decreases n
  {
    if n == 0 {
    } else {
      ItemIsConverted(value, n - 1, i);
    }
  }

  lemma {:induction false} FieldIsConverted(value: Data, n: nat, text: string)
    requires value.DictData? && n <= |value.fields| && FieldsToJson(value, n).Some?
    ensures var field, fields := FieldOf(value.fields[..n], text), FieldsToJson(value, n).value;
            if field.None? then text !in fields else text in fields && ToJson(field.value) == Some(fields[text])
    decreases n
  {
    if n == 0 {
    } else {
      FieldIsConverted(value, n - 1, text);
      assert value.fields[..n][..n - 1] == value.fields[..n - 1];
    }
  }

  lemma StepIsConverted(value: Data, document: Json, step: Step)
    requires ToJson(value) == Some(document)
    ensures DataStep(value, step).Some? == DocumentStep(document, step).Some?
    ensures DataStep(value, step).Some? ==> ToJson(DataStep(value, step).value) == DocumentStep(document, step)
  {
    match value {
      case ListData(items) =>
        ItemIsConverted(value, |items|, if step.AtPosition? then step.i else 0);
      case DictData(fields) =>
        FieldIsConverted(value, |fields|, if step.AtKey? then step.text else "");
        assert fields[..|fields|] == fields;
      case _ =>
    }
  }

  /** A converted value holds, along every path, what the value holds there, and nothing else. */
  lemma {:induction false} DocumentHoldsData(value: Data, document: Json, path: seq<Step>)
    requires ToJson(value) == Some(document)
    ensures SameAt(value, document, path)
    decreases |path|
  {
    if path == [] {
      if value.ListData? {
        ItemIsConverted(value, |value.items|, 0);
      }
    } else {
      StepIsConverted(value, document, path[0]);
      if DataStep(value, path[0]).Some? {
        DocumentHoldsData(DataStep(value, path[0]).value, DocumentStep(document, path[0]).value, path[1..]);
      }
    }
  }

  // ----------------------------------------------------------------- append

  datatype EventRequest = EventRequest(
    organization: Uuid, eventType: string, entityType: string, data: Data,
    actorUserId: Option<Uuid>, entityId: Option<Uuid>)

  /** The row to store, with the drawn id and the time of the call, or the reason to refuse it. */
  function Validate(codec: Codec, request: EventRequest, eventId: Uuid, occurredAt: Time)
    : Result<EventRow, AppendError>
  {
    var entityType := Strip(request.entityType);
    if request.eventType !in AUDIT_EVENT_TYPES then Err(UnsupportedEventType)
    else if entityType == "" then Err(EmptyEntityType)
    else if |entityType| > 160 then Err(EntityTypeTooLong)
    else if !request.data.DictData? then Err(DataMustBeObject)
    else if FirstRefused(request.data).Some? then Err(FirstRefused(request.data).value)
    else if ToJson(request.data).None? then Err(NotRepresentable)
    else
      var row := EventRow(eventId, request.organization, occurredAt, request.actorUserId, request.eventType,
                          entityType, request.entityId, ToJson(request.data).value, None, None, None);
      if codec.canonicalJson(EventEnvelopeOf(codec, row).value).None? then Err(NotRepresentable) else Ok(row)
  }

  /** The text without the white space around it. */
  ghost predicate IsStripped(text: string, stripped: string) {
    exists i, j :: 0 <= i <= j <= |text| && IsStrippedAt(text, stripped, i, j)
  }

  ghost predicate IsStrippedAt(text: string, stripped: string, i: int, j: int)
    requires 0 <= i <= j <= |text|
  {
    && stripped == text[i..j]
    && (forall k :: 0 <= k < i || j <= k < |text| ==> IsSpace(text[k]))
    && (i < j ==> !IsSpace(text[i]) && !IsSpace(text[j - 1]))
  }

  lemma StripStrips(text: string)
    ensures IsStripped(text, Strip(text))
  {
    var left := StripLeft(text);
    StripLeftStrips(text);
    StripRightStrips(left);
    var i := |text| - |left|;
    var j := i + |Strip(text)|;
    assert Strip(text) == text[i..j];
    forall k | 0 <= k < i || j <= k < |text| ensures IsSpace(text[k]) {
      assert k >= j ==> text[k] == left[k - i];
    }
    assert IsStrippedAt(text, Strip(text), i, j);
  }

  lemma StrippedIsUnique(text: string, a: string, b: string)
    requires IsStripped(text, a) && IsStripped(text, b)
    ensures a == b
  {
    var i, j :| 0 <= i <= j <= |text| && IsStrippedAt(text, a, i, j);
    var m, n :| 0 <= m <= n <= |text| && IsStrippedAt(text, b, m, n);
    if i < j {
      assert m <= i && j <= n;
    }
    if m < n {
      assert i <= m && n <= j;
    }
  }

  /** Nothing at any depth is a binary float. */
  ghost predicate NoFloat(value: Data) {
    forall path: seq<nat> :: Resolve(value, path).Some? ==> !Resolve(value, path).value.FloatData?
  }

  /** What a request must be like to be accepted, but for its encoding. */
  ghost predicate Acceptable(request: EventRequest) {
    && request.eventType in AUDIT_EVENT_TYPES
    && (exists stripped :: IsStripped(request.entityType, stripped) && 1 <= |stripped| <= 160)
    && request.data.DictData? && NoFloat(request.data) && AllPlain(request.data)
  }

  lemma RefusesNothing(value: Data)
    ensures AllPlain(value) && NoFloat(value) ==> FirstRefused(value).None?
    ensures FirstRefused(value).None? ==> NoFloat(value)
  {
    RefusalsHaveACause(value);
    if FirstRefused(value).None? {
      forall path: seq<nat> | Resolve(value, path).Some? ensures !Resolve(value, path).value.FloatData? {
        AcceptedDataIsExact(value, path);
      }
    }
  }

  lemma AcceptableByChecks(request: EventRequest)
    ensures Acceptable(request) <==>
              && request.eventType in AUDIT_EVENT_TYPES && 1 <= |Strip(request.entityType)| <= 160
              && request.data.DictData? && FirstRefused(request.data).None? && ToJson(request.data).Some?
  {
    RefusesNothing(request.data);
    ConvertsExactly(request.data);
    StripStrips(request.entityType);
    if stripped :| IsStripped(request.entityType, stripped) && 1 <= |stripped| <= 160 {
      StrippedIsUnique(request.entityType, stripped, Strip(request.entityType));
    }
  }

  /** A request is accepted exactly when it is acceptable and the envelope of its row encodes. */
  lemma AcceptedExactly(codec: Codec, request: EventRequest, eventId: Uuid, occurredAt: Time)
    ensures Validate(codec, request, eventId, occurredAt).Ok? <==>
              && Acceptable(request)
              && ToJson(request.data).Some?
              && codec.canonicalJson(EventEnvelope(1, request.organization, eventId, occurredAt, request.actorUserId,
                   request.eventType, Strip(request.entityType), request.entityId, ToJson(request.data).value)).Some?
  {
    AcceptableByChecks(request);
  }

  /** The cause that a refusal names. */
  ghost predicate RefusedFor(request: EventRequest, error: AppendError) {
    var stripped := Strip(request.entityType);
    match error
    case UnsupportedEventType => request.eventType !in AUDIT_EVENT_TYPES
    case EmptyEntityType =>
      && request.eventType in AUDIT_EVENT_TYPES
      && forall k :: 0 <= k < |request.entityType| ==> IsSpace(request.entityType[k])
    case EntityTypeTooLong => request.eventType in AUDIT_EVENT_TYPES && |stripped| > 160
    case DataMustBeObject =>
      request.eventType in AUDIT_EVENT_TYPES && 1 <= |stripped| <= 160 && !request.data.DictData?
    case NotRepresentable => request.data.DictData? && NoFloat(request.data)
    case DuplicateKey => false
    case _ => request.data.DictData? && PointsAtCause(request.data, error)
  }

  /** Every refusal has its cause, and the early refusals come exactly with theirs. */
  lemma RefusalsByCause(codec: Codec, request: EventRequest, eventId: Uuid, occurredAt: Time, error: AppendError)
    ensures Validate(codec, request, eventId, occurredAt) == Err(error) ==> RefusedFor(request, error)
    ensures RefusedFor(request, error) && error.IsEarly() ==>
              Validate(codec, request, eventId, occurredAt) == Err(error)
  {
    RefusesNothing(request.data);
    RefusalsHaveACause(request.data);
    StripStrips(request.entityType);
  }

  /** The row is what was asked for: every column but the data is the field of that name, and the data holds the same
      along every path. */
  ghost predicate Records(request: EventRequest, eventId: Uuid, occurredAt: Time, row: EventRow) {
    && row.id == eventId && row.occurredAt == occurredAt && row.organization == request.organization
    && row.eventType == request.eventType && row.eventType in AUDIT_EVENT_TYPES
    && row.actorUserId == request.actorUserId && row.entityId == request.entityId
    && IsStripped(request.entityType, row.entityType) && 1 <= |row.entityType| <= 160
    && row.nodeHash.None? && row.batchBlock.None? && row.batchPosition.None?
    && row.data.JObject? && forall path :: SameAt(request.data, row.data, path)
  }

  lemma AcceptedRowRecords(codec: Codec, request: EventRequest, eventId: Uuid, occurredAt: Time)
    requires Validate(codec, request, eventId, occurredAt).Ok?
    ensures Records(request, eventId, occurredAt, Validate(codec, request, eventId, occurredAt).value)
  {
    StripStrips(request.entityType);
    forall path ensures SameAt(request.data, ToJson(request.data).value, path) {
      DocumentHoldsData(request.data, ToJson(request.data).value, path);
    }
  }

  /** Either the event and its seal job are both stored, or nothing is. What is stored meets everything that the
      ledger demands of an appended row. */
  method AppendAuditEvent(
    store: AuditStore, queue: BackgroundJobs, request: EventRequest,
    eventId: Uuid, occurredAt: Time, jobId: Uuid, now: Time
  ) returns (r: Result<EventRow, AppendError>)
    modifies store, queue
    ensures r.Ok? ==>
              && Validate(store.codec, request, eventId, occurredAt) == Ok(r.value)
              && Records(request, eventId, occurredAt, r.value)
              && Appendable(store.codec, old(store.Contents()), r.value)
              && store.Contents() == AppendRow(old(store.Contents()), r.value)
              && jobId !in old(queue.jobs)
              && queue.jobs == old(queue.jobs)[jobId :=
                   NewJob(request.organization, AuditBatchSeal, true, Backlog.SEAL_PRIORITY, now)]
    ensures r.Err? ==> store.Contents() == old(store.Contents()) && queue.jobs == old(queue.jobs)
    ensures r.Err? <==>
              || Validate(store.codec, request, eventId, occurredAt).Err?
              || jobId in old(queue.jobs)
              || exists i :: 0 <= i < |old(store.events)| && old(store.events)[i].id == eventId
  {
    var validated := Validate(store.codec, request, eventId, occurredAt);
    if validated.Err? {
      return Err(validated.error);
    }
    var row := validated.value;
    AcceptedRowRecords(store.codec, request, eventId, occurredAt);
    if exists i :: 0 <= i < |store.events| && store.events[i].id == row.id {
      return Err(DuplicateKey);
    }
    if jobId in queue.jobs {
      return Err(DuplicateKey);
    }
    store.events := store.events + [row];
    var stored := queue.EnqueueJob(jobId, request.organization, AuditBatchSeal, true, Backlog.SEAL_PRIORITY, now);
    return Ok(row);
  }

  /** An accepted event has a non-blank entity type of at most 160 characters that neither starts nor ends with a
      space, and its envelope has a canonical encoding, so sealing it cannot fail on its account. */
  lemma AcceptedEventsAreSealable(codec: Codec, request: EventRequest, eventId: Uuid, occurredAt: Time)
    requires Validate(codec, request, eventId, occurredAt).Ok?
    ensures var row := Validate(codec, request, eventId, occurredAt).value;
            && SealColumnsNull(row) && Canonicalizable(codec, row)
            && 1 <= |row.entityType| <= 160
            && !IsSpace(row.entityType[0]) && !IsSpace(row.entityType[|row.entityType| - 1])
  {
    var left := StripLeft(request.entityType);
    StripLeftStrips(request.entityType);
    StripRightStrips(left);
  }
}
