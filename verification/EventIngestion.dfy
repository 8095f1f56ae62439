/** Normalising a batch of remote events and storing it (crates/runtime/src/adapter/mod.rs,
    crates/durable-store/src/external_command.rs, crates/store-postgres/src/transaction_executor.rs). */
module EventIngestion {
  import opened Prelude
  import opened Text
  import opened Identity

  type ExecutionId = PrintedId

  type Digest = d: seq<Byte> | |d| == 32 witness seq(32, _ => 0)

  datatype RemoteEvent = RemoteEvent(
    sourceEventId: Option<string>,
    sourceSequence: Option<nat>,
    kind: string,
    authoritative: bool,
    rawDigest: Digest,
    payload: string)

  datatype RemoteEventBatch = RemoteEventBatch(events: seq<RemoteEvent>, nextCursor: Option<string>, terminal: bool)

  // ---------------------------------------------------------------- commands

  datatype NewTask = NewTask(createdEventId: DerivedId, basedOnCheckpointSequence: nat, maxAttempts: nat)

  datatype NewWait = NewWait(createdEventId: DerivedId, waitType: string, expectedEventType: string, resumeMaxAttempts: nat)

  datatype WorkflowAction = NoAction | Tasks(tasks: seq<NewTask>) | Wait(wait: NewWait)

  datatype NewArtifact = NewArtifact(
    createdEventId: DerivedId,
    contractVersion: nat,
    version: nat,
    kind: string,
    uri: string,
    mediaType: string,
    producedBy: string)

  datatype ExecutionStatus =
    | Planned | Submitting | Running | Stopping
    | Succeeded | Failed | Cancelled | OutcomeUnknown | Reconciling | ManualReview

  datatype ExecutionOutcome = ExecutionOutcome(status: ExecutionStatus, result: Option<string>, errorCode: Option<string>)

  datatype Projection = Projection(action: WorkflowAction, artifacts: seq<NewArtifact>, outcome: Option<ExecutionOutcome>)

  const NoProjection := Projection(NoAction, [], None)

  datatype EventInput = EventInput(
    receiptId: DerivedId,
    dedupeKey: DerivedId,
    sourceEventId: Option<string>,
    sourceSequence: Option<nat>,
    sourceCursor: Option<string>,
    kind: string,
    authoritative: bool,
    rawDigest: Digest,
    localEventId: Option<DerivedId>,
    payloadSchemaVersion: nat,
    payload: string,
    projection: Projection)

  datatype AppendAgentEvents = AppendAgentEvents(
    execution: ExecutionId,
    expectedCursorVersion: nat,
    nextCursor: Option<string>,
    nextStatusPollAt: Option<int>,
    remoteTerminal: bool,
    events: seq<EventInput>)

  datatype ShapeError =
    | InvalidCursor
    | MissingPollSchedule
    | InvalidEvent(index: nat)
    | AuthorityMismatch(index: nat)
    | DuplicateReceipt(index: nat)
    | DuplicateDedupeKey(index: nat)
    | DuplicateLocalEvent(index: nat)
    | ProjectionMismatch(index: nat)
    | ConflictingProjection

  predicate OutcomeShapeFine(outcome: ExecutionOutcome) {
    && outcome.errorCode != Some("")
    && match outcome.status
       case Succeeded => outcome.result.Some? && outcome.errorCode.None?
       case Failed => outcome.result.None? && outcome.errorCode.Some?
       case Cancelled => outcome.result.None?
       case OutcomeUnknown => outcome.result.None?
       case Reconciling => outcome.result.None?
       case ManualReview => outcome.result.None?
       case _ => false
  }

  predicate ProjectionMatchesEvent(event: EventInput) {
    if event.localEventId.None? then event.projection == NoProjection
    else
      var local := event.localEventId.value;
      && (match event.projection.action
          case NoAction => true
          case Tasks(tasks) =>
            tasks != [] && forall t :: t in tasks ==>
              t.createdEventId == local && t.basedOnCheckpointSequence > 0 && t.maxAttempts > 0
          case Wait(wait) =>
            wait.createdEventId == local && wait.waitType != "" && wait.expectedEventType != "" && wait.resumeMaxAttempts > 0)
      && (forall a :: a in event.projection.artifacts ==>
            && a.createdEventId == local && a.contractVersion > 0 && a.version > 0
            && a.kind != "" && a.uri != "" && a.mediaType != "" && a.producedBy != "")
      && (event.projection.outcome.Some? ==> OutcomeShapeFine(event.projection.outcome.value))
  }

  function CheckEvent(events: seq<EventInput>, i: nat): Option<ShapeError>
    requires i < |events|
  {
    var e := events[i];
    if e.kind == "" || e.payloadSchemaVersion == 0 || e.sourceEventId == Some("") || e.sourceCursor == Some("") then
      Some(InvalidEvent(i))
    else if e.authoritative != e.localEventId.Some? then Some(AuthorityMismatch(i))
    else if !e.authoritative && e.projection != NoProjection then Some(ProjectionMismatch(i))
    else if e.authoritative && !ProjectionMatchesEvent(e) then Some(ProjectionMismatch(i))
    else if exists j :: 0 <= j < i && events[j].receiptId == e.receiptId then Some(DuplicateReceipt(i))
    else if exists j :: 0 <= j < i && events[j].dedupeKey == e.dedupeKey then Some(DuplicateDedupeKey(i))
    else if e.localEventId.Some? && exists j :: 0 <= j < i && events[j].localEventId == e.localEventId then
      Some(DuplicateLocalEvent(i))
    else None
  }

  function CheckEventsFrom(events: seq<EventInput>, i: nat): Option<ShapeError>
    requires i <= |events|
    decreases |events| - i
  {
    if i == |events| then None
    else match CheckEvent(events, i)
      case Some(error) => Some(error)
      case None => CheckEventsFrom(events, i + 1)
  }

  predicate HasAction(event: EventInput) {
    event.projection.action != NoAction
  }

  predicate HasOutcome(event: EventInput) {
    event.projection.outcome.Some?
  }

  function CountIf(events: seq<EventInput>, wanted: EventInput -> bool): nat {
    if events == [] then 0 else CountIf(events[1..], wanted) + if wanted(events[0]) then 1 else 0
  }

  function ValidateShape(command: AppendAgentEvents): Option<ShapeError> {
    if command.nextCursor == Some("") then Some(InvalidCursor)
    else if command.nextStatusPollAt.None? then Some(MissingPollSchedule)
    else match CheckEventsFrom(command.events, 0)
      case Some(error) => Some(error)
      case None =>
        if CountIf(command.events, HasAction) > 1 || CountIf(command.events, HasOutcome) > 1 then Some(ConflictingProjection) else None
  }

  // ---------------------------------------------------------------- identity of an event

  datatype EventKey = ById(id: string) | BySequence(sequence: nat) | ByDigest(digest: Digest)

  function KeyOf(event: RemoteEvent): EventKey {
    if event.sourceEventId.Some? then ById(event.sourceEventId.value)
    else if event.sourceSequence.Some? then BySequence(event.sourceSequence.value)
    else ByDigest(event.rawDigest)
  }

  function KeyText(key: EventKey): string {
    match key
    case ById(id) => "id/" + id
    case BySequence(n) => "sequence/" + Decimal(n)
    case ByDigest(digest) => "digest/" + Hex(digest)
  }

  predicate Malformed(event: RemoteEvent) {
    event.kind == "" || event.sourceEventId == Some("")
  }

  datatype NormalizeError = MalformedIdentity | ReusedIdentity

  function RemoteEventIdentity(event: RemoteEvent): Result<string, NormalizeError> {
    if Malformed(event) then Err(MalformedIdentity) else Ok(KeyText(KeyOf(event)))
  }

  function EventIdentity(execution: ExecutionId, key: EventKey): string {
    execution + "/" + KeyText(key)
  }

  function DedupeKey(execution: ExecutionId, key: EventKey): DerivedId {
    DerivedId(EventIdentity(execution, key))
  }

  function InputFor(execution: ExecutionId, cursor: Option<string>, e: RemoteEvent): EventInput {
    var identity := EventIdentity(execution, KeyOf(e));
    EventInput(
      DerivedId("agent-event-receipt/" + identity), DerivedId(identity),
      e.sourceEventId, e.sourceSequence, cursor, e.kind, e.authoritative, e.rawDigest,
      if e.authoritative then Some(DerivedId("agent-event/" + identity)) else None,
      1, e.payload, NoProjection)
  }

  /** The printed key of an event determines the key, across its three forms. */
  lemma KeyTextDetermines(a: EventKey, b: EventKey)
    ensures KeyText(a) == KeyText(b) ==> a == b
  {
    if KeyText(a) == KeyText(b) {
      assert KeyText(a)[0] == KeyText(b)[0];
      match a {
        case ById(id) =>
          assert KeyText(a)[3..] == id;
          assert b.ById? && KeyText(b)[3..] == b.id;
        case BySequence(n) =>
          assert KeyText(a)[9..] == Decimal(n);
          assert b.BySequence? && KeyText(b)[9..] == Decimal(b.sequence);
          DecimalInjective(n, b.sequence);
        case ByDigest(digest) =>
          assert KeyText(a)[7..] == Hex(digest);
          assert b.ByDigest? && KeyText(b)[7..] == Hex(b.digest);
          HexInjective(digest, b.digest);
      }
    }
  }

  lemma FixedPrefix(x: ExecutionId, s: string, y: ExecutionId, t: string)
    requires x + "/" + s == y + "/" + t
    ensures x == y && s == t
  {
    assert (x + "/" + s)[..32] == x && (y + "/" + t)[..32] == y;
    assert (x + "/" + s)[33..] == s && (y + "/" + t)[33..] == t;
  }

  /** Receipts, dedupe keys and local events of different executions or keys never meet. */
  lemma IdentityDetermines(x: ExecutionId, a: EventKey, y: ExecutionId, b: EventKey)
    ensures EventIdentity(x, a) == EventIdentity(y, b) ==> x == y && a == b
  {
    if EventIdentity(x, a) == EventIdentity(y, b) {
      FixedPrefix(x, KeyText(a), y, KeyText(b));
      KeyTextDetermines(a, b);
    }
  }

  // ---------------------------------------------------------------- normalising

  /** Event `i` is the first of its key. */
  ghost predicate First(events: seq<RemoteEvent>, i: nat)
    requires i < |events|
  {
    forall j :: 0 <= j < i ==> KeyOf(events[j]) != KeyOf(events[i])
  }

  /** The first event of each key, in order. */
  ghost function Kept(events: seq<RemoteEvent>): seq<RemoteEvent> {
    if events == [] then []
    else
      var n := |events| - 1;
      Kept(events[..n]) + if First(events, n) then [events[n]] else []
  }

  ghost predicate Clash(a: RemoteEvent, b: RemoteEvent) {
    KeyOf(a) == KeyOf(b) && a.rawDigest != b.rawDigest
  }

  ghost predicate Consistent(events: seq<RemoteEvent>) {
    && (forall i :: 0 <= i < |events| ==> !Malformed(events[i]))
    && forall i, j :: 0 <= i < j < |events| ==> !Clash(events[i], events[j])
  }

  ghost function Inputs(execution: ExecutionId, cursor: Option<string>, events: seq<RemoteEvent>): seq<EventInput> {
    seq(|events|, i requires 0 <= i < |events| => InputFor(execution, cursor, events[i]))
  }

  /** The remote event that an input was made from, as the input itself says. */
  function EventOf(input: EventInput): RemoteEvent {
    RemoteEvent(input.sourceEventId, input.sourceSequence, input.kind, input.authoritative, input.rawDigest, input.payload)
  }

  /** What the worker adds to each event of a batch, by itself. */
  ghost predicate Stamped(input: EventInput, cursor: Option<string>) {
    && input.sourceCursor == cursor && input.payloadSchemaVersion == 1
    && input.projection.action.NoAction? && input.projection.artifacts == [] && input.projection.outcome.None?
    && (input.localEventId.Some? <==> input.authoritative)
  }

  lemma InputReadsBack(execution: ExecutionId, cursor: Option<string>, events: seq<RemoteEvent>)
    ensures var inputs := Inputs(execution, cursor, events);
            |inputs| == |events| && forall i :: 0 <= i < |inputs| ==> EventOf(inputs[i]) == events[i] && Stamped(inputs[i], cursor)
  {
  }

  /** Fails exactly on a malformed identity or on one key with two contents; else keeps the first event of each key. */
  method NormalizeRemoteEvents(execution: ExecutionId, batch: RemoteEventBatch)
    returns (r: Result<seq<EventInput>, NormalizeError>)
    ensures r.Ok? <==> Consistent(batch.events)
    ensures r.Ok? ==> r.value == Inputs(execution, batch.nextCursor, Kept(batch.events))
    ensures r.Ok? ==>
              && |r.value| == |Kept(batch.events)|
              && forall i :: 0 <= i < |r.value| ==>
                   EventOf(r.value[i]) == Kept(batch.events)[i] && Stamped(r.value[i], batch.nextCursor)
    ensures r == Err(MalformedIdentity) ==> exists i :: 0 <= i < |batch.events| && Malformed(batch.events[i])
    ensures r == Err(ReusedIdentity) ==>
              exists i, j :: 0 <= i < j < |batch.events| && Clash(batch.events[i], batch.events[j])
  {
    InputReadsBack(execution, batch.nextCursor, Kept(batch.events));
    var events := batch.events;
    var seen: map<string, Digest> := map[];
    var normalized: seq<EventInput> := [];
    for n := 0 to |events|
      invariant Normalizing(execution, batch.nextCursor, events, n, seen, normalized)
    {
      var event := events[n];
      NormalizeOne(execution, batch.nextCursor, events, n, seen, normalized);
      var identity := RemoteEventIdentity(event);
      if identity.Err? {
        return Err(identity.error);
      }
      if identity.value in seen {
        if seen[identity.value] != event.rawDigest {
          return Err(ReusedIdentity);
        }
      } else {
        seen := seen[identity.value := event.rawDigest];
        normalized := normalized + [InputFor(execution, batch.nextCursor, event)];
      }
    }
    assert events[..|events|] == events;
    r := Ok(normalized);
  }

  /** The loop after `n` events. */
  ghost predicate Normalizing(
    execution: ExecutionId, cursor: Option<string>, events: seq<RemoteEvent>, n: nat,
    seen: map<string, Digest>, normalized: seq<EventInput>)
  {
    && Seen(events, n, seen) && Consistent(events[..n])
    && normalized == Inputs(execution, cursor, Kept(events[..n]))
  }

  lemma NormalizeOne(
    execution: ExecutionId, cursor: Option<string>, events: seq<RemoteEvent>, n: nat,
    seen: map<string, Digest>, normalized: seq<EventInput>)
    requires n < |events| && Normalizing(execution, cursor, events, n, seen, normalized)
    ensures var text := KeyText(KeyOf(events[n]));
            if text !in seen then
              !Malformed(events[n]) ==>
                Normalizing(execution, cursor, events, n + 1, seen[text := events[n].rawDigest], normalized + [InputFor(execution, cursor, events[n])])
            else if seen[text] == events[n].rawDigest then
              !Malformed(events[n]) ==> Normalizing(execution, cursor, events, n + 1, seen, normalized)
            else
              exists i :: 0 <= i < n && Clash(events[i], events[n])
  {
    var text := KeyText(KeyOf(events[n]));
    SeenDecides(events, n, seen);
    KeptByOne(events, n);
    InputsByOne(execution, cursor, Kept(events[..n]), events[n]);
    if !Malformed(events[n]) && (text !in seen || seen[text] == events[n].rawDigest) {
      ConsistentByOne(events, n);
      SeenByOne(events, n, seen);
    }
  }

  lemma SeenByOne(events: seq<RemoteEvent>, n: nat, seen: map<string, Digest>)
    requires n < |events| && Seen(events, n, seen)
    requires var text := KeyText(KeyOf(events[n])); text in seen ==> seen[text] == events[n].rawDigest
    ensures var text := KeyText(KeyOf(events[n]));
            Seen(events, n + 1, seen[text := events[n].rawDigest]) && (text in seen ==> Seen(events, n + 1, seen))
  {
  }

  lemma KeptByOne(events: seq<RemoteEvent>, n: nat)
    requires n < |events|
    ensures Kept(events[..n + 1]) == Kept(events[..n]) + if First(events, n) then [events[n]] else []
  {
    var now := events[..n + 1];
    assert now[..n] == events[..n];
    assert First(now, n) <==> First(events, n);
  }

  lemma InputsByOne(execution: ExecutionId, cursor: Option<string>, events: seq<RemoteEvent>, e: RemoteEvent)
    ensures Inputs(execution, cursor, events + [e]) == Inputs(execution, cursor, events) + [InputFor(execution, cursor, e)]
    ensures Inputs(execution, cursor, events + []) == Inputs(execution, cursor, events)
  {
    assert events + [] == events;
  }

  lemma ConsistentByOne(events: seq<RemoteEvent>, n: nat)
    requires n < |events| && Consistent(events[..n]) && !Malformed(events[n])
    requires forall i :: 0 <= i < n ==> !Clash(events[i], events[n])
    ensures Consistent(events[..n + 1])
  {
    var now := events[..n + 1];
    forall i, j | 0 <= i < j < |now| ensures !Clash(now[i], now[j]) {
      if j < n {
        assert now[i] == events[..n][i] && now[j] == events[..n][j];
      }
    }
    forall i | 0 <= i < |now| ensures !Malformed(now[i]) {
      if i < n {
        assert now[i] == events[..n][i];
      }
    }
  }

  /** The printed keys seen so far, each with the digest of its events. */
  ghost predicate Seen(events: seq<RemoteEvent>, n: nat, seen: map<string, Digest>) {
    && n <= |events|
    && (forall i :: 0 <= i < n ==>
          KeyText(KeyOf(events[i])) in seen && seen[KeyText(KeyOf(events[i]))] == events[i].rawDigest)
    && forall text :: text in seen ==> exists i :: 0 <= i < n && KeyText(KeyOf(events[i])) == text
  }

  lemma SeenDecides(events: seq<RemoteEvent>, n: nat, seen: map<string, Digest>)
    requires n < |events| && Seen(events, n, seen)
    ensures var text := KeyText(KeyOf(events[n]));
            && (text !in seen <==> First(events, n))
            && (text in seen ==> exists i :: 0 <= i < n && KeyOf(events[i]) == KeyOf(events[n]) && events[i].rawDigest == seen[text])
            && forall i :: 0 <= i < n && Clash(events[i], events[n]) ==> text in seen && seen[text] != events[n].rawDigest
  {
    var text := KeyText(KeyOf(events[n]));
    forall i | 0 <= i < n ensures KeyText(KeyOf(events[i])) == text <==> KeyOf(events[i]) == KeyOf(events[n]) {
      KeyTextDetermines(KeyOf(events[i]), KeyOf(events[n]));
    }
  }

  lemma {:induction false} KeptAreFirst(events: seq<RemoteEvent>, e: RemoteEvent) returns (i: nat)
    requires e in Kept(events)
    ensures i < |events| && First(events, i) && events[i] == e
  {
    var n := |events| - 1;
    if e in Kept(events[..n]) {
      i := KeptAreFirst(events[..n], e);
      assert events[..n][i] == events[i];
      assert forall j :: 0 <= j < i ==> events[..n][j] == events[j];
    } else {
      i := n;
    }
  }

  lemma {:induction false} FirstAreKept(events: seq<RemoteEvent>, i: nat)
    requires i < |events| && First(events, i)
    ensures events[i] in Kept(events)
  {
    var n := |events| - 1;
    if i < n {
      assert forall j :: 0 <= j <= i ==> events[..n][j] == events[j];
      FirstAreKept(events[..n], i);
    }
  }

  lemma {:induction false} KeptKeysDistinct(events: seq<RemoteEvent>)
    ensures forall i, j :: 0 <= i < j < |Kept(events)| ==> KeyOf(Kept(events)[i]) != KeyOf(Kept(events)[j])
  {
    if events != [] {
      var n := |events| - 1;
      var earlier := Kept(events[..n]);
      KeptKeysDistinct(events[..n]);
      forall i | 0 <= i < |earlier| && First(events, n) ensures KeyOf(earlier[i]) != KeyOf(events[n]) {
        var j := KeptAreFirst(events[..n], earlier[i]);
        assert events[..n][j] == events[j];
      }
    }
  }

  /** Every event has a kept one with its key. */
  lemma {:induction false} KeptCovers(events: seq<RemoteEvent>, i: nat) returns (first: nat)
    requires i < |events|
    ensures first <= i && First(events, first) && KeyOf(events[first]) == KeyOf(events[i])
    ensures events[first] in Kept(events)
  {
    if First(events, i) {
      first := i;
    } else {
      var j :| 0 <= j < i && KeyOf(events[j]) == KeyOf(events[i]);
      first := KeptCovers(events, j);
    }
    FirstAreKept(events, first);
  }
}
