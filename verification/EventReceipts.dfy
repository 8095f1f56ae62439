/** Receipts make ingestion independent of how the remote batches its events
    (crates/store-postgres/src/transaction_executor.rs, crates/durable-store/src/external_command.rs). */
module EventReceipts {
  import opened Prelude
  import opened Text
  import opened Identity
  import opened EventIngestion

  // ---------------------------------------------------------------- the command always passes validation

  ghost function Command(
    execution: ExecutionId, cursorVersion: nat, cursor: Option<string>, pollAt: int, terminal: bool, events: seq<RemoteEvent>)
    : AppendAgentEvents
  {
    AppendAgentEvents(execution, cursorVersion, cursor, Some(pollAt), terminal, Inputs(execution, cursor, Kept(events)))
  }

  lemma InputsAreFine(execution: ExecutionId, cursor: Option<string>, events: seq<RemoteEvent>, i: nat)
    requires Consistent(events) && cursor != Some("") && i < |Kept(events)|
    ensures CheckEvent(Inputs(execution, cursor, Kept(events)), i).None?
  {
    var kept := Kept(events);
    var inputs := Inputs(execution, cursor, kept);
    KeptKeysDistinct(events);
    var k := KeptAreFirst(events, kept[i]);
    forall j | 0 <= j < i
      ensures inputs[j].receiptId != inputs[i].receiptId && inputs[j].dedupeKey != inputs[i].dedupeKey
      ensures inputs[i].localEventId.Some? ==> inputs[j].localEventId != inputs[i].localEventId
    {
      DerivedIdsDiffer(execution, kept[j], kept[i]);
    }
  }

  lemma DerivedIdsDiffer(execution: ExecutionId, a: RemoteEvent, b: RemoteEvent)
    requires KeyOf(a) != KeyOf(b)
    ensures forall cursor :: var x, y := InputFor(execution, cursor, a), InputFor(execution, cursor, b);
                             && x.receiptId != y.receiptId && x.dedupeKey != y.dedupeKey
                             && (x.localEventId.Some? ==> x.localEventId != y.localEventId)
  {
    IdentityDetermines(execution, KeyOf(a), execution, KeyOf(b));
    var s, t := EventIdentity(execution, KeyOf(a)), EventIdentity(execution, KeyOf(b));
    assert ("agent-event-receipt/" + s)[20..] == s && ("agent-event-receipt/" + t)[20..] == t;
    assert ("agent-event/" + s)[12..] == s && ("agent-event/" + t)[12..] == t;
  }

  lemma {:induction false} AllChecked(events: seq<EventInput>, i: nat)
    requires i <= |events| && forall j :: i <= j < |events| ==> CheckEvent(events, j).None?
    ensures CheckEventsFrom(events, i).None?
    decreases |events| - i
  {
    if i < |events| {
      AllChecked(events, i + 1);
    }
  }

  lemma {:induction false} NoneCounted(events: seq<EventInput>, wanted: EventInput -> bool)
    requires forall e :: e in events ==> !wanted(e)
    ensures CountIf(events, wanted) == 0
  {
    if events != [] {
      NoneCounted(events[1..], wanted);
    }
  }

  /** The command built from a normalised batch is refused only for an empty cursor. */
  lemma NormalizedCommandIsAccepted(
    execution: ExecutionId, cursorVersion: nat, cursor: Option<string>, pollAt: int, terminal: bool, events: seq<RemoteEvent>)
    requires Consistent(events)
    ensures ValidateShape(Command(execution, cursorVersion, cursor, pollAt, terminal, events)).None? <==> cursor != Some("")
  {
    if cursor != Some("") {
      var inputs := Inputs(execution, cursor, Kept(events));
      forall i | 0 <= i < |inputs| ensures CheckEvent(inputs, i).None? {
        InputsAreFine(execution, cursor, events, i);
      }
      AllChecked(inputs, 0);
      NoneCounted(inputs, HasAction);
      NoneCounted(inputs, HasOutcome);
    }
  }

  // ---------------------------------------------------------------- what the store validates

  /** An event on its own: its texts are there, and exactly authoritative events have a local one and may project. */
  ghost predicate EventFine(e: EventInput) {
    && e.kind != "" && e.payloadSchemaVersion > 0 && e.sourceEventId != Some("") && e.sourceCursor != Some("")
    && (e.authoritative <==> e.localEventId.Some?)
    && (e.projection != NoProjection ==> e.authoritative && ProjectionMatchesEvent(e))
  }

  /** Two events of one batch share nothing that identifies them. */
  ghost predicate Apart(a: EventInput, b: EventInput) {
    a.receiptId != b.receiptId && a.dedupeKey != b.dedupeKey && (a.localEventId.Some? ==> a.localEventId != b.localEventId)
  }

  /** Event `i` is the first at which the batch breaks. */
  ghost predicate BreaksAt(events: seq<EventInput>, i: nat) {
    && i < |events|
    && !(EventFine(events[i]) && forall j :: 0 <= j < i ==> Apart(events[j], events[i]))
    && forall k :: 0 <= k < i ==> EventFine(events[k]) && forall j :: 0 <= j < k ==> Apart(events[j], events[k])
  }

  /** At most one event of the batch does it. */
  ghost predicate AtMostOne(events: seq<EventInput>, does: EventInput -> bool) {
    forall i, j :: 0 <= i < j < |events| ==> !(does(events[i]) && does(events[j]))
  }

  ghost predicate BatchFine(events: seq<EventInput>) {
    && (forall i :: 0 <= i < |events| ==> EventFine(events[i]))
    && (forall i, j :: 0 <= i < j < |events| ==> Apart(events[i], events[j]))
  }

  lemma {:induction false} CountedAtMostOnce(events: seq<EventInput>, does: EventInput -> bool)
    ensures CountIf(events, does) <= 1 <==> AtMostOne(events, does)
    ensures CountIf(events, does) == 0 <==> forall i :: 0 <= i < |events| ==> !does(events[i])
  {
    if events != [] {
      var rest := events[1..];
      CountedAtMostOnce(rest, does);
      assert forall i :: 0 <= i < |rest| ==> rest[i] == events[i + 1];
      assert forall i :: 0 < i < |events| ==> events[i] == rest[i - 1];
    }
  }

  lemma NoProjectionMatches(e: EventInput)
    requires e.projection == NoProjection
    ensures ProjectionMatchesEvent(e)
  {
  }

  lemma CheckedEvent(events: seq<EventInput>, i: nat)
    requires i < |events|
    ensures CheckEvent(events, i) == None <==> EventFine(events[i]) && forall j :: 0 <= j < i ==> Apart(events[j], events[i])
    ensures CheckEvent(events, i).Some? ==> IndexOf(CheckEvent(events, i).value) == Some(i) && Tells(events, i, CheckEvent(events, i).value)
  {
    if events[i].projection == NoProjection {
      NoProjectionMatches(events[i]);
    }
  }

  /** The error is true of event `i`. */
  ghost predicate Tells(events: seq<EventInput>, i: nat, error: ShapeError)
    requires i < |events|
  {
    var e := events[i];
    match error
    case InvalidEvent(_) => e.kind == "" || e.payloadSchemaVersion == 0 || e.sourceEventId == Some("") || e.sourceCursor == Some("")
    case AuthorityMismatch(_) => e.authoritative != e.localEventId.Some?
    case ProjectionMismatch(_) => e.projection != NoProjection && (e.authoritative ==> !ProjectionMatchesEvent(e))
    case DuplicateReceipt(_) => exists j :: 0 <= j < i && events[j].receiptId == e.receiptId
    case DuplicateDedupeKey(_) => exists j :: 0 <= j < i && events[j].dedupeKey == e.dedupeKey
    case DuplicateLocalEvent(_) => e.localEventId.Some? && exists j :: 0 <= j < i && events[j].localEventId == e.localEventId
    case _ => false
  }

  function IndexOf(error: ShapeError): Option<nat> {
    match error
    case InvalidEvent(i) => Some(i)
    case AuthorityMismatch(i) => Some(i)
    case DuplicateReceipt(i) => Some(i)
    case DuplicateDedupeKey(i) => Some(i)
    case DuplicateLocalEvent(i) => Some(i)
    case ProjectionMismatch(i) => Some(i)
    case _ => None
  }

  lemma {:induction false} CheckedFrom(events: seq<EventInput>, i: nat)
    requires i <= |events|
    requires forall k :: 0 <= k < i ==> EventFine(events[k]) && forall j :: 0 <= j < k ==> Apart(events[j], events[k])
    ensures CheckEventsFrom(events, i) == None <==> BatchFine(events)
    ensures CheckEventsFrom(events, i).Some? ==>
              var error := CheckEventsFrom(events, i).value;
              IndexOf(error).Some? && BreaksAt(events, IndexOf(error).value) && Tells(events, IndexOf(error).value, error)
    decreases |events| - i
  {
    if i < |events| {
      CheckedEvent(events, i);
      if CheckEvent(events, i) == None {
        CheckedFrom(events, i + 1);
      }
    }
  }

  /** A command is well formed exactly if its cursor is not an empty text, a poll time is given, every event is fine, no
      two events share an identity, and at most one acts on the workflow and at most one ends the execution. An error about
      an event is true of it and names the first at which the batch breaks. */
  lemma ShapeIsDecided(command: AppendAgentEvents)
    ensures ValidateShape(command) == None <==>
              && command.nextCursor != Some("") && command.nextStatusPollAt.Some? && BatchFine(command.events)
              && AtMostOne(command.events, HasAction) && AtMostOne(command.events, HasOutcome)
    ensures match ValidateShape(command)
            case None => true
            case Some(InvalidCursor) => command.nextCursor == Some("")
            case Some(MissingPollSchedule) => command.nextStatusPollAt == None
            case Some(ConflictingProjection) => !AtMostOne(command.events, HasAction) || !AtMostOne(command.events, HasOutcome)
            case Some(error) =>
              IndexOf(error).Some? && BreaksAt(command.events, IndexOf(error).value) && Tells(command.events, IndexOf(error).value, error)
  {
    CheckedFrom(command.events, 0);
    CountedAtMostOnce(command.events, HasAction);
    CountedAtMostOnce(command.events, HasOutcome);
  }

  // ---------------------------------------------------------------- batch boundaries, before the store

  ghost predicate SeenIn(earlier: seq<RemoteEvent>, e: RemoteEvent) {
    exists i :: 0 <= i < |earlier| && KeyOf(earlier[i]) == KeyOf(e)
  }

  /** The events whose key does not occur in `earlier`. */
  ghost function Unseen(earlier: seq<RemoteEvent>, events: seq<RemoteEvent>): seq<RemoteEvent> {
    if events == [] then []
    else
      var n := |events| - 1;
      Unseen(earlier, events[..n]) + if SeenIn(earlier, events[n]) then [] else [events[n]]
  }

  lemma FirstInJoined(a: seq<RemoteEvent>, b: seq<RemoteEvent>, n: nat)
    requires n < |b|
    ensures First(a + b, |a| + n) <==> First(b, n) && !SeenIn(a, b[n])
  {
    var all := a + b;
    assert forall i :: 0 <= i < |a| ==> all[i] == a[i];
    assert forall j :: 0 <= j < |b| ==> all[|a| + j] == b[j];
    if First(all, |a| + n) {
      forall j | 0 <= j < n ensures KeyOf(b[j]) != KeyOf(b[n]) {
        assert all[|a| + j] == b[j];
      }
    }
    if First(b, n) && !SeenIn(a, b[n]) {
      forall i | 0 <= i < |a| + n ensures KeyOf(all[i]) != KeyOf(all[|a| + n]) {
        assert i >= |a| ==> all[i] == b[i - |a|];
      }
    }
  }

  /** Normalising two batches as one keeps what the first keeps, then what the second keeps and the first has not. */
  lemma {:induction false} BatchBoundaries(a: seq<RemoteEvent>, b: seq<RemoteEvent>)
    ensures Kept(a + b) == Kept(a) + Unseen(a, Kept(b))
  {
    if b == [] {
      assert a + b == a;
    } else {
      var n := |b| - 1;
      BatchBoundaries(a, b[..n]);
      JoinedByOne(a, b, n);
      KeptByOne(b, n);
      assert b[..n + 1] == b;
      if First(b, n) {
        UnseenByOne(a, Kept(b[..n]), b[n]);
      } else {
        assert Kept(b) == Kept(b[..n]);
      }
    }
  }

  lemma JoinedByOne(a: seq<RemoteEvent>, b: seq<RemoteEvent>, n: nat)
    requires n + 1 == |b|
    ensures Kept(a + b) == Kept(a + b[..n]) + if First(b, n) && !SeenIn(a, b[n]) then [b[n]] else []
  {
    var all := a + b;
    FirstInJoined(a, b, n);
    KeptByOne(all, |a| + n);
    assert all[..|a| + n] == a + b[..n] && all[..|a| + n + 1] == all && all[|a| + n] == b[n];
  }

  lemma UnseenByOne(earlier: seq<RemoteEvent>, events: seq<RemoteEvent>, e: RemoteEvent)
    ensures Unseen(earlier, events + [e]) == Unseen(earlier, events) + if SeenIn(earlier, e) then [] else [e]
  {
    assert (events + [e])[..|events|] == events;
  }

  // ---------------------------------------------------------------- the store's receipts

  datatype Receipt = Receipt(receiptId: DerivedId, rawDigest: Digest)

  /** The receipts of one execution by dedupe key, and the local events appended so far. */
  datatype Ledger = Ledger(receipts: map<DerivedId, Receipt>, log: seq<DerivedId>)

  datatype StoreError = RefusedShape(shape: ShapeError) | VersionConflict | IdentityReused | CommandReused

  function Store(l: Ledger, e: EventInput): Result<Ledger, StoreError> {
    if e.dedupeKey in l.receipts then
      if l.receipts[e.dedupeKey] == Receipt(e.receiptId, e.rawDigest) then Ok(l) else Err(IdentityReused)
    else
      Ok(Ledger(l.receipts[e.dedupeKey := Receipt(e.receiptId, e.rawDigest)],
                l.log + if e.localEventId.Some? then [e.localEventId.value] else []))
  }

  ghost function StoreAll(l: Ledger, events: seq<EventInput>): Result<Ledger, StoreError> {
    if events == [] then Ok(l)
    else match StoreAll(l, events[..|events| - 1])
      case Err(error) => Err(error)
      case Ok(m) => Store(m, events[|events| - 1])
  }

  lemma {:induction false} ErrorsStick(l: Ledger, events: seq<EventInput>, n: nat)
    requires n <= |events| && StoreAll(l, events[..n]).Err?
    ensures StoreAll(l, events) == StoreAll(l, events[..n])
    decreases |events| - n
  {
    if n == |events| {
      assert events[..n] == events;
    } else {
      assert events[..n + 1][..n] == events[..n];
      ErrorsStick(l, events, n + 1);
    }
  }

  /** What the request hash of a command covers. */
  datatype RequestHash = RequestHash(terminal: bool, nextCursor: Option<string>, events: seq<EventInput>)

  function HashOf(command: AppendAgentEvents): RequestHash {
    RequestHash(command.remoteTerminal, command.nextCursor, command.events)
  }

  /** The receipts that were new and those that were not. */
  datatype BatchOutcome = BatchOutcome(accepted: seq<DerivedId>, duplicates: seq<DerivedId>)

  /** One of the first `n` events has the key. */
  ghost predicate KeyAmong(events: seq<EventInput>, n: nat, k: DerivedId)
    requires n <= |events|
  {
    exists i :: 0 <= i < n && events[i].dedupeKey == k
  }

  /** Neither the ledger nor an earlier event of the command has the event's key. */
  ghost predicate IsNew(l: Ledger, events: seq<EventInput>, i: nat)
    requires i < |events|
  {
    events[i].dedupeKey !in l.receipts && !KeyAmong(events, i, events[i].dedupeKey)
  }

  /** The receipt ids of the first `n` events that are new, or of those that are not. */
  ghost function ReceiptIds(l: Ledger, events: seq<EventInput>, n: nat, isNew: bool): seq<DerivedId>
    requires n <= |events|
  {
    if n == 0 then []
    else ReceiptIds(l, events, n - 1, isNew) + if IsNew(l, events, n - 1) == isNew then [events[n - 1].receiptId] else []
  }

  lemma {:induction false} ReceiptIdsSplit(l: Ledger, events: seq<EventInput>, n: nat)
    requires n <= |events|
    ensures |ReceiptIds(l, events, n, true)| + |ReceiptIds(l, events, n, false)| == n
  {
    if n > 0 {
      ReceiptIdsSplit(l, events, n - 1);
    }
  }

  lemma {:induction false} StoredKey(l: Ledger, events: seq<EventInput>, n: nat, k: DerivedId)
    requires n <= |events| && StoreAll(l, events[..n]).Ok?
    ensures k in StoreAll(l, events[..n]).value.receipts <==> k in l.receipts || KeyAmong(events, n, k)
    decreases n
  {
    if n > 0 {
      assert events[..n][..n - 1] == events[..n - 1];
      StoredKey(l, events, n - 1, k);
      assert KeyAmong(events, n, k) <==> KeyAmong(events, n - 1, k) || events[n - 1].dedupeKey == k;
    }
  }

  lemma {:induction false} StoredCount(l: Ledger, events: seq<EventInput>, n: nat)
    requires n <= |events| && StoreAll(l, events[..n]).Ok?
    ensures |StoreAll(l, events[..n]).value.receipts| == |l.receipts| + |ReceiptIds(l, events, n, true)|
    decreases n
  {
    if n > 0 {
      assert events[..n][..n - 1] == events[..n - 1];
      StoredCount(l, events, n - 1);
      StoredKey(l, events, n - 1, events[n - 1].dedupeKey);
    }
  }

  lemma OneMoreStored(l: Ledger, events: seq<EventInput>, i: nat, staged: Ledger)
    requires i < |events| && StoreAll(l, events[..i]) == Ok(staged)
    ensures Store(staged, events[i]).Ok? ==> StoreAll(l, events[..i + 1]) == Store(staged, events[i])
    ensures Store(staged, events[i]).Err? ==> StoreAll(l, events).Err?
    ensures var known, id := events[i].dedupeKey in staged.receipts, [events[i].receiptId];
            && ReceiptIds(l, events, i + 1, true) == ReceiptIds(l, events, i, true) + (if known then [] else id)
            && ReceiptIds(l, events, i + 1, false) == ReceiptIds(l, events, i, false) + (if known then id else [])
  {
    StoredKey(l, events, i, events[i].dedupeKey);
    assert events[..i + 1][..i] == events[..i];
    if Store(staged, events[i]).Err? {
      ErrorsStick(l, events, i + 1);
    }
  }

  lemma AllStored(l: Ledger, events: seq<EventInput>, staged: Ledger)
    requires StoreAll(l, events) == Ok(staged)
    ensures |ReceiptIds(l, events, |events|, true)| + |ReceiptIds(l, events, |events|, false)| == |events|
    ensures |ReceiptIds(l, events, |events|, true)| == |staged.receipts| - |l.receipts|
  {
    assert events[..|events|] == events;
    StoredCount(l, events, |events|);
    ReceiptIdsSplit(l, events, |events|);
  }

  class AgentEvents {
    var ledger: Ledger
    var cursor: Option<string>
    var cursorVersion: nat
    /** The command receipts; a command's identity is the cursor version it expects. */
    var answered: map<nat, (RequestHash, BatchOutcome)>

    constructor ()
      ensures ledger == Ledger(map[], []) && cursor == None && cursorVersion == 0 && answered == map[]
    {
      ledger := Ledger(map[], []);
      cursor := None;
      cursorVersion := 0;
      answered := map[];
    }

    /** The command is not the replay of an answered one, and its events can be stored. */
    ghost predicate Storable(command: AppendAgentEvents)
      reads this
    {
      && command.expectedCursorVersion !in answered && command.expectedCursorVersion == cursorVersion
      && StoreAll(ledger, command.events).Ok?
    }

    /** One transaction: an answered command is answered again without effect; else all events are stored or none is. */
    method Append(command: AppendAgentEvents) returns (r: Result<BatchOutcome, StoreError>)
      modifies this
      ensures r.Err? && r.error.RefusedShape? <==> ValidateShape(command).Some?
      ensures ValidateShape(command).None? && command.expectedCursorVersion in old(answered) ==>
                var (hash, outcome) := old(answered)[command.expectedCursorVersion];
                r == if hash == HashOf(command) then Ok(outcome) else Err(CommandReused)
      ensures ValidateShape(command).None? && command.expectedCursorVersion !in old(answered) ==>
                (r.Ok? <==> old(Storable(command))) && (r == Err(VersionConflict) <==> command.expectedCursorVersion != old(cursorVersion))
      ensures if ValidateShape(command).None? && old(Storable(command))
              then
                && ledger == StoreAll(old(ledger), command.events).value && cursor == command.nextCursor
                && cursorVersion == old(cursorVersion) + 1
                && answered == old(answered)[command.expectedCursorVersion := (HashOf(command), r.value)]
                && r.value == BatchOutcome(ReceiptIds(old(ledger), command.events, |command.events|, true),
                                           ReceiptIds(old(ledger), command.events, |command.events|, false))
                && |r.value.accepted| + |r.value.duplicates| == |command.events|
                && |r.value.accepted| == |ledger.receipts| - |old(ledger).receipts|
              else
                ledger == old(ledger) && cursor == old(cursor) && cursorVersion == old(cursorVersion) && answered == old(answered)
      ensures old(cursor) != Some("") ==> cursor != Some("")
    {
      var invalid := ValidateShape(command);
      if invalid.Some? {
        return Err(RefusedShape(invalid.value));
      }
      if command.expectedCursorVersion in answered {
        var (hash, outcome) := answered[command.expectedCursorVersion];
        return if hash == HashOf(command) then Ok(outcome) else Err(CommandReused);
      }
      if cursorVersion != command.expectedCursorVersion {
        return Err(VersionConflict);
      }
      var stored := StoreEvents(ledger, command.events);
      if stored.Err? {
        return Err(stored.error);
      }
      var (after, outcome) := stored.value;
      ledger := after;
      cursor := command.nextCursor;
      answered := answered[command.expectedCursorVersion := (HashOf(command), outcome)];
      cursorVersion := cursorVersion + 1;
      r := Ok(outcome);
    }
  }

  /** The loop over the events of one command. */
  method StoreEvents(ledger: Ledger, events: seq<EventInput>) returns (r: Result<(Ledger, BatchOutcome), StoreError>)
    ensures r.Ok? <==> StoreAll(ledger, events).Ok?
    ensures r.Err? ==> r.error == IdentityReused
    ensures r.Ok? ==>
              && r.value.0 == StoreAll(ledger, events).value
              && r.value.1.accepted == ReceiptIds(ledger, events, |events|, true)
              && r.value.1.duplicates == ReceiptIds(ledger, events, |events|, false)
              && |r.value.1.accepted| + |r.value.1.duplicates| == |events|
              && |r.value.1.accepted| == |r.value.0.receipts| - |ledger.receipts|
  {
    var staged := ledger;
    var accepted, duplicates := [], [];
    for i := 0 to |events|
      invariant StoreAll(ledger, events[..i]) == Ok(staged)
      invariant accepted == ReceiptIds(ledger, events, i, true) && duplicates == ReceiptIds(ledger, events, i, false)
    {
      OneMoreStored(ledger, events, i, staged);
      var event := events[i];
      var stored := Store(staged, event);
      if stored.Err? {
        return Err(IdentityReused);
      }
      if event.dedupeKey in staged.receipts {
        duplicates := duplicates + [event.receiptId];
      } else {
        accepted := accepted + [event.receiptId];
      }
      staged := stored.value;
    }
    assert events[..|events|] == events;
    AllStored(ledger, events, staged);
    r := Ok((staged, BatchOutcome(accepted, duplicates)));
  }

  // ---------------------------------------------------------------- batch boundaries, after the store

  function ReceiptOf(execution: ExecutionId, e: RemoteEvent): Receipt {
    Receipt(InputFor(execution, None, e).receiptId, e.rawDigest)
  }

  /** What one event adds, seen on its own. */
  ghost function Absorb(execution: ExecutionId, l: Ledger, e: RemoteEvent): Ledger {
    var k := DedupeKey(execution, KeyOf(e));
    if k in l.receipts then l
    else Ledger(l.receipts[k := ReceiptOf(execution, e)],
                l.log + if e.authoritative then [InputFor(execution, None, e).localEventId.value] else [])
  }

  ghost function AbsorbAll(execution: ExecutionId, l: Ledger, events: seq<RemoteEvent>): Ledger {
    if events == [] then l
    else Absorb(execution, AbsorbAll(execution, l, events[..|events| - 1]), events[|events| - 1])
  }

  /** Well formed, and no event contradicts another or a receipt. */
  ghost predicate Clean(execution: ExecutionId, l: Ledger, events: seq<RemoteEvent>) {
    && Consistent(events)
    && forall i :: 0 <= i < |events| ==> !Contradicts(execution, l, events[i])
  }

  lemma DedupeKeyDetermines(execution: ExecutionId, a: EventKey, b: EventKey)
    ensures DedupeKey(execution, a) == DedupeKey(execution, b) <==> a == b
  {
    IdentityDetermines(execution, a, execution, b);
  }

  ghost predicate KeyedBy(execution: ExecutionId, k: DerivedId, e: RemoteEvent) {
    k == DedupeKey(execution, KeyOf(e))
  }

  lemma {:induction false} ReceiptsSurvive(execution: ExecutionId, l: Ledger, events: seq<RemoteEvent>, k: DerivedId)
    requires k in l.receipts
    ensures k in AbsorbAll(execution, l, events).receipts && AbsorbAll(execution, l, events).receipts[k] == l.receipts[k]
  {
    if events != [] {
      ReceiptsSurvive(execution, l, events[..|events| - 1], k);
    }
  }

  lemma {:induction false} NewReceiptsHaveEvents(execution: ExecutionId, l: Ledger, events: seq<RemoteEvent>, k: DerivedId)
    returns (i: nat)
    requires k in AbsorbAll(execution, l, events).receipts && k !in l.receipts
    ensures i < |events| && KeyedBy(execution, k, events[i])
    ensures AbsorbAll(execution, l, events).receipts[k] == ReceiptOf(execution, events[i])
  {
    var n := |events| - 1;
    if k in AbsorbAll(execution, l, events[..n]).receipts {
      i := NewReceiptsHaveEvents(execution, l, events[..n], k);
    } else {
      i := n;
    }
  }

  lemma EventsHaveReceipts(execution: ExecutionId, l: Ledger, events: seq<RemoteEvent>, i: nat, k: DerivedId)
    requires i < |events| && KeyedBy(execution, k, events[i])
    ensures k in AbsorbAll(execution, l, events).receipts
  {
    assert events == events[..i] + [events[i]] + events[i + 1..];
    ReceiptInTheMiddle(execution, l, events[..i], events[i], events[i + 1..], k);
  }

  lemma ReceiptInTheMiddle(execution: ExecutionId, l: Ledger, before: seq<RemoteEvent>, e: RemoteEvent, rest: seq<RemoteEvent>, k: DerivedId)
    requires KeyedBy(execution, k, e)
    ensures k in AbsorbAll(execution, l, before + [e] + rest).receipts
  {
    var upTo := before + [e];
    AbsorbAdds(execution, AbsorbAll(execution, l, before), e, k);
    AbsorbOne(execution, l, before, e);
    AbsorbJoined(execution, l, upTo, rest);
    ReceiptsSurvive(execution, AbsorbAll(execution, l, upTo), rest, k);
  }

  lemma AbsorbOne(execution: ExecutionId, l: Ledger, before: seq<RemoteEvent>, e: RemoteEvent)
    ensures AbsorbAll(execution, l, before + [e]) == Absorb(execution, AbsorbAll(execution, l, before), e)
  {
    assert (before + [e])[..|before|] == before;
  }

  lemma AbsorbAdds(execution: ExecutionId, l: Ledger, e: RemoteEvent, k: DerivedId)
    requires KeyedBy(execution, k, e)
    ensures k in Absorb(execution, l, e).receipts
  {
  }

  /** After absorbing clean events, the receipt under an event's key is that event's. */
  lemma AbsorbedReceipt(execution: ExecutionId, l: Ledger, events: seq<RemoteEvent>, i: nat)
    requires Clean(execution, l, events) && i < |events|
    ensures var k, m := DedupeKey(execution, KeyOf(events[i])), AbsorbAll(execution, l, events);
            k in m.receipts && m.receipts[k] == ReceiptOf(execution, events[i])
  {
    var k, m := DedupeKey(execution, KeyOf(events[i])), AbsorbAll(execution, l, events);
    EventsHaveReceipts(execution, l, events, i, k);
    if k in l.receipts {
      ReceiptsSurvive(execution, l, events, k);
    } else {
      var j := NewReceiptsHaveEvents(execution, l, events, k);
      DedupeKeyDetermines(execution, KeyOf(events[j]), KeyOf(events[i]));
      assert j < i ==> !Clash(events[j], events[i]);
      assert i < j ==> !Clash(events[i], events[j]);
    }
  }

  lemma CleanPrefix(execution: ExecutionId, l: Ledger, events: seq<RemoteEvent>, n: nat)
    requires n <= |events| && Clean(execution, l, events)
    ensures Clean(execution, l, events[..n])
  {
  }

  /** Storing what a clean batch normalises to is the same as absorbing its events one by one. */
  lemma {:induction false} StoreAbsorbs(execution: ExecutionId, l: Ledger, cursor: Option<string>, events: seq<RemoteEvent>)
    requires Clean(execution, l, events)
    ensures StoreAll(l, Inputs(execution, cursor, Kept(events))) == Ok(AbsorbAll(execution, l, events))
  {
    if events != [] {
      var n := |events| - 1;
      var init, e := events[..n], events[n];
      var k := DedupeKey(execution, KeyOf(e));
      CleanPrefix(execution, l, events, n);
      StoreAbsorbs(execution, l, cursor, init);
      AbsorbedReceipt(execution, l, events, n);
      InputsByOne(execution, cursor, Kept(init), e);
      if First(events, n) {
        var inputs := Inputs(execution, cursor, Kept(events));
        assert inputs[..|inputs| - 1] == Inputs(execution, cursor, Kept(init));
        FirstIsNewOrOld(execution, l, events);
      } else {
        var i :| 0 <= i < n && KeyOf(events[i]) == KeyOf(e);
        assert init[i] == events[i];
        EventsHaveReceipts(execution, l, init, i, k);
      }
    }
  }

  /** The last event meets a receipt only if the ledger had it, and then it agrees. */
  lemma FirstIsNewOrOld(execution: ExecutionId, l: Ledger, events: seq<RemoteEvent>)
    requires events != [] && Clean(execution, l, events) && First(events, |events| - 1)
    ensures var n := |events| - 1;
            var k, m := DedupeKey(execution, KeyOf(events[n])), AbsorbAll(execution, l, events[..n]);
            k in m.receipts ==> m.receipts[k] == ReceiptOf(execution, events[n])
  {
    var n := |events| - 1;
    var k, m := DedupeKey(execution, KeyOf(events[n])), AbsorbAll(execution, l, events[..n]);
    if k in l.receipts {
      ReceiptsSurvive(execution, l, events[..n], k);
    } else if k in m.receipts {
      var j := NewReceiptsHaveEvents(execution, l, events[..n], k);
      DedupeKeyDetermines(execution, KeyOf(events[j]), KeyOf(events[n]));
    }
  }

  ghost predicate Contradicts(execution: ExecutionId, l: Ledger, e: RemoteEvent) {
    var k := DedupeKey(execution, KeyOf(e));
    k in l.receipts && l.receipts[k] != ReceiptOf(execution, e)
  }

  /** Storing fails for a consistent batch that contradicts a receipt. */
  lemma StoreRefuses(execution: ExecutionId, l: Ledger, cursor: Option<string>, events: seq<RemoteEvent>)
    requires Consistent(events) && !Clean(execution, l, events)
    ensures StoreAll(l, Inputs(execution, cursor, Kept(events))) == Err(IdentityReused)
  {
    var j := KeptContradiction(execution, l, events);
    ContradictionIsFound(l, Inputs(execution, cursor, Kept(events)), j);
  }

  lemma SameContradiction(execution: ExecutionId, l: Ledger, a: RemoteEvent, b: RemoteEvent)
    requires KeyOf(a) == KeyOf(b) && a.rawDigest == b.rawDigest && Contradicts(execution, l, b)
    ensures Contradicts(execution, l, a)
  {
  }

  lemma ConsistentPair(events: seq<RemoteEvent>, i: nat, j: nat)
    requires Consistent(events) && i <= j < |events| && KeyOf(events[i]) == KeyOf(events[j])
    ensures events[i].rawDigest == events[j].rawDigest
  {
    assert i < j ==> !Clash(events[i], events[j]);
  }

  lemma KeptContradiction(execution: ExecutionId, l: Ledger, events: seq<RemoteEvent>) returns (j: nat)
    requires Consistent(events) && !Clean(execution, l, events)
    ensures j < |Kept(events)| && Contradicts(execution, l, Kept(events)[j])
  {
    var i :| 0 <= i < |events| && Contradicts(execution, l, events[i]);
    var first := KeptCovers(events, i);
    ConsistentPair(events, first, i);
    SameContradiction(execution, l, events[first], events[i]);
    j :| 0 <= j < |Kept(events)| && Kept(events)[j] == events[first];
  }

  lemma {:induction false} ReceiptsStay(l: Ledger, events: seq<EventInput>, k: DerivedId)
    requires StoreAll(l, events).Ok? && k in l.receipts
    ensures k in StoreAll(l, events).value.receipts && StoreAll(l, events).value.receipts[k] == l.receipts[k]
  {
    if events != [] {
      ReceiptsStay(l, events[..|events| - 1], k);
    }
  }

  lemma {:induction false} OnlyReuseFails(l: Ledger, events: seq<EventInput>)
    ensures StoreAll(l, events).Err? ==> StoreAll(l, events) == Err(IdentityReused)
  {
    if events != [] {
      OnlyReuseFails(l, events[..|events| - 1]);
    }
  }

  lemma ContradictionIsFound(l: Ledger, events: seq<EventInput>, j: nat)
    requires j < |events| && events[j].dedupeKey in l.receipts
    requires l.receipts[events[j].dedupeKey] != Receipt(events[j].receiptId, events[j].rawDigest)
    ensures StoreAll(l, events) == Err(IdentityReused)
  {
    assert events[..j + 1][..j] == events[..j];
    if StoreAll(l, events[..j]).Ok? {
      ReceiptsStay(l, events[..j], events[j].dedupeKey);
    }
    OnlyReuseFails(l, events[..j + 1]);
    ErrorsStick(l, events, j + 1);
  }

  ghost function Joined(batches: seq<seq<RemoteEvent>>): seq<RemoteEvent> {
    if batches == [] then [] else Joined(batches[..|batches| - 1]) + batches[|batches| - 1]
  }

  /** Each batch is normalised and stored on its own. */
  ghost function IngestBatches(execution: ExecutionId, l: Ledger, cursor: Option<string>, batches: seq<seq<RemoteEvent>>): Option<Ledger> {
    if batches == [] then Some(l)
    else
      var n := |batches| - 1;
      match IngestBatches(execution, l, cursor, batches[..n])
      case None => None
      case Some(m) =>
        if !Consistent(batches[n]) then None
        else match StoreAll(m, Inputs(execution, cursor, Kept(batches[n])))
          case Ok(after) => Some(after)
          case Err(_) => None
  }

  lemma {:induction false} AbsorbJoined(execution: ExecutionId, l: Ledger, a: seq<RemoteEvent>, b: seq<RemoteEvent>)
    ensures AbsorbAll(execution, l, a + b) == AbsorbAll(execution, AbsorbAll(execution, l, a), b)
  {
    if b == [] {
      assert a + b == a;
    } else {
      var n := |b| - 1;
      assert (a + b)[..|a + b| - 1] == a + b[..n];
      AbsorbJoined(execution, l, a, b[..n]);
    }
  }

  lemma CleanJoined(execution: ExecutionId, l: Ledger, a: seq<RemoteEvent>, b: seq<RemoteEvent>)
    requires Clean(execution, l, a)
    ensures Clean(execution, l, a + b) <==> Clean(execution, AbsorbAll(execution, l, a), b)
  {
    var all, m := a + b, AbsorbAll(execution, l, a);
    assert forall i :: 0 <= i < |a| ==> all[i] == a[i];
    assert forall j :: 0 <= j < |b| ==> all[|a| + j] == b[j];
    if Clean(execution, l, all) {
      forall i | 0 <= i < |b| ensures !Contradicts(execution, m, b[i]) {
        JoinedAgrees(execution, l, a, b, i);
      }
      ConsistentParts(a, b);
    }
    if Clean(execution, m, b) {
      forall i, j | 0 <= i < |a| && 0 <= j < |b| ensures !Clash(a[i], b[j]) {
        AbsorbedReceipt(execution, l, a, i);
        assert !Contradicts(execution, m, b[j]);
      }
      forall j | 0 <= j < |b| ensures !Contradicts(execution, l, b[j]) {
        if DedupeKey(execution, KeyOf(b[j])) in l.receipts {
          ReceiptsSurvive(execution, l, a, DedupeKey(execution, KeyOf(b[j])));
        }
        assert !Contradicts(execution, m, b[j]);
      }
      ConsistentWhole(a, b);
      forall i | 0 <= i < |all| ensures !Contradicts(execution, l, all[i]) {
        assert i >= |a| ==> all[i] == b[i - |a|];
      }
    }
  }

  lemma ConsistentWhole(a: seq<RemoteEvent>, b: seq<RemoteEvent>)
    requires Consistent(a) && Consistent(b)
    requires forall i, j :: 0 <= i < |a| && 0 <= j < |b| ==> !Clash(a[i], b[j])
    ensures Consistent(a + b)
  {
    var all := a + b;
    assert forall i :: 0 <= i < |all| ==> all[i] == if i < |a| then a[i] else b[i - |a|];
  }

  lemma ConsistentParts(a: seq<RemoteEvent>, b: seq<RemoteEvent>)
    requires Consistent(a + b)
    ensures Consistent(b)
  {
    var all := a + b;
    assert forall i :: 0 <= i < |b| ==> all[|a| + i] == b[i];
  }

  lemma JoinedAgrees(execution: ExecutionId, l: Ledger, a: seq<RemoteEvent>, b: seq<RemoteEvent>, i: nat)
    requires Clean(execution, l, a) && Clean(execution, l, a + b) && i < |b|
    ensures !Contradicts(execution, AbsorbAll(execution, l, a), b[i])
  {
    var all, k := a + b, DedupeKey(execution, KeyOf(b[i]));
    assert all[|a| + i] == b[i] && !Contradicts(execution, l, all[|a| + i]);
    if k in l.receipts {
      ReceiptsSurvive(execution, l, a, k);
    } else if k in AbsorbAll(execution, l, a).receipts {
      var j := NewReceiptsHaveEvents(execution, l, a, k);
      DedupeKeyDetermines(execution, KeyOf(a[j]), KeyOf(b[i]));
      assert all[j] == a[j] && !Clash(all[j], all[|a| + i]);
    }
  }

  /** However the remote splits its events into batches, and however often it repeats them: ingestion goes through
      exactly when the joined events are clean, and leaves the receipts and the log of the joined events. */
  lemma {:induction false} BatchingDoesNotMatter(
    execution: ExecutionId, l: Ledger, cursor: Option<string>, batches: seq<seq<RemoteEvent>>)
    ensures IngestBatches(execution, l, cursor, batches)
         == if Clean(execution, l, Joined(batches)) then Some(AbsorbAll(execution, l, Joined(batches))) else None
    decreases |batches|
  {
    if batches != [] {
      var n := |batches| - 1;
      var earlier, last := Joined(batches[..n]), batches[n];
      BatchingDoesNotMatter(execution, l, cursor, batches[..n]);
      if Clean(execution, l, earlier) {
        var m := AbsorbAll(execution, l, earlier);
        CleanJoined(execution, l, earlier, last);
        AbsorbJoined(execution, l, earlier, last);
        if Clean(execution, m, last) {
          StoreAbsorbs(execution, m, cursor, last);
        } else if Consistent(last) {
          StoreRefuses(execution, m, cursor, last);
        }
      } else if Clean(execution, l, earlier + last) {
        assert (earlier + last)[..|earlier|] == earlier;
        CleanPrefix(execution, l, earlier + last, |earlier|);
      }
    }
  }
}
