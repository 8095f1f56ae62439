/** Paging through due work and maintenance work by key while rows come and go
    (crates/store-postgres/src/query_executor.rs, crates/server/src/maintenance.rs). */
module KeysetScan {
  import opened Prelude
  import opened Text
  import opened RecoveryInput

  /** The database's sort key: due time, then the kind as text, then the id's bytes. */
  datatype Key = Key(due: int, kind: string, id: seq<Byte>)

  predicate IdBefore(a: seq<Byte>, b: seq<Byte>) {
    b != [] && (a == [] || a[0] < b[0] || (a[0] == b[0] && IdBefore(a[1..], b[1..])))
  }

  predicate Less(a: Key, b: Key) {
    a.due < b.due || (a.due == b.due && (Before(a.kind, b.kind) || (a.kind == b.kind && IdBefore(a.id, b.id))))
  }

  lemma {:induction false} IdOrder(a: seq<Byte>, b: seq<Byte>)
    ensures IdBefore(a, b) || a == b || IdBefore(b, a)
    ensures !(IdBefore(a, b) && IdBefore(b, a)) && (a == b ==> !IdBefore(a, b))
  {
    if a != [] && b != [] && a[0] == b[0] {
      IdOrder(a[1..], b[1..]);
      assert a == [a[0]] + a[1..] && b == [b[0]] + b[1..];
    }
  }

  lemma {:induction false} IdTransitive(a: seq<Byte>, b: seq<Byte>, c: seq<Byte>)
    requires IdBefore(a, b) && IdBefore(b, c)
    ensures IdBefore(a, c)
  {
    if a != [] && a[0] == b[0] && b[0] == c[0] {
      IdTransitive(a[1..], b[1..], c[1..]);
    }
  }

  /** Keys are totally ordered. */
  lemma KeyOrder(a: Key, b: Key)
    ensures Less(a, b) || a == b || Less(b, a)
    ensures !(Less(a, b) && Less(b, a)) && (a == b ==> !Less(a, b))
  {
    BeforeTotal(a.kind, b.kind);
    IdOrder(a.id, b.id);
  }

  lemma KeyTransitive(a: Key, b: Key, c: Key)
    requires Less(a, b) && Less(b, c)
    ensures Less(a, c)
  {
    if a.due == b.due && b.due == c.due {
      if Before(a.kind, b.kind) && Before(b.kind, c.kind) {
        BeforeTransitive(a.kind, b.kind, c.kind);
      } else if a.kind == b.kind && b.kind == c.kind {
        IdTransitive(a.id, b.id, c.id);
      }
    }
  }

  /** The kinds as the database spells them; their text order is not the order of the enumeration. */
  function DatabaseKind(kind: DueWorkKind): string {
    match kind case ToolRetry => "tool_retry" case AgentRetry => "agent_retry"
  }

  lemma AgentRetriesComeFirst(due: int, tool: seq<Byte>, agent: seq<Byte>)
    ensures Less(Key(due, DatabaseKind(AgentRetry), agent), Key(due, DatabaseKind(ToolRetry), tool))
  {
  }

  // ---------------------------------------------------------------- one page

  ghost predicate Ascending(keys: seq<Key>) {
    forall i, j :: 0 <= i < j < |keys| ==> Less(keys[i], keys[j])
  }

  /** The rows of the scanned view, in the order of its index. */
  type Table = t: seq<Key> | Ascending(t) witness []

  datatype Page = Page(keys: seq<Key>, nextCursor: Option<Key>)

  datatype ScanError = ZeroLimit | UnreadableRow

  const MaxPageSize: nat := 1000

  predicate Past(cursor: Option<Key>, key: Key) {
    cursor.None? || Less(cursor.value, key)
  }

  /** The first `limit` rows past the cursor. */
  function Fetch(table: seq<Key>, cursor: Option<Key>, limit: nat): seq<Key> {
    if table == [] || limit == 0 then []
    else if Past(cursor, table[0]) then [table[0]] + Fetch(table[1..], cursor, limit - 1)
    else Fetch(table[1..], cursor, limit)
  }

  /** A page is the next stretch of the table after the cursor; it names a next cursor exactly if rows remain. */
  ghost predicate PageOf(table: seq<Key>, cursor: Option<Key>, page: Page) {
    && Ascending(page.keys)
    && (forall k :: k in page.keys <==> k in table && Past(cursor, k) && (page.nextCursor.Some? ==> !Less(page.nextCursor.value, k)))
    && (page.nextCursor.Some? ==> page.keys != [] && page.nextCursor.value == page.keys[|page.keys| - 1])
    && (page.nextCursor.Some? ==> exists k :: k in table && Less(page.nextCursor.value, k))
  }

  lemma {:induction false} FetchSelects(table: seq<Key>, cursor: Option<Key>, limit: nat)
    requires Ascending(table)
    ensures var rows := Fetch(table, cursor, limit);
            Ascending(rows) && |rows| <= limit && forall k :: k in rows ==> k in table && Past(cursor, k)
  {
    if table != [] && limit > 0 {
      if Past(cursor, table[0]) {
        var more := Fetch(table[1..], cursor, limit - 1);
        FetchSelects(table[1..], cursor, limit - 1);
        assert Ascending([table[0]]);
        JoinedAscending([table[0]], more);
      } else {
        FetchSelects(table[1..], cursor, limit);
      }
    }
  }

  lemma {:induction false} FetchSkipsNothing(table: seq<Key>, cursor: Option<Key>, limit: nat, k: Key)
    requires Ascending(table) && k in table && Past(cursor, k)
    ensures var rows := Fetch(table, cursor, limit);
            k in rows || (|rows| == limit && forall r :: r in rows ==> Less(r, k))
  {
    if limit > 0 {
      if k == table[0] {
        assert k in Fetch(table, cursor, limit);
      } else {
        assert k in table[1..] && Less(table[0], k);
        FetchSkipsNothing(table[1..], cursor, if Past(cursor, table[0]) then limit - 1 else limit, k);
      }
    }
  }

  lemma FetchIsPrefix(table: seq<Key>, cursor: Option<Key>, limit: nat)
    requires Ascending(table)
    ensures var rows := Fetch(table, cursor, limit);
            && Ascending(rows) && |rows| <= limit
            && (forall k :: k in rows ==> k in table && Past(cursor, k))
            && (forall k :: k in table && Past(cursor, k) && k !in rows ==>
                  |rows| == limit && forall r :: r in rows ==> Less(r, k))
  {
    FetchSelects(table, cursor, limit);
    forall k | k in table && Past(cursor, k) && k !in Fetch(table, cursor, limit)
      ensures |Fetch(table, cursor, limit)| == limit && forall r :: r in Fetch(table, cursor, limit) ==> Less(r, k)
    {
      FetchSkipsNothing(table, cursor, limit, k);
    }
  }

  /** Fetches one row more than the page holds, to learn whether there is a next page. */
  function PageAfter(table: seq<Key>, after: Option<Key>, pageSize: nat): Page
    requires pageSize > 0
  {
    var rows := Fetch(table, after, pageSize + 1);
    if |rows| > pageSize then Page(rows[..pageSize], Some(rows[pageSize - 1])) else Page(rows, None)
  }

  lemma PageAfterIsNext(table: seq<Key>, after: Option<Key>, pageSize: nat)
    requires Ascending(table) && pageSize > 0
    ensures var page := PageAfter(table, after, pageSize);
            PageOf(table, after, page) && |page.keys| <= pageSize && (page.nextCursor.Some? ==> |page.keys| == pageSize)
  {
    FetchIsPrefix(table, after, pageSize + 1);
    PageCut(table, after, Fetch(table, after, pageSize + 1), pageSize);
  }

  predicate AllReadable(keys: seq<Key>, readable: Key -> bool) {
    forall k :: k in keys ==> readable(k)
  }

  /** One unreadable row fails its whole page; a row that was fetched only to be counted is not read. */
  method Scan(table: Table, after: Option<Key>, limit: nat, readable: Key -> bool) returns (r: Result<Page, ScanError>)
    ensures r == Err(ZeroLimit) <==> limit == 0
    ensures limit > 0 ==> exists page :: PageOf(table, after, page)
                            && |page.keys| <= limit && |page.keys| <= 1000
                            && (page.nextCursor.Some? ==> |page.keys| == if limit < 1000 then limit else 1000)
                            && r == if AllReadable(page.keys, readable) then Ok(page) else Err(UnreadableRow)
  {
    if limit == 0 {
      return Err(ZeroLimit);
    }
    var pageSize := if limit < MaxPageSize then limit else MaxPageSize;
    var page := PageAfter(table, after, pageSize);
    PageAfterIsNext(table, after, pageSize);
    r := if AllReadable(page.keys, readable) then Ok(page) else Err(UnreadableRow);
  }

  lemma PageCut(table: seq<Key>, after: Option<Key>, rows: seq<Key>, pageSize: nat)
    requires Ascending(table) && Ascending(rows) && 0 < pageSize && |rows| <= pageSize + 1
    requires forall k :: k in rows ==> k in table && Past(after, k)
    requires forall k :: k in table && Past(after, k) && k !in rows ==> |rows| == pageSize + 1 && forall r :: r in rows ==> Less(r, k)
    ensures PageOf(table, after,
                   if |rows| > pageSize then Page(rows[..pageSize], Some(rows[pageSize - 1])) else Page(rows, None))
  {
    if |rows| > pageSize {
      var keys, last := rows[..pageSize], rows[pageSize - 1];
      assert rows[pageSize] in rows;
      forall k ensures k in keys <==> k in table && Past(after, k) && !Less(last, k) {
        if k in keys {
          var i :| 0 <= i < pageSize && keys[i] == k;
          assert rows[i] == k;
          KeyOrder(k, last);
        }
        if k in table && Past(after, k) && !Less(last, k) {
          assert last in rows;
          var i :| 0 <= i < |rows| && rows[i] == k;
          assert i < pageSize;
          assert keys[i] == k;
        }
      }
    }
  }

  // ---------------------------------------------------------------- a whole sweep

  /** One page of a sweep, with the table as it was at that moment. */
  datatype Visit = Visit(table: Table, page: Page)

  /** Pages that follow each other from `start`, each at its own state of the table. */
  ghost predicate Sweep(start: Option<Key>, visits: seq<Visit>)
    decreases |visits|
  {
    visits != [] ==>
      && PageOf(visits[0].table, start, visits[0].page)
      && (|visits| > 1 ==> visits[0].page.nextCursor.Some? && Sweep(visits[0].page.nextCursor, visits[1..]))
  }

  ghost predicate Finished(visits: seq<Visit>) {
    visits != [] && visits[|visits| - 1].page.nextCursor.None?
  }

  ghost function Returned(visits: seq<Visit>): seq<Key> {
    if visits == [] then [] else visits[0].page.keys + Returned(visits[1..])
  }

  lemma {:induction false} SweepStaysPast(start: Option<Key>, visits: seq<Visit>, k: Key)
    requires Sweep(start, visits) && k in Returned(visits)
    ensures Past(start, k)
    decreases |visits|
  {
    if k !in visits[0].page.keys {
      SweepStaysPast(visits[0].page.nextCursor, visits[1..], k);
      var last := visits[0].page.nextCursor.value;
      assert last in visits[0].page.keys;
      if start.Some? {
        KeyTransitive(start.value, last, k);
      }
    }
  }

  /** Whatever happens to the table between pages, the keys of a sweep strictly increase: nothing comes twice. */
  lemma {:induction false} SweepAscends(start: Option<Key>, visits: seq<Visit>)
    requires Sweep(start, visits)
    ensures Ascending(Returned(visits))
    decreases |visits|
  {
    if |visits| > 1 {
      var page, rest := visits[0].page, Returned(visits[1..]);
      SweepAscends(page.nextCursor, visits[1..]);
      forall a, b | a in page.keys && b in rest ensures Less(a, b) {
        SweepStaysPast(page.nextCursor, visits[1..], b);
        assert !Less(page.nextCursor.value, a);
        KeyOrder(a, page.nextCursor.value);
        if a != page.nextCursor.value {
          KeyTransitive(a, page.nextCursor.value, b);
        }
      }
      JoinedAscending(page.keys, rest);
    } else if |visits| == 1 {
      assert Returned(visits[1..]) == [];
      assert Returned(visits) == visits[0].page.keys;
    }
  }

  lemma JoinedAscending(a: seq<Key>, b: seq<Key>)
    requires Ascending(a) && Ascending(b) && forall x, y :: x in a && y in b ==> Less(x, y)
    ensures Ascending(a + b)
  {
    var all := a + b;
    forall i, j | 0 <= i < j < |all| ensures Less(all[i], all[j]) {
      assert all[i] == (if i < |a| then a[i] else b[i - |a|]) && all[j] == if j < |a| then a[j] else b[j - |a|];
    }
  }

  /** A row that keeps its key throughout a finished sweep is returned. */
  lemma {:induction false} NothingStaysUnseen(start: Option<Key>, visits: seq<Visit>, k: Key)
    requires Sweep(start, visits) && Finished(visits) && Past(start, k)
    requires forall i :: 0 <= i < |visits| ==> k in visits[i].table
    ensures k in Returned(visits)
    decreases |visits|
  {
    var page := visits[0].page;
    if k !in page.keys {
      assert page.nextCursor.Some? && Less(page.nextCursor.value, k);
      assert |visits| > 1;
      NothingStaysUnseen(page.nextCursor, visits[1..], k);
    }
  }

  /** Exactly one page returns it. */
  lemma {:induction false} SeenInOnePage(start: Option<Key>, visits: seq<Visit>, k: Key)
    requires Sweep(start, visits) && Finished(visits) && Past(start, k)
    requires forall i :: 0 <= i < |visits| ==> k in visits[i].table
    ensures exists i :: 0 <= i < |visits| && k in visits[i].page.keys
                        && forall j :: 0 <= j < |visits| && k in visits[j].page.keys ==> j == i
    decreases |visits|
  {
    var page := visits[0].page;
    if k in page.keys {
      forall j | 0 < j < |visits| && k in visits[j].page.keys ensures false {
        PageIsReturned(visits[1..], j - 1, k);
        SweepStaysPast(page.nextCursor, visits[1..], k);
      }
    } else {
      assert page.nextCursor.Some? && Less(page.nextCursor.value, k);
      SeenInOnePage(page.nextCursor, visits[1..], k);
      var i :| 0 <= i < |visits| - 1 && k in visits[1..][i].page.keys
               && forall j :: 0 <= j < |visits| - 1 && k in visits[1..][j].page.keys ==> j == i;
      assert k in visits[i + 1].page.keys;
      forall j | 0 <= j < |visits| && k in visits[j].page.keys ensures j == i + 1 {
        assert j > 0 && k in visits[1..][j - 1].page.keys;
      }
    }
  }

  lemma {:induction false} PageIsReturned(visits: seq<Visit>, i: nat, k: Key)
    requires i < |visits| && k in visits[i].page.keys
    ensures k in Returned(visits)
  {
    if i > 0 {
      PageIsReturned(visits[1..], i - 1, k);
    }
  }

  /** Every returned key was in the table when its page was read. */
  lemma {:induction false} OnlyRowsAreReturned(start: Option<Key>, visits: seq<Visit>, k: Key)
    requires Sweep(start, visits) && k in Returned(visits)
    ensures exists i :: 0 <= i < |visits| && k in visits[i].page.keys && k in visits[i].table
    decreases |visits|
  {
    if k !in visits[0].page.keys {
      OnlyRowsAreReturned(visits[0].page.nextCursor, visits[1..], k);
      var i :| 0 <= i < |visits| - 1 && k in visits[1..][i].page.keys && k in visits[1..][i].table;
      assert k in visits[i + 1].page.keys;
    }
  }

  /** On a table that does not change, the pages of a finished sweep join to the sorted table. */
  lemma StaticSweepIsTheTable(visits: seq<Visit>, table: Table)
    requires Sweep(None, visits) && Finished(visits) && forall i :: 0 <= i < |visits| ==> visits[i].table == table
    ensures Returned(visits) == table
  {
    SweepAscends(None, visits);
    forall k ensures k in Returned(visits) <==> k in table {
      if k in table {
        NothingStaysUnseen(None, visits, k);
      }
      if k in Returned(visits) {
        OnlyRowsAreReturned(None, visits, k);
      }
    }
    SortedOnce(Returned(visits), table);
  }

  lemma {:induction false} SortedOnce(a: seq<Key>, b: seq<Key>)
    requires Ascending(a) && Ascending(b) && forall k :: k in a <==> k in b
    ensures a == b
  {
    assert a != [] ==> a[0] in a && a[0] in b;
    assert b != [] ==> b[0] in b && b[0] in a;
    if a != [] && b != [] {
      SmallestFirst(a, b);
      forall k ensures k in a[1..] <==> k in b[1..] {
        TailWithoutHead(a, k);
        TailWithoutHead(b, k);
      }
      SortedOnce(a[1..], b[1..]);
      assert a == [a[0]] + a[1..] && b == [b[0]] + b[1..];
    }
  }

  lemma SmallestFirst(a: seq<Key>, b: seq<Key>)
    requires Ascending(a) && Ascending(b) && a != [] && b != [] && a[0] in b && b[0] in a
    ensures a[0] == b[0]
  {
    KeyOrder(a[0], b[0]);
  }

  lemma TailWithoutHead(a: seq<Key>, k: Key)
    requires Ascending(a) && a != []
    ensures k in a[1..] <==> k in a && k != a[0]
  {
    KeyOrder(a[0], a[0]);
  }

  // ---------------------------------------------------------------- the maintenance job

  datatype Applied = Changed | Unchanged | ApplyFailed

  datatype Activity = Idle | Progress(completed: nat, failed: nat)

  /** One tick: the scan failed, or read a page. */
  datatype Tick = ScanFailed | Scanned(visit: Visit)

  class MaintenancePollingJob {
    var cursor: Option<Key>
    const pageSize: nat

    constructor (pageSize: nat)
      ensures cursor == None && this.pageSize == pageSize
    {
      cursor := None;
      this.pageSize := pageSize;
    }

    /** The cursor moves on only if the scan succeeded; how the candidates fare does not matter to it. */
    method RunOnce(table: Table, scanWorks: bool, readable: Key -> bool, apply: Key -> Applied) returns (activity: Result<Activity, ()>, ghost tick: Tick)
      modifies this
      ensures !scanWorks || pageSize == 0 ==> activity.Err?
      ensures scanWorks && pageSize > 0 && (forall k :: k in table ==> readable(k)) ==> activity.Ok?
      ensures activity.Err? ==> tick.ScanFailed? && cursor == old(cursor)
      ensures activity.Ok? ==> tick.Scanned? && tick.visit.table == table
      ensures activity.Ok? ==> PageOf(table, old(cursor), tick.visit.page) && cursor == tick.visit.page.nextCursor
      ensures activity.Ok? ==> (activity.value.Idle? <==> tick.visit.page.keys == [])
      ensures activity.Ok? && activity.value.Progress? ==>
                && activity.value.completed == Count(tick.visit.page.keys, apply, Changed)
                && activity.value.failed == Count(tick.visit.page.keys, apply, ApplyFailed)
    {
      tick := ScanFailed;
      if !scanWorks {
        return Err(()), tick;
      }
      var scanned := Scan(table, cursor, pageSize, readable);
      if scanned.Err? {
        return Err(()), tick;
      }
      var page := scanned.value;
      var completed, failed := 0, 0;
      for i := 0 to |page.keys|
        invariant cursor == old(cursor)
        invariant completed == Count(page.keys[..i], apply, Changed)
        invariant failed == Count(page.keys[..i], apply, ApplyFailed)
      {
        assert page.keys[..i + 1][..i] == page.keys[..i];
        match apply(page.keys[i]) {
          case Changed => completed := completed + 1;
          case Unchanged =>
          case ApplyFailed => failed := failed + 1;
        }
      }
      assert page.keys[..|page.keys|] == page.keys;
      cursor := page.nextCursor;
      tick := Scanned(Visit(table, page));
      activity := Ok(if |page.keys| == 0 then Idle else Progress(completed, failed));
    }
  }

  ghost function Count(keys: seq<Key>, apply: Key -> Applied, wanted: Applied): nat {
    if keys == [] then 0
    else Count(keys[..|keys| - 1], apply, wanted) + if apply(keys[|keys| - 1]) == wanted then 1 else 0
  }

  /** Ticks of the job from a cursor, ending with another. */
  ghost predicate Ticks(from: Option<Key>, ticks: seq<Tick>, to: Option<Key>)
    decreases |ticks|
  {
    if ticks == [] then from == to
    else match ticks[0]
      case ScanFailed => Ticks(from, ticks[1..], to)
      case Scanned(visit) => PageOf(visit.table, from, visit.page) && Ticks(visit.page.nextCursor, ticks[1..], to)
  }

  ghost function Visits(ticks: seq<Tick>): seq<Visit> {
    if ticks == [] then []
    else (match ticks[0] case ScanFailed => [] case Scanned(visit) => [visit]) + Visits(ticks[1..])
  }

  /** No tick but the last ended a sweep. */
  ghost predicate Unfinished(ticks: seq<Tick>) {
    forall i :: 0 <= i < |ticks| - 1 && ticks[i].Scanned? ==> ticks[i].visit.page.nextCursor.Some?
  }

  /** Failed scans cost time but not the place: the other ticks up to the end of a sweep are a sweep. */
  lemma {:induction false} FailedScansKeepThePlace(from: Option<Key>, ticks: seq<Tick>)
    requires Ticks(from, ticks, None) && Unfinished(ticks) && ticks != [] && ticks[|ticks| - 1].Scanned?
    ensures Sweep(from, Visits(ticks)) && Finished(Visits(ticks))
    decreases |ticks|
  {
    if |ticks| == 1 {
      assert Visits(ticks[1..]) == [];
      assert Visits(ticks) == [ticks[0].visit];
    } else {
      var rest := ticks[1..];
      assert forall i :: 0 <= i < |rest| ==> rest[i] == ticks[i + 1];
      match ticks[0] {
        case ScanFailed =>
          FailedScansKeepThePlace(from, rest);
          assert Visits(ticks) == Visits(rest);
        case Scanned(visit) =>
          FailedScansKeepThePlace(visit.page.nextCursor, rest);
          assert Visits(ticks)[1..] == Visits(rest);
      }
    }
  }
}
