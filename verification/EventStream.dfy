/** Streaming a run's events to a client while more are appended (crates/server/src/api.rs,
    crates/store-postgres/src/query_executor.rs). */
module EventStream {
  import opened Prelude

  datatype Event = Event(sequence: nat, payload: string)

  /** Sequence numbers count from one without gaps: appending takes the run's next number. */
  predicate Numbered(log: seq<Event>) {
    forall i :: 0 <= i < |log| ==> log[i].sequence == i + 1
  }

  type Log = log: seq<Event> | Numbered(log) witness []

  /** A run's log and whether the run has ended; both are written in one transaction. */
  datatype World = World(log: Log, terminal: bool)

  /** One answer of the store, with the world as it was at that moment. */
  datatype Reply = Sees(world: World) | StoreError | RunMissing

  datatype Item = Yield(event: Event) | ErrorItem | EndTerminal | EndLost | Disconnected

  /** The stream's state and the answers that are to come; when they run out the client has gone. */
  datatype State = State(after: nat, pending: seq<Event>, failed: bool, replies: seq<Reply>)

  const PageLimit: nat := 100

  function ListEvents(log: Log, after: nat, limit: nat): (page: seq<Event>)
    ensures |page| <= limit
    ensures page == [] <==> |log| <= after || limit == 0
  {
    if after >= |log| then [] else if after + limit < |log| then log[after..after + limit] else log[after..]
  }

  /** What one call produces, and the state it leaves. */
  function Next(s: State): (Item, State)
    decreases |s.replies|
  {
    if s.failed then (EndLost, s)
    else if s.pending != [] then
      (Yield(s.pending[0]), s.(after := s.pending[0].sequence, pending := s.pending[1..]))
    else if s.replies == [] then (Disconnected, s)
    else match s.replies[0]
      case StoreError => (ErrorItem, s.(failed := true, replies := s.replies[1..]))
      case RunMissing => (ErrorItem, s.(failed := true, replies := s.replies[1..]))
      case Sees(listed) =>
        var page := ListEvents(listed.log, s.after, PageLimit);
        if page != [] then
          (Yield(page[0]), s.(after := page[0].sequence, pending := page[1..], replies := s.replies[1..]))
        else if |s.replies| == 1 then (Disconnected, s.(replies := []))
        else match s.replies[1]
          case StoreError => (EndLost, s.(replies := s.replies[2..]))
          case RunMissing => (EndLost, s.(replies := s.replies[2..]))
          case Sees(world) =>
            if world.terminal then (EndTerminal, s.(replies := s.replies[2..])) else Next(s.(replies := s.replies[2..]))
  }

  // ---------------------------------------------------------------- what stops a call

  predicate NothingNew(reply: Reply, after: nat) {
    reply.Sees? && |reply.world.log| <= after
  }

  predicate GoesOn(reply: Reply) {
    reply.Sees? && !reply.world.terminal
  }

  /** The first `k` pairs of replies are listings of nothing new and checks of a run that goes on. */
  ghost predicate Idle(replies: seq<Reply>, after: nat, k: nat) {
    2 * k <= |replies| && forall j :: 0 <= j < k ==> NothingNew(replies[2 * j], after) && GoesOn(replies[2 * j + 1])
  }

  /** After `k` idle pairs: an event that is there, a listing that failed, a check that failed or found no run, a check
      that found the run ended, or no more replies. */
  ghost predicate StopsAt(s: State, k: nat, item: Item, left: State) {
    var r, i := s.replies, 2 * k;
    && Idle(r, s.after, k)
    && match item
       case Yield(e) =>
         && i < |r| && r[i].Sees? && s.after < |r[i].world.log| && e == r[i].world.log[s.after]
         && left == State(e.sequence, ListEvents(r[i].world.log, s.after, PageLimit)[1..], false, r[i + 1..])
       case ErrorItem => i < |r| && !r[i].Sees? && left == State(s.after, [], true, r[i + 1..])
       case EndLost => i + 1 < |r| && NothingNew(r[i], s.after) && !r[i + 1].Sees? && left == s.(replies := r[i + 2..])
       case EndTerminal =>
         i + 1 < |r| && NothingNew(r[i], s.after) && r[i + 1].Sees? && r[i + 1].world.terminal && left == s.(replies := r[i + 2..])
       case Disconnected => (|r| == i || (|r| == i + 1 && NothingNew(r[i], s.after))) && left == s.(replies := [])
  }

  /** Why a call produced its item. */
  ghost predicate Stops(s: State, item: Item, left: State) {
    if s.failed then item == EndLost && left == s
    else if s.pending != [] then
      item == Yield(s.pending[0]) && left == State(s.pending[0].sequence, s.pending[1..], false, s.replies)
    else exists k :: StopsAt(s, k, item, left)
  }

  lemma {:induction false} CallStops(s: State)
    ensures Stops(s, Next(s).0, Next(s).1)
    decreases |s.replies|
  {
    var (item, left) := Next(s);
    if !s.failed && s.pending == [] {
      if |s.replies| > 1 && NothingNew(s.replies[0], s.after) && GoesOn(s.replies[1]) {
        var t := s.(replies := s.replies[2..]);
        CallStops(t);
        var k :| StopsAt(t, k, item, left);
        IdlePairBefore(s, t, k, item, left);
      } else {
        assert StopsAt(s, 0, item, left);
      }
    }
  }

  lemma IdlePairBefore(s: State, t: State, k: nat, item: Item, left: State)
    requires |s.replies| > 1 && NothingNew(s.replies[0], s.after) && GoesOn(s.replies[1])
    requires t == s.(replies := s.replies[2..]) && StopsAt(t, k, item, left)
    ensures StopsAt(s, k + 1, item, left)
  {
    forall j | 0 <= j < k + 1 ensures NothingNew(s.replies[2 * j], s.after) && GoesOn(s.replies[2 * j + 1]) {
      if j > 0 {
        assert t.replies[2 * (j - 1)] == s.replies[2 * j] && t.replies[2 * (j - 1) + 1] == s.replies[2 * j + 1];
      }
    }
    assert |t.replies| == |s.replies| - 2;
    assert forall i :: 0 <= i <= |t.replies| ==> t.replies[i..] == s.replies[i + 2..];
    assert forall i :: 0 <= i < |t.replies| ==> t.replies[i] == s.replies[i + 2];
  }

  class EventStreamState {
    var after: nat
    var pending: seq<Event>
    var failed: bool
    var replies: seq<Reply>

    function Now(): State
      reads this
    {
      State(after, pending, failed, replies)
    }

    constructor (after: nat, replies: seq<Reply>)
      ensures Now() == State(after, [], false, replies)
    {
      this.after := after;
      pending := [];
      failed := false;
      this.replies := replies;
    }

    method Ask() returns (reply: Reply)
      requires replies != []
      modifies this`replies
      ensures reply == old(replies)[0] && replies == old(replies)[1..]
    {
      reply := replies[0];
      replies := replies[1..];
    }

    /** Serves what is pending; else lists, and only if nothing was listed asks whether the run has ended. */
    method NextEvent() returns (item: Item)
      modifies this
      ensures Stops(old(Now()), item, Now())
      ensures (item, Now()) == Next(old(Now()))
    {
      CallStops(Now());
      if failed {
        return EndLost;
      }
      while true
        invariant !failed && Next(Now()) == Next(old(Now()))
        decreases |replies|, if pending == [] then 1 else 0
      {
        if pending != [] {
          var event := pending[0];
          pending := pending[1..];
          after := event.sequence;
          return Yield(event);
        }
        if replies == [] {
          return Disconnected;
        }
        ghost var was := Now();
        var listed := Ask();
        if !listed.Sees? {
          failed := true;
          return ErrorItem;
        }
        pending := pending + ListEvents(listed.world.log, after, PageLimit);
        assert pending == ListEvents(listed.world.log, after, PageLimit);
        if pending != [] {
          assert Next(Now()) == Next(was);
          continue;
        }
        if replies == [] {
          return Disconnected;
        }
        var run := Ask();
        if !run.Sees? {
          return EndLost;
        }
        if run.world.terminal {
          return EndTerminal;
        }
        assert was.replies[1..][1..] == was.replies[2..];
        assert Next(was) == Next(was.(replies := was.replies[2..]));
      }
    }
  }

  // ---------------------------------------------------------------- a log that only grows

  function SeenAfter(seen: World, reply: Reply): World {
    match reply case Sees(world) => world case _ => seen
  }

  /** The worlds that the replies show extend `seen` one after the other, and an ended run stays ended. */
  ghost predicate Grows(seen: World, replies: seq<Reply>)
    decreases |replies|
  {
    replies != [] ==>
      var world := SeenAfter(seen, replies[0]);
      seen.log <= world.log && (seen.terminal ==> world.terminal) && Grows(world, replies[1..])
  }

  /** The last world the replies show. */
  ghost function Last(seen: World, replies: seq<Reply>): World
    decreases |replies|
  {
    if replies == [] then seen else Last(SeenAfter(seen, replies[0]), replies[1..])
  }

  lemma {:induction false} LastExtends(seen: World, replies: seq<Reply>)
    requires Grows(seen, replies)
    ensures seen.log <= Last(seen, replies).log
    decreases |replies|
  {
    if replies != [] {
      LastExtends(SeenAfter(seen, replies[0]), replies[1..]);
    }
  }

  lemma TwoReplies(seen: World, replies: seq<Reply>)
    requires Grows(seen, replies) && |replies| > 1
    ensures var one := SeenAfter(seen, replies[0]);
            var two := SeenAfter(one, replies[1]);
            && seen.log <= one.log <= two.log
            && Grows(two, replies[2..]) && Last(two, replies[2..]) == Last(seen, replies)
  {
    assert replies[1..][0] == replies[1] && replies[1..][1..] == replies[2..];
  }

  /** What was yielded since `start`, and what is pending, is the stretch of the log after `start`. */
  ghost predicate Gapless(start: nat, yielded: seq<Event>, s: State, seen: World) {
    && s.after == start + |yielded|
    && Grows(seen, s.replies)
    && (yielded + s.pending != [] ==>
          start + |yielded| + |s.pending| <= |seen.log|
          && yielded + s.pending == seen.log[start..start + |yielded| + |s.pending|])
  }

  lemma PendingServed(start: nat, yielded: seq<Event>, s: State, seen: World)
    requires Gapless(start, yielded, s, seen) && !s.failed && s.pending != []
    ensures Next(s).0.Yield? && Gapless(start, yielded + [Next(s).0.event], Next(s).1, seen)
  {
    var e := s.pending[0];
    assert (yielded + s.pending)[|yielded|] == e;
    assert e == seen.log[start + |yielded|];
    assert yielded + [e] + s.pending[1..] == yielded + s.pending;
  }

  lemma PageServed(start: nat, yielded: seq<Event>, s: State, seen: World)
    requires Gapless(start, yielded, s, seen) && !s.failed && s.pending == []
    requires s.replies != [] && s.replies[0].Sees? && ListEvents(s.replies[0].world.log, s.after, PageLimit) != []
    ensures Next(s).0.Yield? && Gapless(start, yielded + [Next(s).0.event], Next(s).1, s.replies[0].world)
  {
    var log := s.replies[0].world.log;
    var page := ListEvents(log, s.after, PageLimit);
    assert yielded + [] == yielded;
    YieldedInLater(start, yielded, seen.log, log);
    JoinStretches(log, start, yielded, page);
    assert yielded + [page[0]] + page[1..] == yielded + page;
  }

  lemma YieldedInLater(start: nat, yielded: seq<Event>, log: Log, later: Log)
    requires log <= later && (yielded != [] ==> start + |yielded| <= |log| && yielded == log[start..start + |yielded|])
    ensures yielded != [] ==> yielded == later[start..start + |yielded|]
  {
  }

  lemma JoinStretches(log: Log, start: nat, yielded: seq<Event>, page: seq<Event>)
    requires page != [] && page == ListEvents(log, start + |yielded|, PageLimit)
    requires yielded != [] ==> yielded == log[start..start + |yielded|]
    ensures start + |yielded| + |page| <= |log|
    ensures yielded + page == log[start..start + |yielded| + |page|]
    ensures page[0].sequence == start + |yielded| + 1
  {
    var n := start + |yielded|;
    assert page == log[n..n + |page|];
  }

  lemma GaplessLater(start: nat, yielded: seq<Event>, s: State, seen: World, later: World, replies: seq<Reply>)
    requires Gapless(start, yielded, s, seen) && s.pending == [] && seen.log <= later.log && Grows(later, replies)
    ensures Gapless(start, yielded, s.(replies := replies), later)
  {
    assert yielded + [] == yielded;
  }

  /** One call keeps the stream gapless; `now` is the last world it saw. */
  lemma {:induction false} OneCall(start: nat, yielded: seq<Event>, s: State, seen: World) returns (now: World)
    requires Gapless(start, yielded, s, seen)
    ensures Next(s).0.Yield? ==> Gapless(start, yielded + [Next(s).0.event], Next(s).1, now)
    ensures seen.log <= now.log && Last(now, Next(s).1.replies) == Last(seen, s.replies)
    decreases |s.replies|
  {
    now := seen;
    assert yielded + [] == yielded;
    if !s.failed {
      if s.pending != [] {
        PendingServed(start, yielded, s, seen);
      } else if s.replies != [] && s.replies[0].Sees? {
        now := s.replies[0].world;
        if ListEvents(now.log, s.after, PageLimit) != [] {
          PageServed(start, yielded, s, seen);
        } else if |s.replies| > 1 && s.replies[1].Sees? {
          now := s.replies[1].world;
          TwoReplies(seen, s.replies);
          if !now.terminal {
            GaplessLater(start, yielded, s, seen, now, s.replies[2..]);
            now := OneCall(start, yielded, s.(replies := s.replies[2..]), now);
          }
        } else {
          assert |s.replies| > 1 ==> s.replies[1..][1..] == s.replies[2..];
          assert |s.replies| == 1 ==> s.replies[1..] == [];
        }
      }
    }
  }

  // ---------------------------------------------------------------- whole streams

  /** The items of `n` calls, up to the first that is not an event. */
  ghost function Items(s: State, n: nat): seq<Item>
    decreases n
  {
    if n == 0 then []
    else
      var (item, t) := Next(s);
      if item.Yield? then [item] + Items(t, n - 1) else [item]
  }

  ghost function Events(items: seq<Item>): seq<Event> {
    if items == [] then []
    else (if items[0].Yield? then [items[0].event] else []) + Events(items[1..])
  }

  lemma EventsOfItems(s: State, n: nat)
    requires n > 0
    ensures var (item, t) := Next(s);
            && Events(Items(s, n)) == (if item.Yield? then [item.event] + Events(Items(t, n - 1)) else [])
            && Items(s, n) == [item] + (if item.Yield? then Items(t, n - 1) else [])
  {
    var (item, t) := Next(s);
    if item.Yield? {
      assert Items(s, n)[1..] == Items(t, n - 1);
    } else {
      assert Items(s, n)[1..] == [];
    }
  }

  lemma {:induction false} ItemsFrom(start: nat, yielded: seq<Event>, s: State, seen: World, n: nat)
    requires Gapless(start, yielded, s, seen)
    ensures var all, log := yielded + Events(Items(s, n)), Last(seen, s.replies).log;
            all != [] ==> start + |all| <= |log| && all == log[start..start + |all|]
    decreases n
  {
    if n > 0 {
      var now := OneCall(start, yielded, s, seen);
      var (item, t) := Next(s);
      if item.Yield? {
        ItemsFrom(start, yielded + [item.event], t, now, n - 1);
        EventsOfItems(s, n);
        assert yielded + Events(Items(s, n)) == yielded + [item.event] + Events(Items(t, n - 1));
      } else {
        EventsOfItems(s, n);
        YieldedStays(start, yielded, s, seen);
      }
    } else {
      assert Events(Items(s, 0)) == [];
      YieldedStays(start, yielded, s, seen);
    }
  }

  lemma YieldedStays(start: nat, yielded: seq<Event>, s: State, seen: World)
    requires Gapless(start, yielded, s, seen)
    ensures var log := Last(seen, s.replies).log;
            yielded + [] == yielded && (yielded != [] ==> start + |yielded| <= |log| && yielded == log[start..start + |yielded|])
  {
    LastExtends(seen, s.replies);
    if yielded != [] {
      assert (yielded + s.pending)[..|yielded|] == yielded;
      assert seen.log[start..start + |yielded| + |s.pending|][..|yielded|] == seen.log[start..start + |yielded|];
    }
  }

  /** The events, if any, are a stretch of the log from `start` on. */
  ghost predicate Stretch(start: nat, events: seq<Event>, log: Log) {
    events != [] ==> start + |events| <= |log| && events == log[start..start + |events|]
  }

  lemma StreamIsStretch(start: nat, replies: seq<Reply>, first: World, n: nat)
    requires Grows(first, replies)
    ensures Stretch(start, Events(Items(State(start, [], false, replies), n)), Last(first, replies).log)
  {
    var s := State(start, [], false, replies);
    var none: seq<Event> := [];
    assert none + none == none;
    ItemsFrom(start, none, s, first, n);
    assert none + Events(Items(s, n)) == Events(Items(s, n));
  }

  /** However appends interleave with the stream's reads, it yields a gapless, ordered stretch of the log that begins
      right after the requested sequence. */
  lemma StreamIsGapless(start: nat, replies: seq<Reply>, first: World, n: nat)
    requires Grows(first, replies)
    ensures var events, log := Events(Items(State(start, [], false, replies), n)), Last(first, replies).log;
            events != [] ==> start + |events| <= |log| && events == log[start..start + |events|]
    ensures var events := Events(Items(State(start, [], false, replies), n));
            forall i :: 0 <= i < |events| ==> events[i].sequence == start + i + 1
  {
    StreamIsStretch(start, replies, first, n);
  }

  /** A client that comes back and names the last sequence it saw gets the log on from there, and nothing twice. */
  lemma ReconnectingIsGapless(start: nat, earlier: seq<Reply>, first: World, m: nat, later: seq<Reply>, n: nat)
    requires Grows(first, earlier) && Grows(Last(first, earlier), later)
    ensures var before := Events(Items(State(start, [], false, earlier), m));
            var after := Events(Items(State(start + |before|, [], false, later), n));
            var log := Last(Last(first, earlier), later).log;
            after != [] ==> Stretch(start, before + after, log)
  {
    var before := Events(Items(State(start, [], false, earlier), m));
    StreamIsStretch(start, earlier, first, m);
    StreamIsStretch(start + |before|, later, Last(first, earlier), n);
    var after := Events(Items(State(start + |before|, [], false, later), n));
    var seen := Last(first, earlier);
    LastExtends(seen, later);
    StretchesJoin(seen.log, Last(seen, later).log, start, before, after);
  }

  lemma StretchesJoin(log: Log, grown: Log, start: nat, before: seq<Event>, after: seq<Event>)
    requires log <= grown && Stretch(start, before, log) && Stretch(start + |before|, after, grown)
    ensures after != [] ==> Stretch(start, before + after, grown)
  {
    if before == [] {
      assert before + after == after;
    } else {
      assert before == grown[start..start + |before|];
    }
  }

  // ---------------------------------------------------------------- the end of a stream

  ghost predicate EndsTerminal(items: seq<Item>) {
    items != [] && items[|items| - 1].EndTerminal?
  }

  /** The state that those calls leave. */
  ghost function StateAfter(s: State, n: nat): State
    decreases n
  {
    if n == 0 then s
    else
      var (item, t) := Next(s);
      if item.Yield? then StateAfter(t, n - 1) else t
  }

  /** What a client that asked for the events after `start` could know from the log. */
  function From(log: Log, start: nat): seq<Event> {
    if start <= |log| then log[start..] else []
  }

  /** Replies `i` and `i + 1` were the last two that the stream read: a listing, then a check that found the run ended. */
  ghost predicate EndsOn(replies: seq<Reply>, i: nat, left: State) {
    && i + 1 < |replies| && replies[i].Sees? && replies[i + 1].Sees?
    && replies[i + 1].world.terminal && left.replies == replies[i + 2..]
  }

  /** Calls only ever read replies from the front. */
  lemma {:induction false} CallReads(s: State) returns (c: nat)
    ensures c <= |s.replies| && Next(s).1.replies == s.replies[c..]
    decreases |s.replies|
  {
    c := 0;
    if !s.failed && s.pending == [] && s.replies != [] {
      c := 1;
      if s.replies[0].Sees? && ListEvents(s.replies[0].world.log, s.after, PageLimit) == [] && |s.replies| > 1 {
        c := 2;
        if s.replies[1].Sees? && !s.replies[1].world.terminal {
          var d := CallReads(s.(replies := s.replies[2..]));
          SuffixOfSuffix(s.replies, 2, d);
          c := d + 2;
        }
      }
    }
  }

  lemma SuffixOfSuffix(replies: seq<Reply>, c: nat, d: nat)
    requires c <= |replies| && d <= |replies| - c
    ensures replies[c..][d..] == replies[c + d..]
    ensures forall j :: 0 <= j < |replies| - c ==> replies[c..][j] == replies[c + j]
  {
  }

  /** The stream ended on reply `i`, with exactly the events that the listing there could see. */
  ghost predicate Ended(start: nat, events: seq<Event>, replies: seq<Reply>, i: nat, left: State) {
    && EndsOn(replies, i, left)
    && replies[i].world.log <= replies[i + 1].world.log
    && events == From(replies[i].world.log, start)
  }

  lemma EndedLater(start: nat, events: seq<Event>, replies: seq<Reply>, c: nat, j: nat, left: State)
    requires c <= |replies| && Ended(start, events, replies[c..], j, left)
    ensures Ended(start, events, replies, c + j, left)
  {
    SuffixOfSuffix(replies, c, j + 2);
    assert replies[c + j] == replies[c..][j] && replies[c + j + 1] == replies[c..][j + 1];
  }

  /** A call that ends the stream had listed everything there was to see. */
  lemma {:induction false} CallEnds(start: nat, yielded: seq<Event>, s: State, seen: World) returns (i: nat)
    requires Gapless(start, yielded, s, seen) && Next(s).0.EndTerminal?
    ensures Ended(start, yielded, s.replies, i, Next(s).1)
    decreases |s.replies|
  {
    assert yielded + [] == yielded;
    TwoReplies(seen, s.replies);
    var world := s.replies[1].world;
    if world.terminal {
      i := 0;
    } else {
      var rest := s.replies[2..];
      GaplessLater(start, yielded, s, seen, world, rest);
      var j := CallEnds(start, yielded, s.(replies := rest), world);
      EndedLater(start, yielded, s.replies, 2, j, Next(s).1);
      i := j + 2;
    }
  }

  lemma EndedFromHere(
    start: nat, yielded: seq<Event>, e: Event, rest: seq<Event>, replies: seq<Reply>, c: nat, j: nat, left: State)
    requires c <= |replies| && Ended(start, yielded + [e] + rest, replies[c..], j, left)
    ensures Ended(start, yielded + ([e] + rest), replies, c + j, left)
  {
    EndedLater(start, yielded + [e] + rest, replies, c, j, left);
    AppendOne(yielded, e, rest);
  }

  lemma {:induction false} StreamEnds(start: nat, yielded: seq<Event>, s: State, seen: World, n: nat) returns (i: nat)
    requires Gapless(start, yielded, s, seen) && EndsTerminal(Items(s, n))
    ensures Ended(start, yielded + Events(Items(s, n)), s.replies, i, StateAfter(s, n))
    decreases n, 1
  {
    EventsOfItems(s, n);
    if Next(s).0.Yield? {
      i := StreamEndsLater(start, yielded, s, seen, n);
    } else {
      i := CallEnds(start, yielded, s, seen);
      assert yielded + [] == yielded;
    }
  }

  lemma {:induction false} StreamEndsLater(start: nat, yielded: seq<Event>, s: State, seen: World, n: nat) returns (i: nat)
    requires Gapless(start, yielded, s, seen) && n > 0 && Next(s).0.Yield? && EndsTerminal(Items(s, n))
    ensures Ended(start, yielded + Events(Items(s, n)), s.replies, i, StateAfter(s, n))
    decreases n, 0
  {
    var e, t := Next(s).0.event, Next(s).1;
    EventsOfItems(s, n);
    var now := OneCall(start, yielded, s, seen);
    var j := StreamEnds(start, yielded + [e], t, now, n - 1);
    var c := CallReads(s);
    EndedFromHere(start, yielded, e, Events(Items(t, n - 1)), s.replies, c, j, StateAfter(t, n - 1));
    i := c + j;
  }

  lemma AppendOne(yielded: seq<Event>, e: Event, rest: seq<Event>)
    ensures yielded + ([e] + rest) == yielded + [e] + rest
  {
  }

  /** A stream that ends as terminal ended on a listing and a status check among the replies it read. It has yielded
      everything that listing could see after the requested sequence, and it misses something exactly if the log that
      the status check saw reaches past that sequence and is longer than the one that was listed. */
  lemma TerminalEnd(start: nat, replies: seq<Reply>, first: World, n: nat) returns (i: nat)
    requires Grows(first, replies)
    requires EndsTerminal(Items(State(start, [], false, replies), n))
    ensures EndsOn(replies, i, StateAfter(State(start, [], false, replies), n))
    ensures var events := Events(Items(State(start, [], false, replies), n));
            var listed, checked := replies[i].world, replies[i + 1].world;
            && events == From(listed.log, start)
            && (events != From(checked.log, start) <==> |checked.log| > start && checked.log != listed.log)
  {
    var s := State(start, [], false, replies);
    var none: seq<Event> := [];
    assert none + none == none;
    i := StreamEnds(start, none, s, first, n);
    assert none + Events(Items(s, n)) == Events(Items(s, n));
    MissedIff(start, replies[i].world.log, replies[i + 1].world.log);
  }

  lemma MissedIff(start: nat, listed: Log, checked: Log)
    requires listed <= checked
    ensures From(listed, start) != From(checked, start) <==> |checked| > start && checked != listed
  {
    if |listed| == |checked| {
      assert listed == checked;
    } else if |checked| > start {
      assert |From(listed, start)| < |From(checked, start)|;
    }
  }

  /** So the terminal event itself can be missed: it commits after the listing and before the status check. */
  lemma TerminalEventIsMissed(last: Event)
    requires last.sequence == 1
    ensures var before, after := World([], false), World([last], true);
            var replies := [Sees(before), Sees(after)];
            Grows(before, replies) && Items(State(0, [], false, replies), 1) == [EndTerminal]
  {
    var before, after := World([], false), World([last], true);
    var replies := [Sees(before), Sees(after)];
    assert replies[1..] == [Sees(after)] && replies[1..][1..] == [];
    assert Grows(after, []);
  }

  // ---------------------------------------------------------------- progress

  /** Every reply sees the run, and it has not ended. */
  ghost predicate Live(replies: seq<Reply>) {
    forall i :: 0 <= i < |replies| ==> GoesOn(replies[i])
  }

  /** Everything that the listing saw up to the sequence `asked`, and then the page that it gave for `asked`. */
  ghost predicate Served(start: nat, events: seq<Event>, listed: Log, asked: nat) {
    && start <= asked && asked - start <= |From(listed, start)|
    && events == From(listed, start)[..asked - start] + ListEvents(listed, asked, PageLimit)
  }

  /** The listing was the last of the replies, or the last but one. */
  ghost predicate AmongLast(replies: seq<Reply>, listed: Log) {
    exists i :: 0 <= i < |replies| && |replies| - 2 <= i && replies[i].Sees? && replies[i].world.log == listed
  }

  /** Enough calls use up all replies. */
  ghost predicate EnoughFor(s: State, n: nat) {
    n > |s.pending| + PageLimit * |s.replies|
  }

  /** What the calls yield, after what was yielded before, is what the listing served. */
  ghost predicate Drained(start: nat, yielded: seq<Event>, s: State, n: nat, listed: Log, asked: nat) {
    Served(start, yielded + Events(Items(s, n)), listed, asked)
  }

  /** A listing that was made with nothing pending is served from where the stream stands. */
  lemma ListingServes(start: nat, yielded: seq<Event>, s: State, seen: World)
    requires Gapless(start, yielded, s, seen) && s.pending == [] && s.replies != [] && s.replies[0].Sees?
    ensures var listed := s.replies[0].world.log;
            Served(start, yielded + ListEvents(listed, s.after, PageLimit), listed, s.after)
  {
    var listed := s.replies[0].world.log;
    assert yielded + [] == yielded;
    YieldedInLater(start, yielded, seen.log, listed);
    if yielded != [] {
      assert From(listed, start)[..s.after - start] == yielded;
    } else {
      assert From(listed, start)[..0] == yielded;
    }
  }

  lemma DrainedByOne(start: nat, yielded: seq<Event>, s: State, n: nat, e: Event, t: State, listed: Log, asked: nat)
    requires n > 0 && Next(s) == (Yield(e), t) && Drained(start, yielded + [e], t, n - 1, listed, asked)
    ensures Drained(start, yielded, s, n, listed, asked)
  {
    EventsOfItems(s, n);
    AppendOne(yielded, e, Events(Items(t, n - 1)));
  }

  lemma DrainedAlike(start: nat, yielded: seq<Event>, s: State, n: nat, t: State, listed: Log, asked: nat)
    requires n > 0 && Next(s) == Next(t) && Drained(start, yielded, t, n, listed, asked)
    ensures Drained(start, yielded, s, n, listed, asked)
  {
    assert Items(s, n) == Items(t, n);
  }

  ghost predicate EndsDisconnected(items: seq<Item>) {
    items != [] && items[|items| - 1].Disconnected?
  }

  /** While the run goes on and the store answers, only the client ends the stream. */
  lemma {:induction false} LiveStreamsEndWithTheClient(s: State, n: nat)
    requires !s.failed && Live(s.replies) && EnoughFor(s, n)
    ensures EndsDisconnected(Items(s, n))
    decreases |s.replies|, |s.pending|
  {
    EventsOfItems(s, n);
    var (item, t) := Next(s);
    if s.pending != [] {
      LiveStreamsEndWithTheClient(t, n - 1);
    } else if s.replies != [] {
      assert GoesOn(s.replies[0]);
      var page := ListEvents(s.replies[0].world.log, s.after, PageLimit);
      if page != [] {
        LiveRest(s.replies, 1);
        LiveStreamsEndWithTheClient(t, n - 1);
      } else if |s.replies| > 1 {
        assert GoesOn(s.replies[1]);
        LiveRest(s.replies, 2);
        LiveStreamsEndWithTheClient(s.(replies := s.replies[2..]), n);
      }
    }
  }

  lemma DrainedAtEnd(start: nat, yielded: seq<Event>, s: State, n: nat, listed: Log, asked: nat)
    requires n > 0 && Next(s).0.Disconnected? && Served(start, yielded, listed, asked)
    ensures Drained(start, yielded, s, n, listed, asked)
  {
    EventsOfItems(s, n);
    assert yielded + [] == yielded;
  }

  lemma PendingPasses(start: nat, yielded: seq<Event>, s: State, seen: World, n: nat, last: Log, at: nat)
    requires Gapless(start, yielded, s, seen) && !s.failed && s.pending != [] && EnoughFor(s, n)
    requires Served(start, yielded + s.pending, last, at)
    ensures var e, t := s.pending[0], Next(s).1;
            && Next(s) == (Yield(e), t) && Gapless(start, yielded + [e], t, seen) && !t.failed && EnoughFor(t, n - 1)
            && t.replies == s.replies && |t.pending| < |s.pending| && Served(start, yielded + [e] + t.pending, last, at)
  {
    PendingServed(start, yielded, s, seen);
    assert yielded + [s.pending[0]] + s.pending[1..] == yielded + s.pending;
  }

  /** `last` is the listing whose page is being served. */
  lemma {:induction false} Drains(start: nat, yielded: seq<Event>, s: State, seen: World, n: nat, last: Log, at: nat)
    returns (listed: Log, asked: nat)
    requires Gapless(start, yielded, s, seen) && !s.failed && Live(s.replies) && EnoughFor(s, n)
    requires s.pending != [] || s.replies == [] ==> Served(start, yielded + s.pending, last, at)
    ensures Drained(start, yielded, s, n, listed, asked)
    ensures if s.replies == [] then listed == last else AmongLast(s.replies, listed)
    decreases |s.replies|, |s.pending| + 1, 1
  {
    if s.pending != [] {
      listed, asked := PendingDrains(start, yielded, s, seen, n, last, at);
    } else if s.replies != [] {
      listed, asked := ListingDrains(start, yielded, s, seen, n);
    } else {
      listed, asked := last, at;
      assert yielded + [] == yielded;
      DrainedAtEnd(start, yielded, s, n, listed, asked);
    }
  }

  lemma {:induction false} PendingDrains(start: nat, yielded: seq<Event>, s: State, seen: World, n: nat, last: Log, at: nat)
    returns (listed: Log, asked: nat)
    requires Gapless(start, yielded, s, seen) && !s.failed && Live(s.replies) && EnoughFor(s, n)
    requires s.pending != [] && Served(start, yielded + s.pending, last, at)
    ensures Drained(start, yielded, s, n, listed, asked)
    ensures if s.replies == [] then listed == last else AmongLast(s.replies, listed)
    decreases |s.replies|, |s.pending| + 1, 0
  {
    PendingPasses(start, yielded, s, seen, n, last, at);
    listed, asked := Drains(start, yielded + [s.pending[0]], Next(s).1, seen, n - 1, last, at);
    DrainedByOne(start, yielded, s, n, s.pending[0], Next(s).1, listed, asked);
  }

  lemma {:induction false} ListingDrains(start: nat, yielded: seq<Event>, s: State, seen: World, n: nat) returns (listed: Log, asked: nat)
    requires Gapless(start, yielded, s, seen) && !s.failed && Live(s.replies) && EnoughFor(s, n)
    requires s.pending == [] && s.replies != []
    ensures Drained(start, yielded, s, n, listed, asked) && AmongLast(s.replies, listed)
    decreases |s.replies|, 0, 1
  {
    ListingServes(start, yielded, s, seen);
    assert GoesOn(s.replies[0]);
    if ListEvents(s.replies[0].world.log, s.after, PageLimit) != [] {
      listed, asked := PageDrains(start, yielded, s, seen, n);
    } else {
      assert yielded + [] == yielded;
      listed, asked := IdleDrains(start, yielded, s, seen, n);
    }
  }

  lemma {:induction false} PageDrains(start: nat, yielded: seq<Event>, s: State, seen: World, n: nat) returns (listed: Log, asked: nat)
    requires Gapless(start, yielded, s, seen) && !s.failed && Live(s.replies) && EnoughFor(s, n)
    requires s.pending == [] && s.replies != [] && ListEvents(s.replies[0].world.log, s.after, PageLimit) != []
    requires Served(start, yielded + ListEvents(s.replies[0].world.log, s.after, PageLimit), s.replies[0].world.log, s.after)
    ensures Drained(start, yielded, s, n, listed, asked) && AmongLast(s.replies, listed)
    decreases |s.replies|, 0, 0
  {
    var world := s.replies[0].world;
    var page := ListEvents(world.log, s.after, PageLimit);
    PageServed(start, yielded, s, seen);
    var t := Next(s).1;
    assert yielded + [page[0]] + page[1..] == yielded + page;
    LiveRest(s.replies, 1);
    listed, asked := Drains(start, yielded + [page[0]], t, world, n - 1, world.log, s.after);
    DrainedByOne(start, yielded, s, n, page[0], t, listed, asked);
    LaterIsLast(s.replies, 1, listed);
  }

  lemma {:induction false} IdleDrains(start: nat, yielded: seq<Event>, s: State, seen: World, n: nat) returns (listed: Log, asked: nat)
    requires Gapless(start, yielded, s, seen) && !s.failed && Live(s.replies) && EnoughFor(s, n)
    requires s.pending == [] && s.replies != [] && ListEvents(s.replies[0].world.log, s.after, PageLimit) == []
    requires Served(start, yielded, s.replies[0].world.log, s.after)
    ensures Drained(start, yielded, s, n, listed, asked) && AmongLast(s.replies, listed)
    decreases |s.replies|, 0, 0
  {
    var world := s.replies[0].world;
    if |s.replies| == 1 {
      listed, asked := world.log, s.after;
      DrainedAtEnd(start, yielded, s, n, listed, asked);
    } else {
      assert GoesOn(s.replies[1]);
      var t := s.(replies := s.replies[2..]);
      TwoReplies(seen, s.replies);
      GaplessLater(start, yielded, s, seen, s.replies[1].world, t.replies);
      LiveRest(s.replies, 2);
      assert yielded + [] == yielded;
      listed, asked := Drains(start, yielded, t, s.replies[1].world, n, world.log, s.after);
      DrainedAlike(start, yielded, s, n, t, listed, asked);
      LaterIsLast(s.replies, 2, listed);
    }
  }

  lemma LiveRest(replies: seq<Reply>, c: nat)
    requires Live(replies) && c <= |replies|
    ensures Live(replies[c..])
  {
  }

  lemma LaterIsLast(replies: seq<Reply>, c: nat, listed: Log)
    requires 1 <= c <= 2 && c <= |replies| && replies[0].Sees?
    requires if replies[c..] == [] then listed == replies[0].world.log else AmongLast(replies[c..], listed)
    ensures AmongLast(replies, listed)
  {
    if replies[c..] != [] {
      var i :| 0 <= i < |replies[c..]| && |replies[c..]| - 2 <= i && replies[c..][i].Sees? && replies[c..][i].world.log == listed;
      assert replies[c + i] == replies[c..][i];
    }
  }

  /** While the run goes on and the store answers, the stream ends only when the client leaves, and by then it has yielded
      everything that its last listing showed; all of the log after the requested sequence unless the page was full. */
  lemma LiveStreamsDrain(start: nat, replies: seq<Reply>, first: World, n: nat) returns (listed: Log, asked: nat)
    requires Grows(first, replies) && Live(replies) && replies != [] && n > PageLimit * |replies|
    ensures var items := Items(State(start, [], false, replies), n);
            && EndsDisconnected(items)
            && AmongLast(replies, listed) && Served(start, Events(items), listed, asked)
            && (|ListEvents(listed, asked, PageLimit)| < PageLimit ==> Events(items) == From(listed, start))
  {
    var s := State(start, [], false, replies);
    var none: seq<Event> := [];
    assert none + none == none;
    assert s.pending == [] && Gapless(start, none, s, first);
    LiveStreamsEndWithTheClient(s, n);
    listed, asked := ListingDrains(start, none, s, first, n);
    assert none + Events(Items(s, n)) == Events(Items(s, n));
    if |ListEvents(listed, asked, PageLimit)| < PageLimit {
      PartPage(start, Events(Items(s, n)), listed, asked);
    }
  }

  lemma PartPage(start: nat, events: seq<Event>, listed: Log, asked: nat)
    requires Served(start, events, listed, asked) && |ListEvents(listed, asked, PageLimit)| < PageLimit
    ensures events == From(listed, start)
  {
    if start <= |listed| {
      assert ListEvents(listed, asked, PageLimit) == listed[asked..];
      assert listed[start..][..asked - start] + listed[asked..] == listed[start..];
    }
  }
}
