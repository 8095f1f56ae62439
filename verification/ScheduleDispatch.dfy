/** What one tick of the schedule scanner fires, and what repeated ticks add up to (crates/server/src/schedule.rs). */
module ScheduleDispatch {
  import opened Prelude

  /** A parsed Cron expression in a time zone: the next fire time after an instant, and whether an instant
      matches the expression. In a daylight-saving gap a next fire time need not match. */
  datatype Cron = Cron(next: int -> Option<int>, includes: int -> bool)

  ghost predicate Advancing(cron: Cron) {
    forall t :: cron.next(t).Some? ==> cron.next(t).value > t
  }

  datatype MisfirePolicy = Skip | FireOnce | CatchUp

  datatype ConcurrencyPolicy = Allow | Forbid

  /** The fixed part of a schedule; no Cron when the persisted text no longer parses. */
  datatype Definition = Definition(
    cron: Option<Cron>,
    misfirePolicy: MisfirePolicy,
    concurrencyPolicy: ConcurrencyPolicy,
    catchUpLimit: nat)

  datatype DispatchPlan = DispatchPlan(fires: seq<int>, nextFireAt: int)

  datatype PlanError = InvalidDefinition | NoLaterFireTime

  const MaxCatchUpLimit: nat := 100

  function Limit(d: Definition): (limit: nat)
    ensures 1 <= limit <= MaxCatchUpLimit
  {
    if d.catchUpLimit < 1 then 1 else if d.catchUpLimit > MaxCatchUpLimit then MaxCatchUpLimit else d.catchUpLimit
  }

  function JumpAfter(cron: Cron, fires: seq<int>, now: int): Result<DispatchPlan, PlanError> {
    match cron.next(now)
    case Some(next) => Ok(DispatchPlan(fires, next))
    case None => Err(NoLaterFireTime)
  }

  function CatchUpFrom(cron: Cron, cursor: int, now: int, limit: nat): Result<DispatchPlan, PlanError>
    decreases limit
  {
    if cursor > now || limit == 0 then Ok(DispatchPlan([], cursor))
    else match cron.next(cursor)
      case None => Err(NoLaterFireTime)
      case Some(next) =>
        match CatchUpFrom(cron, next, now, limit - 1)
        case Err(error) => Err(error)
        case Ok(plan) => Ok(DispatchPlan([cursor] + plan.fires, plan.nextFireAt))
  }

  function PlanFor(d: Definition, nextFireAt: int, now: int): Result<DispatchPlan, PlanError> {
    if nextFireAt > now then Ok(DispatchPlan([], nextFireAt))
    else match d.cron
      case None => Err(InvalidDefinition)
      case Some(cron) =>
        if !cron.includes(nextFireAt) then JumpAfter(cron, [], now)
        else match d.misfirePolicy
          case Skip => JumpAfter(cron, [], now)
          case FireOnce => JumpAfter(cron, [nextFireAt], now)
          case CatchUp => CatchUpFrom(cron, nextFireAt, now, Limit(d))
  }

  lemma CatchUpStep(cron: Cron, cursor: int, now: int, limit: nat, fires: seq<int>)
    requires cursor <= now && limit > 0 && cron.next(cursor).Some?
    ensures Prefixed(fires, CatchUpFrom(cron, cursor, now, limit))
         == Prefixed(fires + [cursor], CatchUpFrom(cron, cron.next(cursor).value, now, limit - 1))
  {
    var rest := CatchUpFrom(cron, cron.next(cursor).value, now, limit - 1);
    if rest.Ok? {
      assert fires + ([cursor] + rest.value.fires) == fires + [cursor] + rest.value.fires;
    }
  }

  ghost function Prefixed(fires: seq<int>, r: Result<DispatchPlan, PlanError>): Result<DispatchPlan, PlanError> {
    match r case Err(error) => Err(error) case Ok(plan) => Ok(DispatchPlan(fires + plan.fires, plan.nextFireAt))
  }

  /** One tick's plan, as the scanner computes it. */
  method PlanDispatch(d: Definition, nextFireAt: int, now: int) returns (r: Result<DispatchPlan, PlanError>)
    ensures r == PlanFor(d, nextFireAt, now)
    ensures r.Ok? ==> Intended(d, nextFireAt, now, r.value)
    ensures r == Err(InvalidDefinition) <==> nextFireAt <= now && d.cron == None
    ensures r == Err(NoLaterFireTime) ==> d.cron.Some? && exists t :: t <= now && d.cron.value.next(t) == None
  {
    PlanIsIntended(d, nextFireAt, now);
    if nextFireAt > now {
      return Ok(DispatchPlan([], nextFireAt));
    }
    if d.cron.None? {
      return Err(InvalidDefinition);
    }
    var cron := d.cron.value;
    if !cron.includes(nextFireAt) || d.misfirePolicy.Skip? {
      return JumpAfter(cron, [], now);
    }
    if d.misfirePolicy.FireOnce? {
      return JumpAfter(cron, [nextFireAt], now);
    }
    var fires := [];
    var cursor := nextFireAt;
    var limit := Limit(d);
    assert forall plan: DispatchPlan :: [] + plan.fires == plan.fires;
    while cursor <= now && |fires| < limit
      invariant |fires| <= limit
      invariant PlanFor(d, nextFireAt, now) == Prefixed(fires, CatchUpFrom(cron, cursor, now, limit - |fires|))
      decreases limit - |fires|
    {
      var next := cron.next(cursor);
      if next.None? {
        return Err(NoLaterFireTime);
      }
      CatchUpStep(cron, cursor, now, limit - |fires|, fires);
      fires := fires + [cursor];
      cursor := next.value;
    }
    assert fires + [] == fires;
    r := Ok(DispatchPlan(fires, cursor));
  }

  // ---------------------------------------------------------------- the chain of occurrences

  /** The occurrence `n` steps after `from`, if there are that many. */
  ghost function Chain(cron: Cron, from: int, n: nat): Option<int> {
    if n == 0 then Some(from)
    else match Chain(cron, from, n - 1)
      case None => None
      case Some(t) => cron.next(t)
  }

  lemma {:induction false} ChainFrom(cron: Cron, from: int, m: nat, n: nat)
    requires Chain(cron, from, m).Some?
    ensures Chain(cron, from, m + n) == Chain(cron, Chain(cron, from, m).value, n)
  {
    if n > 0 {
      ChainFrom(cron, from, m, n - 1);
      assert m + n - 1 == m + (n - 1);
    }
  }

  lemma {:induction false} ChainPrefix(cron: Cron, from: int, m: nat, n: nat)
    requires m <= n && Chain(cron, from, n).Some?
    ensures Chain(cron, from, m).Some?
    decreases n - m
  {
    if m < n {
      ChainPrefix(cron, from, m + 1, n);
    }
  }

  lemma {:induction false} ChainAscends(cron: Cron, from: int, m: nat, n: nat)
    requires Advancing(cron) && m <= n && Chain(cron, from, n).Some?
    ensures Chain(cron, from, m).Some? && Chain(cron, from, m).value + (n - m) <= Chain(cron, from, n).value
    decreases n - m
  {
    ChainPrefix(cron, from, m, n);
    if m < n {
      ChainPrefix(cron, from, m + 1, n);
      ChainAscends(cron, from, m + 1, n);
    }
  }

  ghost function ChainList(cron: Cron, from: int, n: nat): seq<int>
    requires Chain(cron, from, n).Some?
  {
    seq(n, i requires 0 <= i < n => (ChainPrefix(cron, from, i, n); Chain(cron, from, i).value))
  }

  /** What catching up fires: the chain from the cursor, as far as `now` and the limit allow. */
  lemma {:induction false} CatchUpFollowsChain(cron: Cron, cursor: int, now: int, limit: nat)
    requires CatchUpFrom(cron, cursor, now, limit).Ok?
    ensures var plan := CatchUpFrom(cron, cursor, now, limit).value;
            && |plan.fires| <= limit
            && Chain(cron, cursor, |plan.fires|) == Some(plan.nextFireAt)
            && plan.fires == ChainList(cron, cursor, |plan.fires|)
            && (forall i :: 0 <= i < |plan.fires| ==> plan.fires[i] <= now)
            && (|plan.fires| == limit || plan.nextFireAt > now)
    decreases limit
  {
    if cursor <= now && limit > 0 {
      var next := cron.next(cursor).value;
      CatchUpFollowsChain(cron, next, now, limit - 1);
      var rest := CatchUpFrom(cron, next, now, limit - 1).value;
      var n := |rest.fires|;
      assert Chain(cron, cursor, 1) == Some(next) by {
        assert Chain(cron, cursor, 0) == Some(cursor);
      }
      ChainFrom(cron, cursor, 1, n);
      var all := ChainList(cron, cursor, n + 1);
      forall i | 0 <= i < n ensures all[i + 1] == rest.fires[i] {
        ChainFrom(cron, cursor, 1, i);
      }
      assert all == [cursor] + rest.fires;
    }
  }

  /** What one tick is to do: nothing before its time; past now in one step, without a run in a gap or when skipping and
      with one run when firing once; or the chain from the cursor, at least one and at most a hundred occurrences. */
  ghost predicate Intended(d: Definition, nextFireAt: int, now: int, plan: DispatchPlan) {
    && (nextFireAt > now ==> plan == DispatchPlan([], nextFireAt))
    && (nextFireAt <= now ==>
          d.cron.Some? &&
          var cron, n := d.cron.value, |plan.fires|;
          && (!cron.includes(nextFireAt) || d.misfirePolicy == Skip ==> n == 0 && cron.next(now) == Some(plan.nextFireAt))
          && (cron.includes(nextFireAt) && d.misfirePolicy == FireOnce ==>
                plan.fires == [nextFireAt] && cron.next(now) == Some(plan.nextFireAt))
          && (cron.includes(nextFireAt) && d.misfirePolicy == CatchUp ==>
                && 1 <= n <= 100 && (1 <= d.catchUpLimit ==> n <= d.catchUpLimit)
                && Chain(cron, nextFireAt, n) == Some(plan.nextFireAt) && plan.fires == ChainList(cron, nextFireAt, n)
                && (forall i :: 0 <= i < n ==> plan.fires[i] <= now)
                && (plan.nextFireAt > now || n == 100 || n == d.catchUpLimit || (n == 1 && d.catchUpLimit < 1))))
  }

  lemma {:induction false} CatchUpFails(cron: Cron, cursor: int, now: int, limit: nat) returns (t: int)
    requires CatchUpFrom(cron, cursor, now, limit).Err?
    ensures t <= now && cron.next(t) == None
    decreases limit
  {
    if cron.next(cursor) == None {
      t := cursor;
    } else {
      t := CatchUpFails(cron, cron.next(cursor).value, now, limit - 1);
    }
  }

  lemma PlanIsIntended(d: Definition, nextFireAt: int, now: int)
    ensures var r := PlanFor(d, nextFireAt, now);
            && (r.Ok? ==> Intended(d, nextFireAt, now, r.value))
            && (r == Err(NoLaterFireTime) ==> d.cron.Some? && exists t :: t <= now && d.cron.value.next(t) == None)
  {
    var r := PlanFor(d, nextFireAt, now);
    if nextFireAt <= now && d.cron.Some? && d.cron.value.includes(nextFireAt) && d.misfirePolicy.CatchUp? {
      if r.Ok? {
        CatchUpFollowsChain(d.cron.value, nextFireAt, now, Limit(d));
      } else {
        var t := CatchUpFails(d.cron.value, nextFireAt, now, Limit(d));
      }
    }
  }

  /** Whatever the policy, a due schedule's cursor moves strictly forward. */
  lemma PlanAdvances(d: Definition, nextFireAt: int, now: int)
    requires d.cron.Some? ==> Advancing(d.cron.value)
    requires nextFireAt <= now && PlanFor(d, nextFireAt, now).Ok?
    ensures PlanFor(d, nextFireAt, now).value.nextFireAt > nextFireAt
  {
    var plan := PlanFor(d, nextFireAt, now).value;
    var cron := d.cron.value;
    if cron.includes(nextFireAt) && d.misfirePolicy.CatchUp? {
      CatchUpFollowsChain(cron, nextFireAt, now, Limit(d));
      assert |plan.fires| > 0;
      ChainAscends(cron, nextFireAt, 0, |plan.fires|);
    }
  }

  // ---------------------------------------------------------------- draining a backlog

  datatype Drained = Drained(fires: seq<int>, ticks: nat, cursor: int)

  /** Ticks at a fixed `now` until nothing is due. */
  ghost function Drain(d: Definition, cursor: int, now: int): Result<Drained, PlanError>
    requires d.cron.Some? ==> Advancing(d.cron.value)
    decreases if cursor <= now then now - cursor + 1 else 0
  {
    if cursor > now then Ok(Drained([], 0, cursor))
    else match PlanFor(d, cursor, now)
      case Err(error) => Err(error)
      case Ok(plan) =>
        PlanAdvances(d, cursor, now);
        match Drain(d, plan.nextFireAt, now)
        case Err(error) => Err(error)
        case Ok(rest) => Ok(Drained(plan.fires + rest.fires, rest.ticks + 1, rest.cursor))
  }

  /** Exactly `n` occurrences of the chain are due. */
  ghost predicate Due(cron: Cron, from: int, now: int, n: nat) {
    && Chain(cron, from, n).Some? && Chain(cron, from, n).value > now
    && forall i :: 0 <= i < n ==> Chain(cron, from, i).Some? && Chain(cron, from, i).value <= now
  }

  /** The occurrences at which a tick starts all match the expression. */
  ghost predicate TickStartsMatch(cron: Cron, from: int, limit: nat, n: nat)
    requires limit > 0
  {
    forall i :: 0 <= i < n && i % limit == 0 ==> Chain(cron, from, i).Some? && cron.includes(Chain(cron, from, i).value)
  }

  lemma DueAfter(cron: Cron, from: int, now: int, n: nat, m: nat)
    requires Due(cron, from, now, n) && m <= n
    ensures Due(cron, Chain(cron, from, m).value, now, n - m)
  {
    ChainPrefix(cron, from, m, n);
    ChainFrom(cron, from, m, n - m);
    forall i | 0 <= i < n - m
      ensures Chain(cron, Chain(cron, from, m).value, i) == Chain(cron, from, m + i)
    {
      ChainFrom(cron, from, m, i);
    }
  }

  lemma TickStartsAfter(cron: Cron, from: int, limit: nat, n: nat)
    requires 0 < limit <= n && Chain(cron, from, n).Some? && cron.includes(from)
    ensures Chain(cron, from, limit).Some?
    ensures TickStartsMatch(cron, from, limit, n)
       <==> TickStartsMatch(cron, Chain(cron, from, limit).value, limit, n - limit)
  {
    ChainPrefix(cron, from, limit, n);
    if TickStartsMatch(cron, from, limit, n) {
      LaterStartsMatch(cron, from, limit, n);
    }
    if TickStartsMatch(cron, Chain(cron, from, limit).value, limit, n - limit) {
      AllStartsMatch(cron, from, limit, n);
    }
  }

  lemma LaterStartsMatch(cron: Cron, from: int, limit: nat, n: nat)
    requires 0 < limit <= n && Chain(cron, from, limit).Some? && TickStartsMatch(cron, from, limit, n)
    ensures TickStartsMatch(cron, Chain(cron, from, limit).value, limit, n - limit)
  {
    var later := Chain(cron, from, limit).value;
    forall j | 0 <= j < n - limit && j % limit == 0
      ensures Chain(cron, later, j).Some? && cron.includes(Chain(cron, later, j).value)
    {
      ChainFrom(cron, from, limit, j);
      Wraps(j, limit);
      assert Chain(cron, from, j + limit).Some?;
    }
  }

  lemma AllStartsMatch(cron: Cron, from: int, limit: nat, n: nat)
    requires 0 < limit <= n && Chain(cron, from, limit).Some? && cron.includes(from)
    requires TickStartsMatch(cron, Chain(cron, from, limit).value, limit, n - limit)
    ensures TickStartsMatch(cron, from, limit, n)
  {
    var later := Chain(cron, from, limit).value;
    forall i | 0 <= i < n && i % limit == 0
      ensures Chain(cron, from, i).Some? && cron.includes(Chain(cron, from, i).value)
    {
      if i < limit {
        QuotientUnique(i, limit, 0, i);
      } else {
        ChainFrom(cron, from, limit, i - limit);
        Wraps(i - limit, limit);
        assert Chain(cron, later, i - limit).Some?;
      }
    }
  }

  lemma Wraps(i: nat, d: nat)
    requires d > 0
    ensures (i + d) % d == i % d && (i + d) / d == i / d + 1
  {
    var q, r := i / d, i % d;
    assert i + d == (q + 1) * d + r;
    QuotientUnique(i + d, d, q + 1, r);
  }

  lemma QuotientUnique(x: nat, d: nat, q: nat, r: nat)
    requires 0 <= r < d && x == q * d + r
    ensures x / d == q && x % d == r
  {
    var q', r' := x / d, x % d;
    assert x == q' * d + r';
    assert q * d - q' * d == (q - q') * d && q' * d - q * d == (q' - q) * d;
    if q > q' {
      AtLeastOnce(d, q - q');
    } else if q < q' {
      AtLeastOnce(d, q' - q);
    }
  }

  lemma AtLeastOnce(d: nat, k: nat)
    requires k >= 1
    ensures k * d >= d
  {
  }

  /** One tick at a matching cursor fires the next `limit` due occurrences. */
  lemma TickTakesLimit(cron: Cron, from: int, now: int, limit: nat, n: nat)
    requires Due(cron, from, now, n)
    ensures var m := if n < limit then n else limit;
            Chain(cron, from, m).Some?
            && CatchUpFrom(cron, from, now, limit) == Ok(DispatchPlan(ChainList(cron, from, m), Chain(cron, from, m).value))
    decreases limit
  {
    var m := if n < limit then n else limit;
    ChainPrefix(cron, from, m, n);
    if n > 0 && limit > 0 {
      assert Chain(cron, from, 0) == Some(from);
      assert Chain(cron, from, 0).value <= now;
      ChainPrefix(cron, from, 1, n);
      var next := cron.next(from).value;
      assert Chain(cron, from, 1) == Some(next);
      DueAfter(cron, from, now, n, 1);
      TickTakesLimit(cron, next, now, limit - 1, n - 1);
      CatchUpFollowsChain(cron, from, now, limit);
      ChainFrom(cron, from, 1, m - 1);
      assert |CatchUpFrom(cron, from, now, limit).value.fires| == m;
    } else {
      assert from > now || limit == 0;
      assert ChainList(cron, from, 0) == [];
    }
  }

  lemma ChainListSplit(cron: Cron, from: int, m: nat, n: nat)
    requires m <= n && Chain(cron, from, n).Some?
    ensures Chain(cron, from, m).Some? && Chain(cron, Chain(cron, from, m).value, n - m).Some?
    ensures ChainList(cron, from, n) == ChainList(cron, from, m) + ChainList(cron, Chain(cron, from, m).value, n - m)
  {
    ChainPrefix(cron, from, m, n);
    ChainFrom(cron, from, m, n - m);
    forall i | 0 <= i < n - m ensures Chain(cron, Chain(cron, from, m).value, i) == Chain(cron, from, m + i) {
      ChainFrom(cron, from, m, i);
    }
  }

  /** The whole backlog is fired in order, in ceil(n / limit) ticks, if every occurrence at which a tick starts
      matches; otherwise the rest of the backlog is dropped. */
  ghost predicate DrainsExactly(d: Definition, from: int, now: int, n: nat)
    requires d.cron.Some? && Advancing(d.cron.value) && Due(d.cron.value, from, now, n)
  {
    var cron, limit := d.cron.value, Limit(d);
    if TickStartsMatch(cron, from, limit, n)
    then Drain(d, from, now) == Ok(Drained(ChainList(cron, from, n), (n + limit - 1) / limit, Chain(cron, from, n).value))
    else Drain(d, from, now).Ok? ==> |Drain(d, from, now).value.fires| < n
  }

  /** So catching up fires the whole backlog exactly when every occurrence at which a tick starts matches. */
  lemma {:induction false} DrainIsComplete(d: Definition, from: int, now: int, n: nat)
    requires d.cron.Some? && Advancing(d.cron.value) && d.misfirePolicy.CatchUp?
    requires Due(d.cron.value, from, now, n)
    ensures DrainsExactly(d, from, now, n)
    decreases n
  {
    var cron, limit := d.cron.value, Limit(d);
    assert Chain(cron, from, 0) == Some(from);
    if n == 0 {
      assert ChainList(cron, from, 0) == [];
      QuotientUnique(limit - 1, limit, 0, limit - 1);
    } else if !cron.includes(from) {
      assert Chain(cron, from, 0).value <= now;
      assert 0 % limit == 0;
      assert !TickStartsMatch(cron, from, limit, n);
    } else {
      var m := if n < limit then n else limit;
      ChainPrefix(cron, from, m, n);
      DueAfter(cron, from, now, n, m);
      DrainIsComplete(d, Chain(cron, from, m).value, now, n - m);
      if n < limit {
        LastTick(d, from, now, n);
      } else {
        FullTick(d, from, now, n);
      }
    }
  }

  /** The other policies clear any backlog in one tick: nothing or one run is fired, and the cursor jumps past `now`. */
  lemma OtherPoliciesDrainAtOnce(d: Definition, from: int, now: int)
    requires d.cron.Some? && Advancing(d.cron.value) && !d.misfirePolicy.CatchUp? && from <= now
    ensures var cron := d.cron.value;
            Drain(d, from, now) == match cron.next(now)
                                   case None => Err(NoLaterFireTime)
                                   case Some(next) => Ok(Drained(if d.misfirePolicy.FireOnce? && cron.includes(from) then [from] else [], 1, next))
  {
    var cron := d.cron.value;
    if cron.next(now).Some? {
      var next := cron.next(now).value;
      assert Drain(d, next, now) == Ok(Drained([], 0, next));
      var none: seq<int> := [];
      assert none + none == none && [from] + none == [from];
    }
  }

  lemma LastTick(d: Definition, from: int, now: int, n: nat)
    requires d.cron.Some? && Advancing(d.cron.value) && d.misfirePolicy.CatchUp?
    requires Due(d.cron.value, from, now, n) && 0 < n < Limit(d) && d.cron.value.includes(from)
    ensures DrainsExactly(d, from, now, n)
  {
    var cron, limit := d.cron.value, Limit(d);
    DrainOneTick(d, from, now, n);
    ShortBacklogMatches(cron, from, limit, n);
    QuotientUnique(n + limit - 1, limit, 1, n - 1);
    assert Chain(cron, from, n).value > now;
    assert ChainList(cron, from, n) + [] == ChainList(cron, from, n);
  }

  lemma FullTick(d: Definition, from: int, now: int, n: nat)
    requires d.cron.Some? && Advancing(d.cron.value) && d.misfirePolicy.CatchUp?
    requires Due(d.cron.value, from, now, n) && n >= Limit(d) && d.cron.value.includes(from)
    requires var later := Chain(d.cron.value, from, Limit(d));
             later.Some? && Due(d.cron.value, later.value, now, n - Limit(d)) && DrainsExactly(d, later.value, now, n - Limit(d))
    ensures DrainsExactly(d, from, now, n)
  {
    var cron, limit := d.cron.value, Limit(d);
    var later := Chain(cron, from, limit).value;
    var rest := Drain(d, later, now);
    DrainOneTick(d, from, now, n);
    TickStartsAfter(cron, from, limit, n);
    ChainFrom(cron, from, limit, n - limit);
    if TickStartsMatch(cron, from, limit, n) {
      OneTickMore(n, limit);
      assert rest.Ok? && rest.value.ticks + 1 == (n + limit - 1) / limit;
    } else {
      assert rest.Ok? ==> |rest.value.fires| < n - limit;
    }
  }

  lemma OneTickMore(n: nat, limit: nat)
    requires 0 < limit <= n
    ensures (n + limit - 1) / limit == (n - limit + limit - 1) / limit + 1
  {
    Wraps(n - 1, limit);
    assert n - limit + limit - 1 == n - 1 && n - 1 + limit == n + limit - 1;
  }

  lemma DrainOneTick(d: Definition, from: int, now: int, n: nat)
    requires d.cron.Some? && Advancing(d.cron.value) && d.misfirePolicy.CatchUp?
    requires Due(d.cron.value, from, now, n) && n > 0 && d.cron.value.includes(from)
    ensures var cron, limit := d.cron.value, Limit(d);
            var m := if n < limit then n else limit;
            && Chain(cron, from, m).Some? && Chain(cron, Chain(cron, from, m).value, n - m).Some?
            && ChainList(cron, from, n) == ChainList(cron, from, m) + ChainList(cron, Chain(cron, from, m).value, n - m)
            && (var rest := Drain(d, Chain(cron, from, m).value, now);
                Drain(d, from, now) == match rest
                                       case Err(error) => Err(error)
                                       case Ok(r) => Ok(Drained(ChainList(cron, from, m) + r.fires, r.ticks + 1, r.cursor)))
  {
    var cron, limit := d.cron.value, Limit(d);
    var m := if n < limit then n else limit;
    assert Chain(cron, from, 0) == Some(from) && Chain(cron, from, 0).value <= now;
    TickTakesLimit(cron, from, now, limit, n);
    ChainListSplit(cron, from, m, n);
    assert PlanFor(d, from, now) == CatchUpFrom(cron, from, now, limit);
  }

  lemma ShortBacklogMatches(cron: Cron, from: int, limit: nat, n: nat)
    requires n < limit && cron.includes(from)
    ensures TickStartsMatch(cron, from, limit, n)
  {
    forall i | 0 <= i < n && i % limit == 0 ensures i == 0 {
      QuotientUnique(i, limit, 0, i);
    }
  }

  /** So when every occurrence matches, the limit decides only how many ticks it takes. */
  lemma LimitDoesNotMatter(d: Definition, other: nat, from: int, now: int, n: nat)
    requires d.cron.Some? && Advancing(d.cron.value) && d.misfirePolicy.CatchUp?
    requires Due(d.cron.value, from, now, n)
    requires forall i :: 0 <= i < n ==> d.cron.value.includes(Chain(d.cron.value, from, i).value)
    ensures Drain(d, from, now).Ok? && Drain(d.(catchUpLimit := other), from, now).Ok?
    ensures Drain(d, from, now).value.fires == Drain(d.(catchUpLimit := other), from, now).value.fires
  {
    DrainIsComplete(d, from, now, n);
    DrainIsComplete(d.(catchUpLimit := other), from, now, n);
  }

  /** An hourly schedule whose occurrence at 1 falls in a gap: with limit 2 nothing is lost, with limit 1 the
      occurrences at 1 and 2 are. */
  lemma LimitMattersInGap()
    ensures var cron := Cron(t => Some(t + 1), t => t != 1);
            var d := Definition(Some(cron), CatchUp, Allow, 2);
            && Advancing(cron)
            && Drain(d, 0, 2) == Ok(Drained([0, 1, 2], 2, 3))
            && Drain(d.(catchUpLimit := 1), 0, 2) == Ok(Drained([0], 2, 3))
  {
    var cron := Cron(t => Some(t + 1), t => t != 1);
    var d := Definition(Some(cron), CatchUp, Allow, 2);
    var e := d.(catchUpLimit := 1);
    assert forall t :: cron.next(t) == Some(t + 1);
    GapTick(cron, 0, 2, 2);
    GapTick(cron, 2, 2, 2);
    GapTick(cron, 0, 2, 1);
    var none: seq<int> := [];
    assert none + none == none && [2] + [] == [2] && [0, 1] + [2] == [0, 1, 2] && [0] + [] == [0];
    assert Drain(d, 3, 2) == Ok(Drained([], 0, 3));
    assert PlanFor(d, 0, 2) == Ok(DispatchPlan([0, 1], 2));
    assert PlanFor(e, 0, 2) == Ok(DispatchPlan([0], 1));
    assert PlanFor(d, 2, 2) == Ok(DispatchPlan([2], 3));
    assert Drain(d, 2, 2) == Ok(Drained([2] + [], 1, 3));
    assert Drain(d, 0, 2) == Ok(Drained([0, 1] + [2], 2, 3));
    assert Drain(e, 3, 2) == Ok(Drained([], 0, 3));
    assert Drain(e, 1, 2) == Ok(Drained([] + [], 1, 3));
    assert Drain(e, 0, 2) == Ok(Drained([0] + [], 2, 3));
  }

  lemma GapTick(cron: Cron, from: int, now: int, limit: nat)
    requires forall t :: cron.next(t) == Some(t + 1)
    requires 1 <= limit <= 2 && from <= now
    ensures CatchUpFrom(cron, from, now, limit)
         == if limit == 1 || from == now then Ok(DispatchPlan([from], from + 1)) else Ok(DispatchPlan([from, from + 1], from + 2))
  {
    assert forall t, l :: t > now || l == 0 ==> CatchUpFrom(cron, t, now, l) == Ok(DispatchPlan([], t));
    assert cron.next(from) == Some(from + 1) && cron.next(from + 1) == Some(from + 2);
    assert [from] + [] == [from] && [from + 1] + [] == [from + 1] && [from] + [from + 1] == [from, from + 1];
    assert limit == 1 ==> CatchUpFrom(cron, from, now, limit - 1 + 1) == Ok(DispatchPlan([from] + [], from + 1));
    assert CatchUpFrom(cron, from + 1, now, 0) == Ok(DispatchPlan([], from + 1));
    if limit == 2 && from < now {
      assert CatchUpFrom(cron, from + 2, now, 0) == Ok(DispatchPlan([], from + 2));
      assert CatchUpFrom(cron, from + 1, now, 1) == Ok(DispatchPlan([from + 1], from + 2));
    }
  }
}
