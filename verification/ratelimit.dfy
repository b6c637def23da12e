/**
  The sliding-window rate limiter (server/rate_limit.py). Times are seconds on
  the monotonic clock, as real numbers.
 */
module RateLimit {
  import opened Prelude
  import opened Tables

  const SPAN := 60.0

  // ---- One window, specified over the full history of accepted requests ----

  function Newer(start: real): real -> bool {
    (t: real) => t > start
  }

  /** The accepted times that still count at `now`. */
  function Recent(history: seq<real>, now: real): seq<real> {
    Filter(Newer(now - SPAN), history)
  }

  /** `Crashed` is the IndexError raised for a limit of zero or less on an empty window. */
  datatype Verdict = Allowed | Refused(retryAfter: int) | Crashed

  function RetryAfter(oldest: real, now: real): int {
    (SPAN - (now - oldest)).Floor + 1
  }

  function Decide(history: seq<real>, now: real, limit: int): Verdict {
    var recent := Recent(history, now);
    if |recent| < limit then Allowed
    else if recent == [] then Crashed
    else Refused(RetryAfter(recent[0], now))
  }

  function Accepted(history: seq<real>, now: real, limit: int): seq<real> {
    if Decide(history, now, limit).Allowed? then history + [now] else history
  }

  /** In clock order, nothing later than `clock`. */
  ghost predicate Ordered(history: seq<real>, clock: real) {
    && (forall i, j :: 0 <= i < j < |history| ==> history[i] <= history[j])
    && (forall i :: 0 <= i < |history| ==> history[i] <= clock)
  }

  ghost predicate FarApart(history: seq<real>, limit: int, i: nat)
    requires limit >= 1 && i + limit < |history|
  {
    history[i + limit] - history[i] >= SPAN
  }

  /** Any `limit` consecutive acceptances take at least a minute to come around. */
  ghost predicate Spaced(history: seq<real>, limit: int)
    requires limit >= 1
  {
    forall i: nat :: i + limit < |history| ==> FarApart(history, limit, i)
  }

  lemma {:induction false} NewerIsSuffix(history: seq<real>, clock: real, start: real) returns (k: nat)
    requires Ordered(history, clock)
    ensures k <= |history| && Filter(Newer(start), history) == history[k..]
    ensures forall i :: 0 <= i < k ==> history[i] <= start
    ensures forall i :: k <= i < |history| ==> history[i] > start
  {
    if history == [] {
      k := 0;
    } else {
      var n := |history| - 1;
      if history[n] <= start {
        FilterNone(Newer(start), history);
        k := n + 1;
      } else {
        var h := history[..n];
        k := NewerIsSuffix(h, clock, start);
        assert history == h + [history[n]];
        FilterAppend(Newer(start), h, history[n]);
        assert history[k..] == h[k..] + [history[n]];
      }
    }
  }

  /** The recent times are the end of the history. */
  lemma RecentIsSuffix(history: seq<real>, clock: real, now: real)
    requires Ordered(history, clock)
    ensures
      var k := |history| - |Recent(history, now)|;
      && 0 <= k && Recent(history, now) == history[k..]
      && (forall i :: 0 <= i < k ==> history[i] <= now - SPAN)
      && (forall i :: k <= i < |history| ==> history[i] > now - SPAN)
  {
    var k := NewerIsSuffix(history, clock, now - SPAN);
  }

  lemma AcceptKeepsSpaced(history: seq<real>, clock: real, now: real, limit: int)
    requires limit >= 1 && Ordered(history, clock) && clock <= now && Spaced(history, limit)
    ensures Ordered(Accepted(history, now, limit), now) && Spaced(Accepted(history, now, limit), limit)
  {
    RecentIsSuffix(history, clock, now);
    var history' := Accepted(history, now, limit);
    forall i: nat | i + limit < |history'| ensures FarApart(history', limit, i) {
      if i + limit < |history| { assert FarApart(history, limit, i); }
    }
  }

  // ---- No minute holds more than the limit ----

  function Within(start: real): real -> bool {
    (t: real) => start <= t < start + SPAN
  }

  lemma {:induction false} WithinIsSegment(history: seq<real>, clock: real, start: real) returns (a: nat, b: nat)
    requires Ordered(history, clock)
    ensures a <= b <= |history| && Filter(Within(start), history) == history[a..b]
    ensures forall i :: b <= i < |history| ==> history[i] >= start + SPAN
    ensures forall i :: a <= i < b ==> start <= history[i] < start + SPAN
  {
    if history == [] {
      a, b := 0, 0;
    } else {
      var n := |history| - 1;
      var h := history[..n];
      if history[n] < start {
        FilterNone(Within(start), history);
        a, b := n + 1, n + 1;
      } else {
        a, b := WithinIsSegment(h, clock, start);
        assert history == h + [history[n]];
        FilterAppend(Within(start), h, history[n]);
        if history[n] < start + SPAN {
          assert b == n;
          assert history[a..n + 1] == h[a..b] + [history[n]];
          b := n + 1;
        }
      }
    }
  }

  /** The sliding-window guarantee: no half-open minute holds more than `limit` accepted requests. */
  lemma AtMostLimitPerMinute(history: seq<real>, clock: real, limit: int, start: real)
    requires limit >= 1 && Ordered(history, clock) && Spaced(history, limit)
    ensures |Filter(Within(start), history)| <= limit
  {
    var a, b := WithinIsSegment(history, clock, start);
    assert a + limit < |history| ==> FarApart(history, limit, a);
  }

  // ---- Refusals ----

  /**
    A refusal asks for between 1 and 61 seconds. While nothing else is accepted,
    a request is allowed again exactly from one minute after the oldest counted
    one, which is never later than the time the refusal named.
   */
  lemma RefusalIsExact(history: seq<real>, clock: real, now: real, limit: int, later: real)
    requires limit >= 1 && Ordered(history, clock) && clock <= now <= later && Spaced(history, limit)
    requires Decide(history, now, limit).Refused?
    ensures 1 <= Decide(history, now, limit).retryAfter <= 61
    ensures Decide(history, later, limit).Allowed? <==> later >= Recent(history, now)[0] + SPAN
    ensures later >= now + Decide(history, now, limit).retryAfter as real ==> Decide(history, later, limit).Allowed?
  {
    RecentIsSuffix(history, clock, now);
    RecentIsSuffix(history, clock, later);
    var k, k' := |history| - |Recent(history, now)|, |history| - |Recent(history, later)|;
    var oldest := Recent(history, now)[0];
    assert oldest == history[k];
    assert k + limit < |history| ==> FarApart(history, limit, k);
    assert |Recent(history, now)| == limit;
    assert k' <= k ==> oldest == Recent(history, later)[k - k'];
    assert k' > k ==> oldest <= later - SPAN;
  }

  /** A limit of zero or less never allows anything; the first call on a fresh window raises. */
  lemma NonPositiveLimit(history: seq<real>, now: real, limit: int)
    requires limit <= 0
    ensures !Decide(history, now, limit).Allowed? && Accepted(history, now, limit) == history
    ensures Decide([], now, limit).Crashed?
  {
  }

  // ---- The window object ----

  /** Evicting earlier than needed for the full history loses nothing that still counts. */
  lemma EvictionIsHarmless(history: seq<real>, clock: real, now: real)
    requires clock <= now
    ensures Recent(Recent(history, clock), now) == Recent(history, now)
  {
    FilterFilter(Newer(clock - SPAN), Newer(now - SPAN), Newer(now - SPAN), history);
  }

  class Window {
    var timestamps: seq<real>
    ghost var accepted: seq<real>
    ghost var clock: real

    /** From now on, what is kept counts like the full history. */
    ghost predicate Valid()
      reads this
    {
      forall now :: AgreesAt(now)
    }

    ghost predicate AgreesAt(now: real)
      reads this
    {
      clock <= now ==> Recent(timestamps, now) == Recent(accepted, now)
    }

    constructor (ghost now: real)
      ensures Valid() && accepted == [] && clock == now
    {
      timestamps := [];
      accepted, clock := [], now;
    }

    /** Decides as the full history would, and records the request if it is allowed. */
    method CountAndCheck(limit: int, now: real) returns (r: Verdict)
      requires Valid() && clock <= now
      modifies this
      ensures Valid() && clock == now
      ensures r == Decide(old(accepted), now, limit)
      ensures accepted == Accepted(old(accepted), now, limit)
      ensures timestamps == Recent(accepted, now)
    {
      assert AgreesAt(now);
      timestamps := Filter(Newer(now - SPAN), timestamps);
      clock := now;
      forall later ensures AgreesAt(later) {
        if now <= later { EvictionIsHarmless(accepted, now, later); }
      }
      if |timestamps| >= limit {
        if timestamps == [] {
          return Crashed;
        }
        return Refused((SPAN - (now - timestamps[0])).Floor + 1);
      }
      FilterAppend(Newer(now - SPAN), accepted, now);
      timestamps := timestamps + [now];
      accepted := accepted + [now];
      forall later ensures AgreesAt(later) {
        if now <= later { EvictionIsHarmless(accepted, now, later); }
      }
      return Allowed;
    }
  }

  // ---- Three layers ----

  datatype Config = Config(tenantRpm: int, globalRpm: int, decisionRpm: int)

  /** The accepted times of every window. */
  datatype Histories = Histories(global: seq<real>, tenant: map<string, seq<real>>, writes: map<string, seq<real>>)

  const NO_HISTORY := Histories([], map[], map[])

  function Of(m: map<string, seq<real>>, t: string): seq<real> {
    if t in m then m[t] else []
  }

  datatype Answer = Passed | Limited(scope: string, verdict: Verdict)

  /** The clock is read once per layer. */
  datatype Visit = Visit(tenant: string, write: bool, t1: real, t2: real, t3: real)

  function Check(config: Config, h: Histories, v: Visit): (Histories, Answer) {
    var g := Decide(h.global, v.t1, config.globalRpm);
    var h1 := h.(global := Accepted(h.global, v.t1, config.globalRpm));
    if !g.Allowed? then (h1, Limited("global", g))
    else
      var d := Decide(Of(h.tenant, v.tenant), v.t2, config.tenantRpm);
      var h2 := h1.(tenant := h.tenant[v.tenant := Accepted(Of(h.tenant, v.tenant), v.t2, config.tenantRpm)]);
      if !d.Allowed? then (h2, Limited("tenant", d))
      else if !v.write then (h2, Passed)
      else
        var w := Decide(Of(h.writes, v.tenant), v.t3, config.decisionRpm);
        var h3 := h2.(writes := h.writes[v.tenant := Accepted(Of(h.writes, v.tenant), v.t3, config.decisionRpm)]);
        (h3, if w.Allowed? then Passed else Limited("tenant_decisions", w))
  }

  function HistoriesAfter(config: Config, h: Histories, visits: seq<Visit>): Histories
    decreases visits
  {
    if visits == [] then h else HistoriesAfter(config, Check(config, h, visits[0]).0, visits[1..])
  }

  /** A window under a limit of zero or less has never accepted anything. */
  ghost predicate WindowOk(history: seq<real>, clock: real, limit: int) {
    Ordered(history, clock) && (if limit >= 1 then Spaced(history, limit) else history == [])
  }

  ghost predicate WindowsOk(m: map<string, seq<real>>, clock: real, limit: int) {
    forall t :: t in m ==> WindowOk(m[t], clock, limit)
  }

  ghost predicate AllOk(config: Config, h: Histories, clock: real) {
    && WindowOk(h.global, clock, config.globalRpm)
    && WindowsOk(h.tenant, clock, config.tenantRpm)
    && WindowsOk(h.writes, clock, config.decisionRpm)
  }

  lemma WindowOkLater(history: seq<real>, clock: real, now: real, limit: int)
    requires WindowOk(history, clock, limit) && clock <= now
    ensures WindowOk(history, now, limit)
    ensures WindowOk(Accepted(history, now, limit), now, limit)
  {
    if limit >= 1 {
      AcceptKeepsSpaced(history, clock, now, limit);
    } else {
      NonPositiveLimit(history, now, limit);
    }
  }

  function AtLeastZero(limit: int): int {
    if limit >= 0 then limit else 0
  }

  lemma WindowIsLimited(history: seq<real>, clock: real, limit: int, start: real)
    requires WindowOk(history, clock, limit)
    ensures |Filter(Within(start), history)| <= AtLeastZero(limit)
  {
    if limit >= 1 { AtMostLimitPerMinute(history, clock, limit, start); }
  }

  lemma WindowsOkLater(m: map<string, seq<real>>, clock: real, now: real, limit: int, t: string)
    requires WindowsOk(m, clock, limit) && clock <= now
    ensures WindowsOk(m, now, limit)
    ensures WindowsOk(m[t := Accepted(Of(m, t), now, limit)], now, limit)
  {
    forall s | s in m ensures WindowOk(m[s], now, limit) { WindowOkLater(m[s], clock, now, limit); }
    WindowOkLater(Of(m, t), clock, now, limit);
  }

  lemma CheckKeepsAllOk(config: Config, h: Histories, clock: real, v: Visit)
    requires AllOk(config, h, clock) && clock <= v.t1 <= v.t2 <= v.t3
    ensures AllOk(config, Check(config, h, v).0, v.t3)
  {
    var t, g := v.tenant, Accepted(h.global, v.t1, config.globalRpm);
    WindowOkLater(h.global, clock, v.t1, config.globalRpm);
    WindowOkLater(g, v.t1, v.t3, config.globalRpm);
    WindowsOkLater(h.tenant, clock, v.t2, config.tenantRpm, t);
    WindowsOkLater(h.tenant, clock, v.t3, config.tenantRpm, t);
    WindowsOkLater(h.tenant[t := Accepted(Of(h.tenant, t), v.t2, config.tenantRpm)], v.t2, v.t3, config.tenantRpm, t);
    WindowsOkLater(h.writes, clock, v.t3, config.decisionRpm, t);
  }

  /** The clock never runs backwards. */
  ghost predicate Clocked(clock: real, visits: seq<Visit>)
    decreases visits
  {
    visits != [] ==>
      clock <= visits[0].t1 <= visits[0].t2 <= visits[0].t3 && Clocked(visits[0].t3, visits[1..])
  }

  function LastClock(clock: real, visits: seq<Visit>): real
    decreases visits
  {
    if visits == [] then clock else LastClock(visits[0].t3, visits[1..])
  }

  lemma {:induction false} RunKeepsAllOk(config: Config, h: Histories, clock: real, visits: seq<Visit>)
    requires AllOk(config, h, clock) && Clocked(clock, visits)
    ensures AllOk(config, HistoriesAfter(config, h, visits), LastClock(clock, visits))
    decreases visits
  {
    if visits != [] {
      CheckKeepsAllOk(config, h, clock, visits[0]);
      RunKeepsAllOk(config, Check(config, h, visits[0]).0, visits[0].t3, visits[1..]);
    }
  }

  /** After any run, in every layer, no half-open minute holds more than that layer's limit. */
  lemma EveryLayerIsLimited(config: Config, clock: real, visits: seq<Visit>, t: string, start: real)
    requires Clocked(clock, visits)
    ensures
      var h := HistoriesAfter(config, NO_HISTORY, visits);
      && |Filter(Within(start), h.global)| <= AtLeastZero(config.globalRpm)
      && |Filter(Within(start), Of(h.tenant, t))| <= AtLeastZero(config.tenantRpm)
      && |Filter(Within(start), Of(h.writes, t))| <= AtLeastZero(config.decisionRpm)
  {
    RunKeepsAllOk(config, NO_HISTORY, clock, visits);
    var h, last := HistoriesAfter(config, NO_HISTORY, visits), LastClock(clock, visits);
    WindowIsLimited(h.global, last, config.globalRpm, start);
    WindowIsLimited(Of(h.tenant, t), last, config.tenantRpm, start);
    WindowIsLimited(Of(h.writes, t), last, config.decisionRpm, start);
  }

  // ---- Visits that pass all their layers ----

  /** A visit that passes is recorded in every layer that it concerns. */
  lemma PassedIsCounted(config: Config, h: Histories, v: Visit)
    ensures
      var (h', r) := Check(config, h, v);
      r.Passed? ==>
        && h'.global == h.global + [v.t1]
        && Of(h'.tenant, v.tenant) == Of(h.tenant, v.tenant) + [v.t2]
        && (v.write ==> Of(h'.writes, v.tenant) == Of(h.writes, v.tenant) + [v.t3])
        && forall t :: t != v.tenant ==> Of(h'.tenant, t) == Of(h.tenant, t) && Of(h'.writes, t) == Of(h.writes, t)
  {
  }

  lemma AcceptedCounts(history: seq<real>, now: real, limit: int, start: real)
    ensures |Filter(Within(start), Accepted(history, now, limit))| ==
      |Filter(Within(start), history)| + (if Decide(history, now, limit).Allowed? && Within(start)(now) then 1 else 0)
  {
    FilterAppend(Within(start), history, now);
  }

  /** A layer: all visits, those of one tenant, or the writes of one tenant. */
  datatype Layer = Global | Tenant(t: string) | Writes(t: string)

  /** The time at which a visit is counted in a layer, if it concerns it. */
  function TimeIn(layer: Layer, v: Visit): Option<real> {
    match layer
    case Global => Some(v.t1)
    case Tenant(t) => if v.tenant == t then Some(v.t2) else None
    case Writes(t) => if v.tenant == t && v.write then Some(v.t3) else None
  }

  function HistoryOf(layer: Layer, h: Histories): seq<real> {
    match layer
    case Global => h.global
    case Tenant(t) => Of(h.tenant, t)
    case Writes(t) => Of(h.writes, t)
  }

  function LimitOf(layer: Layer, config: Config): int {
    match layer
    case Global => config.globalRpm
    case Tenant(_) => config.tenantRpm
    case Writes(_) => config.decisionRpm
  }

  function Passes(config: Config, h: Histories, v: Visit, layer: Layer, start: real): nat {
    if Check(config, h, v).1.Passed? && TimeIn(layer, v).Some? && Within(start)(TimeIn(layer, v).value) then 1 else 0
  }

  /** The visits of a run that pass within the minute. */
  function PassedIn(config: Config, h: Histories, visits: seq<Visit>, layer: Layer, start: real): nat
    decreases visits
  {
    if visits == [] then 0
    else Passes(config, h, visits[0], layer, start) + PassedIn(config, Check(config, h, visits[0]).0, visits[1..], layer, start)
  }

  lemma VisitCounts(config: Config, h: Histories, v: Visit, layer: Layer, start: real)
    ensures |Filter(Within(start), HistoryOf(layer, Check(config, h, v).0))|
      >= |Filter(Within(start), HistoryOf(layer, h))| + Passes(config, h, v, layer, start)
  {
    PassedIsCounted(config, h, v);
    AcceptedCounts(h.global, v.t1, config.globalRpm, start);
    AcceptedCounts(Of(h.tenant, v.tenant), v.t2, config.tenantRpm, start);
    AcceptedCounts(Of(h.writes, v.tenant), v.t3, config.decisionRpm, start);
  }

  lemma {:induction false} RunCounts(config: Config, h: Histories, visits: seq<Visit>, layer: Layer, start: real)
    ensures |Filter(Within(start), HistoryOf(layer, HistoriesAfter(config, h, visits)))|
      >= |Filter(Within(start), HistoryOf(layer, h))| + PassedIn(config, h, visits, layer, start)
    decreases visits
  {
    if visits != [] {
      VisitCounts(config, h, visits[0], layer, start);
      RunCounts(config, Check(config, h, visits[0]).0, visits[1..], layer, start);
    }
  }

  /**
    In every run, within every half-open minute, no more visits pass than each
    layer's limit allows: over all tenants, for each tenant, and for each
    tenant's writes.
   */
  lemma NoMinutePassesMore(config: Config, clock: real, visits: seq<Visit>, layer: Layer, start: real)
    requires Clocked(clock, visits)
    ensures PassedIn(config, NO_HISTORY, visits, layer, start) <= AtLeastZero(LimitOf(layer, config))
  {
    RunCounts(config, NO_HISTORY, visits, layer, start);
    EveryLayerIsLimited(config, clock, visits, match layer case Global => "" case Tenant(t) => t case Writes(t) => t, start);
  }

  // ---- The limiter object ----

  /** `defaultdict(_Window)`: one window for each tenant, created on first use. */
  class WindowTable {
    var windows: map<string, Window>

    ghost function Footprint(): set<object>
      reads this
    {
      {this} + windows.Values
    }

    /** No two tenants share a window, and each window is sound and no later than `clock`. */
    ghost predicate Valid(clock: real)
      reads this, windows.Values
    {
      && (forall s, t :: s in windows && t in windows && s != t ==> windows[s] != windows[t])
      && (forall t :: t in windows ==> windows[t].Valid() && windows[t].clock <= clock)
    }

    ghost function Abstract(): map<string, seq<real>>
      reads this, windows.Values
    {
      map t | t in windows :: windows[t].accepted
    }

    constructor ()
      ensures windows == map[]
    {
      windows := map[];
    }

    /** Looking a tenant up creates its window. */
    method Lookup(t: string, ghost clock: real)
      requires Valid(clock)
      modifies this
      ensures Valid(clock) && t in windows && fresh(Footprint() - old(Footprint()))
      ensures Abstract() == old(Abstract())[t := Of(old(Abstract()), t)]
    {
      if t !in windows {
        var w := new Window(clock);
        windows := windows[t := w];
      }
    }

    method Count(t: string, limit: int, now: real, ghost clock: real) returns (r: Verdict)
      requires Valid(clock) && clock <= now && t in windows
      modifies windows[t]
      ensures windows[t].Valid() && windows[t].clock == now
      ensures r == Decide(old(windows[t].accepted), now, limit)
      ensures windows[t].accepted == Accepted(old(windows[t].accepted), now, limit)
    {
      r := windows[t].CountAndCheck(limit, now);
    }

    method CountAndCheck(t: string, limit: int, now: real, ghost clock: real) returns (r: Verdict)
      requires Valid(clock) && clock <= now
      modifies this, windows.Values
      ensures Valid(now) && fresh(Footprint() - old(Footprint()))
      ensures r == Decide(Of(old(Abstract()), t), now, limit)
      ensures Abstract() == old(Abstract())[t := Accepted(Of(old(Abstract()), t), now, limit)]
    {
      Lookup(t, clock);
      assert windows[t].accepted == Abstract()[t] == Of(old(Abstract()), t);
      r := Count(t, limit, now, clock);
    }
  }

  class RateLimiter {
    const config: Config
    const global: Window
    const tenant: WindowTable
    const writes: WindowTable

    ghost function Footprint(): set<object>
      reads this, tenant, writes
    {
      {global} + tenant.Footprint() + writes.Footprint()
    }

    /** The layers share no window. */
    ghost predicate Valid(clock: real)
      reads this, global, tenant, writes, tenant.windows.Values, writes.windows.Values
    {
      && global !in tenant.Footprint() && global !in writes.Footprint()
      && tenant.Footprint() !! writes.Footprint()
      && global.Valid() && global.clock <= clock && tenant.Valid(clock) && writes.Valid(clock)
    }

    ghost function Abstract(): Histories
      reads this, global, tenant, writes, tenant.windows.Values, writes.windows.Values
    {
      Histories(global.accepted, tenant.Abstract(), writes.Abstract())
    }

    constructor (config: Config, ghost now: real)
      ensures Valid(now) && this.config == config && Abstract() == NO_HISTORY && fresh(Footprint())
    {
      this.config := config;
      global := new Window(now);
      tenant := new WindowTable();
      writes := new WindowTable();
    }

    method CountTenant(t: string, now: real, ghost clock: real) returns (r: Verdict)
      requires Valid(clock) && clock <= now
      modifies tenant.Footprint()
      ensures Valid(now) && fresh(Footprint() - old(Footprint()))
      ensures
        var h := old(Abstract());
        && r == Decide(Of(h.tenant, t), now, config.tenantRpm)
        && Abstract() == h.(tenant := h.tenant[t := Accepted(Of(h.tenant, t), now, config.tenantRpm)])
    {
      r := tenant.CountAndCheck(t, config.tenantRpm, now, clock);
    }

    method CountWrite(t: string, now: real, ghost clock: real) returns (r: Verdict)
      requires Valid(clock) && clock <= now
      modifies writes.Footprint()
      ensures Valid(now) && fresh(Footprint() - old(Footprint()))
      ensures
        var h := old(Abstract());
        && r == Decide(Of(h.writes, t), now, config.decisionRpm)
        && Abstract() == h.(writes := h.writes[t := Accepted(Of(h.writes, t), now, config.decisionRpm)])
    {
      r := writes.CountAndCheck(t, config.decisionRpm, now, clock);
    }

    method CountGlobal(now: real, ghost clock: real) returns (r: Verdict)
      requires Valid(clock) && clock <= now
      modifies global
      ensures Valid(now) && Footprint() == old(Footprint())
      ensures r == Decide(old(Abstract()).global, now, config.globalRpm)
      ensures Abstract() == old(Abstract()).(global := Accepted(old(Abstract()).global, now, config.globalRpm))
    {
      assert global !in tenant.windows.Values && global !in writes.windows.Values;
      r := global.CountAndCheck(config.globalRpm, now);
      assert tenant.Abstract() == old(tenant.Abstract()) && writes.Abstract() == old(writes.Abstract());
      assert tenant.Valid(clock) && writes.Valid(clock);
    }

    /** Counts the visit in each layer in turn, stopping at the first that refuses. */
    method CheckVisit(v: Visit, ghost clock: real) returns (r: Answer)
      requires Valid(clock) && clock <= v.t1 <= v.t2 <= v.t3
      modifies Footprint()
      ensures Valid(v.t3) && fresh(Footprint() - old(Footprint()))
      ensures (Abstract(), r) == Check(config, old(Abstract()), v)
    {
      var d := CountGlobal(v.t1, clock);
      if !d.Allowed? {
        return Limited("global", d);
      }
      d := CountTenant(v.tenant, v.t2, v.t1);
      if !d.Allowed? {
        return Limited("tenant", d);
      }
      if v.write {
        d := CountWrite(v.tenant, v.t3, v.t2);
        if !d.Allowed? {
          return Limited("tenant_decisions", d);
        }
      }
      return Passed;
    }
  }
}
