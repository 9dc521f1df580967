/** The in-process quota gate: sliding-window rates, queue and activity counters, daily tokens.
    Everything happens within one day. */
module QuotaLocal {
  import opened Common

  datatype Key = UserKey(tenant: string, user: string) | TenantKey(tenant: string)

  datatype Reservation = Reservation(tenant: string, user: string, tokenLimit: nat)

  datatype Settings = Settings(
    userRate: nat, tenantRate: nat, queueRuns: nat, activeRuns: nat, runTokens: nat, dailyTokens: nat,
        dailyBudget: real)

  datatype Quota = Quota(
    requests: map<Key, seq<real>>,
    active: map<string, nat>, queued: map<string, nat>,
    daily: map<string, nat>, reserved: map<string, nat>,
    reservations: map<string, Reservation>)

  const Fresh: Quota := Quota(map[], map[], map[], map[], map[], map[])

  /** `HintFailed` is the failure of computing when to retry while the bucket is empty. */
  datatype Refusal = RateLimited | HintFailed | RunQueueFull | TokenQuotaExceeded | CostBudgetExceeded

  const WINDOW: real := 60.0

  function Count(m: map<string, nat>, k: string): nat {
    if k in m then m[k] else 0
  }

  function Bucket(q: Quota, k: Key): seq<real> {
    if k in q.requests then q.requests[k] else []
  }

  function Less(n: nat, k: nat): nat {
    if n > k then n - k else 0
  }

  // ----- rate check

  /** Requests that fell out of the window leave the front of the bucket. */
  function Pruned(bucket: seq<real>, now: real): seq<real> {
    if bucket != [] && bucket[0] <= now - WINDOW then Pruned(bucket[1..], now) else bucket
  }

  predicate Admits(bucket: seq<real>, limit: nat, now: real) {
    |Pruned(bucket, now)| < limit
  }

  function Checked(bucket: seq<real>, limit: nat, now: real): seq<real> {
    Pruned(bucket, now) + (if Admits(bucket, limit, now) then [now] else [])
  }

  // ----- operations

  function LimitOf(c: Settings, k: Key): nat {
    match k
    case UserKey(_, _) => c.userRate
    case TenantKey(_) => c.tenantRate
  }

  function RateChecked(q: Quota, c: Settings, k: Key, now: real): Quota {
    q.(requests := q.requests[k := Checked(Bucket(q, k), LimitOf(c, k), now)])
  }

  function RateVerdict(q: Quota, c: Settings, k: Key, now: real): Option<Refusal> {
    if RateAdmits(q, c, k, now) then None
    else if Pruned(Bucket(q, k), now) == [] then Some(HintFailed)
    else Some(RateLimited)
  }

  predicate RateAdmits(q: Quota, c: Settings, k: Key, now: real) {
    Admits(Bucket(q, k), LimitOf(c, k), now)
  }

  /** The buckets after a reservation attempt: the tenant is checked only once the user passed. */
  function Rated(q: Quota, c: Settings, tenant: string, user: string, now: real): Quota {
    var asUser := RateChecked(q, c, UserKey(tenant, user), now);
    if RateAdmits(q, c, UserKey(tenant, user), now) then RateChecked(asUser, c, TenantKey(tenant), now) else asUser
  }

  predicate RatesAdmit(q: Quota, c: Settings, tenant: string, user: string, now: real) {
    RateAdmits(q, c, UserKey(tenant, user), now) && RateAdmits(q, c, TenantKey(tenant), now)
  }

  function RatesVerdict(q: Quota, c: Settings, tenant: string, user: string, now: real): Option<Refusal> {
    if RateAdmits(q, c, UserKey(tenant, user), now) then RateVerdict(q, c, TenantKey(tenant), now)
    else RateVerdict(q, c, UserKey(tenant, user), now)
  }

  function ReserveVerdict(q: Quota, c: Settings, tenant: string, user: string, now: real): Option<Refusal> {
    if !RatesAdmit(q, c, tenant, user, now) then RatesVerdict(q, c, tenant, user, now) else BookVerdict(q, c, tenant)
  }

  function BookVerdict(q: Quota, c: Settings, tenant: string): Option<Refusal> {
    if Count(q.queued, tenant) >= c.queueRuns then Some(RunQueueFull)
    else if Count(q.daily, tenant) + Count(q.reserved, tenant) + c.runTokens > c.dailyTokens
        then Some(TokenQuotaExceeded)
    else None
  }

  function Booked(q: Quota, c: Settings, tenant: string, user: string, run: string): Quota {
    q.(reservations := q.reservations[run := Reservation(tenant, user, c.runTokens)],
       queued := q.queued[tenant := Count(q.queued, tenant) + 1],
       reserved := q.reserved[tenant := Count(q.reserved, tenant) + c.runTokens])
  }

  function Reserved(q: Quota, c: Settings, tenant: string, user: string, run: string, now: real): Quota {
    if run in q.reservations then q
    else
      var rated := Rated(q, c, tenant, user, now);
      if ReserveVerdict(q, c, tenant, user, now).Some? then rated else Booked(rated, c, tenant, user, run)
  }

  function MarkedActive(q: Quota, run: string): Quota {
    if run !in q.reservations || Count(q.queued, q.reservations[run].tenant) == 0 then q
    else
      var t := q.reservations[run].tenant;
      q.(queued := q.queued[t := Count(q.queued, t) - 1], active := q.active[t := Count(q.active, t) + 1])
  }

  /** Settling removes the reservation first, so a refusal still gives everything back. */
  predicate SettleRefused(q: Quota, c: Settings, run: string, tokens: int) {
    run in q.reservations && Count(q.daily, q.reservations[run].tenant) + Max(0, tokens) > c.dailyTokens
  }

  function Settled(q: Quota, c: Settings, run: string, tokens: int): Quota {
    if run !in q.reservations then q
    else
      var r := q.reservations[run];
      q.(reservations := q.reservations - {run},
         active := q.active[r.tenant := Less(Count(q.active, r.tenant), 1)],
         reserved := q.reserved[r.tenant := Less(Count(q.reserved, r.tenant), r.tokenLimit)],
         daily := if SettleRefused(q, c, run, tokens) then q.daily
                  else q.daily[r.tenant := Count(q.daily, r.tenant) + Max(0, tokens)])
  }

  function Released(q: Quota, run: string): Quota {
    if run !in q.reservations then q
    else
      var r := q.reservations[run];
      q.(reservations := q.reservations - {run},
         reserved := q.reserved[r.tenant := Less(Count(q.reserved, r.tenant), r.tokenLimit)],
         queued := q.queued[r.tenant := Less(Count(q.queued, r.tenant), 1)],
         active := q.active[r.tenant := Less(Count(q.active, r.tenant), 1)])
  }

  class QuotaService {
    const settings: Settings
    var requests: map<Key, seq<real>>
    var active: map<string, nat>
    var queued: map<string, nat>
    var daily: map<string, nat>
    var reserved: map<string, nat>
    var reservations: map<string, Reservation>

    ghost function View(): Quota
      reads this
    {
      Quota(requests, active, queued, daily, reserved, reservations)
    }

    constructor (settings: Settings)
      ensures View() == Fresh && this.settings == settings
    {
      this.settings := settings;
      requests, active, queued, daily, reserved, reservations := map[], map[], map[], map[], map[], map[];
    }

    method RateCheck(k: Key, limit: nat, now: real) returns (refused: Option<Refusal>)
      requires limit == LimitOf(settings, k)
      modifies this`requests
      ensures View() == RateChecked(old(View()), settings, k, now)
      ensures refused == RateVerdict(old(View()), settings, k, now)
    {
      var bucket := if k in requests then requests[k] else [];
      ghost var whole := bucket;
      while bucket != [] && bucket[0] <= now - WINDOW
        invariant Pruned(whole, now) == Pruned(bucket, now)
      {
        bucket := bucket[1..];
      }
      if |bucket| >= limit {
        refused := Some(if bucket == [] then HintFailed else RateLimited);
      } else {
        refused := None;
        bucket := bucket + [now];
      }
      requests := requests[k := bucket];
      assert Pruned(whole, now) + [] == Pruned(whole, now);
    }

    method CheckRates(tenant: string, user: string, now: real) returns (refused: Option<Refusal>)
      modifies this`requests
      ensures View() == Rated(old(View()), settings, tenant, user, now)
      ensures refused == RatesVerdict(old(View()), settings, tenant, user, now)
    {
      refused := RateCheck(UserKey(tenant, user), settings.userRate, now);
      if refused.None? {
        refused := RateCheck(TenantKey(tenant), settings.tenantRate, now);
      }
    }

    method Reserve(tenant: string, user: string, run: string, now: real) returns (refused: Option<Refusal>)
      modifies this
      ensures View() == Reserved(old(View()), settings, tenant, user, run, now)
      ensures refused ==
              if run in old(reservations) then None else ReserveVerdict(old(View()), settings, tenant, user, now)
    {
      if run in reservations {
        return None;
      }
      refused := CheckRates(tenant, user, now);
      if refused.None? {
        refused := Book(tenant, user, run);
      }
    }

    method Book(tenant: string, user: string, run: string) returns (refused: Option<Refusal>)
      modifies this
      ensures refused == BookVerdict(old(View()), settings, tenant)
      ensures View() == if refused.Some? then old(View()) else Booked(old(View()), settings, tenant, user, run)
    {
      if Count(active, tenant) >= settings.activeRuns {
        if Count(queued, tenant) >= settings.queueRuns {
          return Some(RunQueueFull);
        }
      }
      if Count(queued, tenant) >= settings.queueRuns {
        return Some(RunQueueFull);
      }
      if Count(daily, tenant) + Count(reserved, tenant) + settings.runTokens > settings.dailyTokens {
        return Some(TokenQuotaExceeded);
      }
      reservations := reservations[run := Reservation(tenant, user, settings.runTokens)];
      queued := queued[tenant := Count(queued, tenant) + 1];
      reserved := reserved[tenant := Count(reserved, tenant) + settings.runTokens];
      return None;
    }

    method MarkActive(run: string)
      modifies this`queued, this`active
      ensures View() == MarkedActive(old(View()), run)
    {
      if run in reservations {
        var t := reservations[run].tenant;
        if Count(queued, t) > 0 {
          queued := queued[t := Count(queued, t) - 1];
          active := active[t := Count(active, t) + 1];
        }
      }
    }

    method Settle(run: string, tokens: int, cost: real) returns (refused: Option<Refusal>)
      modifies this
      ensures View() == Settled(old(View()), settings, run, tokens)
      ensures refused ==
              if run !in old(reservations) then None
              else if SettleRefused(old(View()), settings, run, tokens) then Some(TokenQuotaExceeded)
              else if settings.dailyBudget != 0.0 && cost > settings.dailyBudget then Some(CostBudgetExceeded)
              else None
    {
      if run !in reservations {
        return None;
      }
      var r := reservations[run];
      reservations := reservations - {run};
      active := active[r.tenant := Less(Count(active, r.tenant), 1)];
      reserved := reserved[r.tenant := Less(Count(reserved, r.tenant), r.tokenLimit)];
      var projected := Count(daily, r.tenant) + Max(0, tokens);
      if projected > settings.dailyTokens {
        return Some(TokenQuotaExceeded);
      }
      daily := daily[r.tenant := projected];
      if settings.dailyBudget != 0.0 && cost > settings.dailyBudget {
        return Some(CostBudgetExceeded);
      }
      return None;
    }

    method Release(run: string)
      modifies this
      ensures View() == Released(old(View()), run)
    {
      if run in reservations {
        var r := reservations[run];
        reservations := reservations - {run};
        reserved := reserved[r.tenant := Less(Count(reserved, r.tenant), r.tokenLimit)];
        queued := queued[r.tenant := Less(Count(queued, r.tenant), 1)];
        active := active[r.tenant := Less(Count(active, r.tenant), 1)];
      }
    }
  }

  // ----- whole histories

  datatype Call =
    | Reserve(tenant: string, user: string, run: string, now: real)
    | Activate(run: string)
    | Settle(run: string, tokens: int)
    | Release(run: string)

  /** `admitted` lists all requests a key ever let through; `clock` is the latest request time;
      `activated` holds the live reservations that were marked active; `charged` adds up, per tenant,
      the tokens of the settlements that fitted into the day. */
  datatype History = History(
    quota: Quota, admitted: map<Key, seq<real>>, clock: Option<real>, activated: set<string>,
    charged: map<string, nat>)

  const Start: History := History(Fresh, map[], None, {}, map[])

  /** The settlement of a live reservation is charged when it fits beside all that was charged before. */
  function Charged(h: History, c: Settings, run: string, tokens: int): map<string, nat> {
    if run !in h.quota.reservations then h.charged
    else
      var t := h.quota.reservations[run].tenant;
      var sum := Count(h.charged, t) + Max(0, tokens);
      if sum <= c.dailyTokens then h.charged[t := sum] else h.charged
  }

  function Admitted(h: History, k: Key): seq<real> {
    if k in h.admitted then h.admitted[k] else []
  }

  function Noted(h: History, c: Settings, k: Key, now: real, q: Quota): map<Key, seq<real>> {
    if RateAdmits(q, c, k, now) then h.admitted[k := Admitted(h, k) + [now]] else h.admitted
  }

  function NotedAll(h: History, c: Settings, tenant: string, user: string, run: string, now: real)
    : map<Key, seq<real>>
  {
    var q := h.quota;
    if run in q.reservations || !RateAdmits(q, c, UserKey(tenant, user), now) then h.admitted
    else
      var asUser := h.(admitted := Noted(h, c, UserKey(tenant, user), now, q));
      Noted(asUser, c, TenantKey(tenant), now, q)
  }

  function After(h: History, c: Settings, call: Call): History {
    match call
    case Reserve(t, u, run, now) =>
      h.(quota := Reserved(h.quota, c, t, u, run, now), admitted := NotedAll(h, c, t, u, run, now), clock := Some(now))
    case Activate(run) =>
      h.(quota := MarkedActive(h.quota, run),
         activated := if run in h.quota.reservations then h.activated + {run} else h.activated)
    case Settle(run, tokens) =>
      h.(quota := Settled(h.quota, c, run, tokens), activated := h.activated - {run},
         charged := Charged(h, c, run, tokens))
    case Release(run) => h.(quota := Released(h.quota, run), activated := h.activated - {run})
  }

  function Play(c: Settings, calls: seq<Call>): History {
    if calls == [] then Start else After(Play(c, calls[..|calls| - 1]), c, calls[|calls| - 1])
  }

  /** Request times never run backwards. */
  predicate TimeMovesOn(h: History, call: Call) {
    call.Reserve? && h.clock.Some? ==> h.clock.value <= call.now
  }

  predicate Monotone(c: Settings, calls: seq<Call>) {
    calls == [] || (Monotone(c, calls[..|calls| - 1]) && TimeMovesOn(Play(c, calls[..|calls| - 1]), calls[|calls| - 1]))
  }

  // ----- sliding window

  ghost predicate Sorted(s: seq<real>) {
    forall i, j :: 0 <= i <= j < |s| ==> s[i] <= s[j]
  }

  /** `limit + 1` consecutive admissions never fit into one window. */
  ghost predicate Spaced(s: seq<real>, limit: nat) {
    forall i, j :: 0 <= i && i + limit <= j < |s| ==> s[i] <= s[j] - WINDOW
  }

  /** The bucket is the tail of the admissions; what was dropped is older than a window. */
  ghost predicate WindowInv(bucket: seq<real>, admitted: seq<real>, limit: nat, clock: Option<real>) {
    && Sorted(admitted) && Spaced(admitted, limit)
    && |bucket| <= |admitted| && bucket == admitted[|admitted| - |bucket|..]
    && (clock.None? ==> admitted == [])
    && (clock.Some? ==>
        && (forall i :: 0 <= i < |admitted| ==> admitted[i] <= clock.value)
        && (forall i :: 0 <= i < |admitted| - |bucket| ==> admitted[i] <= clock.value - WINDOW))
  }

  lemma {:induction false} PrunedIsSuffix(bucket: seq<real>, now: real)
    requires Sorted(bucket)
    ensures |Pruned(bucket, now)| <= |bucket| && Pruned(bucket, now) == bucket[|bucket| - |Pruned(bucket, now)|..]
    ensures forall i :: 0 <= i < |bucket| - |Pruned(bucket, now)| ==> bucket[i] <= now - WINDOW
    ensures forall i :: |bucket| - |Pruned(bucket, now)| <= i < |bucket| ==> bucket[i] > now - WINDOW
  {
    if bucket != [] && bucket[0] <= now - WINDOW {
      PrunedIsSuffix(bucket[1..], now);
      assert forall i :: 1 <= i < |bucket| ==> bucket[i] == bucket[1..][i - 1];
    }
  }

  lemma PruneKeepsWindow(bucket: seq<real>, admitted: seq<real>, limit: nat, clock: Option<real>, now: real)
    requires WindowInv(bucket, admitted, limit, clock) && (clock.Some? ==> clock.value <= now)
    ensures WindowInv(Pruned(bucket, now), admitted, limit, Some(now))
  {
    var dropped := |admitted| - |bucket|;
    assert forall i :: 0 <= i < |bucket| ==> bucket[i] == admitted[dropped + i];
    PrunedIsSuffix(bucket, now);
    var kept := Pruned(bucket, now);
    assert kept == admitted[|admitted| - |kept|..];
    forall i | 0 <= i < |admitted| - |kept| ensures admitted[i] <= now - WINDOW {
      if i >= dropped {
        assert admitted[i] == bucket[i - dropped];
      }
    }
  }

  lemma AdmissionKeepsWindow(kept: seq<real>, admitted: seq<real>, limit: nat, now: real)
    requires WindowInv(kept, admitted, limit, Some(now)) && |kept| < limit
    ensures WindowInv(kept + [now], admitted + [now], limit, Some(now))
  {
    var longer := admitted + [now];
    var gone := |admitted| - |kept|;
    assert forall i :: 0 <= i < |admitted| ==> longer[i] == admitted[i];
    forall i, j | 0 <= i && i + limit <= j < |longer| ensures longer[i] <= longer[j] - WINDOW {
      if j == |admitted| {
        assert i < gone;
        assert longer[i] == admitted[i];
      } else {
        assert longer[i] == admitted[i] && longer[j] == admitted[j];
      }
    }
    assert kept + [now] == longer[gone..];
  }

  lemma CheckKeepsWindow(bucket: seq<real>, admitted: seq<real>, limit: nat, clock: Option<real>, now: real)
    requires WindowInv(bucket, admitted, limit, clock) && (clock.Some? ==> clock.value <= now)
    ensures
      var longer := if Admits(bucket, limit, now) then admitted + [now] else admitted;
      WindowInv(Checked(bucket, limit, now), longer, limit, Some(now))
  {
    PruneKeepsWindow(bucket, admitted, limit, clock, now);
    if Admits(bucket, limit, now) {
      AdmissionKeepsWindow(Pruned(bucket, now), admitted, limit, now);
    } else {
      assert Checked(bucket, limit, now) == Pruned(bucket, now);
    }
  }

  function CountWithin(s: seq<real>, from: real): nat {
    if s == [] then 0
    else CountWithin(s[..|s| - 1], from) + (if from < s[|s| - 1] <= from + 60.0 then 1 else 0)
  }

  lemma {:induction false} SpacedBoundsEveryWindow(s: seq<real>, limit: nat, from: real)
    requires Sorted(s) && Spaced(s, limit)
    ensures CountWithin(s, from) <= limit
    ensures CountWithin(s, from) <= |s|
  {
    if s != [] {
      var n := |s| - 1;
      SpacedBoundsEveryWindow(s[..n], limit, from);
      CountFits(s[..n], from);
      if 0 < limit <= n {
        LastOnesAreInside(s[..n], limit, from);
        assert s[n - limit] <= s[n] - WINDOW;
      }
    }
  }

  /** If a sorted list has `k` entries in a window and none beyond it, they are its last `k`. */
  lemma {:induction false} LastOnesAreInside(s: seq<real>, k: nat, from: real)
    requires Sorted(s) && 0 < k <= |s|
    ensures CountWithin(s, from) >= k ==> s[|s| - k] > from
  {
    var n := |s| - 1;
    CountFits(s[..n], from);
    if from < s[n] <= from + WINDOW {
      if k > 1 {
        LastOnesAreInside(s[..n], k - 1, from);
      }
    } else if k <= n {
      LastOnesAreInside(s[..n], k, from);
      assert s[n - k] <= s[|s| - k];
    }
  }

  lemma {:induction false} CountFits(s: seq<real>, from: real)
    ensures CountWithin(s, from) <= |s|
  {
    if s != [] {
      CountFits(s[..|s| - 1], from);
    }
  }

  ghost predicate RatesOk(h: History, c: Settings) {
    forall k: Key :: WindowInv(Bucket(h.quota, k), Admitted(h, k), LimitOf(c, k), h.clock)
  }

  lemma LaterClockKeepsWindow(bucket: seq<real>, admitted: seq<real>, limit: nat, clock: Option<real>, now: real)
    requires WindowInv(bucket, admitted, limit, clock) && (clock.Some? ==> clock.value <= now)
    ensures WindowInv(bucket, admitted, limit, Some(now))
  {
  }

  lemma ReserveRates(q: Quota, c: Settings, t: string, u: string, run: string, now: real)
    ensures Reserved(q, c, t, u, run, now).requests ==
            if run in q.reservations then q.requests else Rated(q, c, t, u, now).requests
  {
  }

  lemma RatedBucket(q: Quota, c: Settings, t: string, u: string, now: real, k: Key)
    ensures Bucket(Rated(q, c, t, u, now), k) ==
            if k == UserKey(t, u) || (k == TenantKey(t) && RateAdmits(q, c, UserKey(t, u), now))
            then Checked(Bucket(q, k), LimitOf(c, k), now) else Bucket(q, k)
  {
  }

  lemma NotedFor(h: History, c: Settings, t: string, u: string, run: string, now: real, k: Key)
    requires run !in h.quota.reservations
    ensures var asUser := RateAdmits(h.quota, c, UserKey(t, u), now);
            Admitted(h.(admitted := NotedAll(h, c, t, u, run, now)), k) ==
            if (k == UserKey(t, u) || k == TenantKey(t)) && asUser && RateAdmits(h.quota, c, k, now)
            then Admitted(h, k) + [now] else Admitted(h, k)
  {
  }

  lemma ReserveMovesBucket(h: History, c: Settings, t: string, u: string, run: string, now: real, k: Key)
    ensures
      var h' := After(h, c, Reserve(t, u, run, now));
      || (Bucket(h'.quota, k) == Bucket(h.quota, k) && Admitted(h', k) == Admitted(h, k))
      || (Bucket(h'.quota, k) == Checked(Bucket(h.quota, k), LimitOf(c, k), now)
          && Admitted(h', k) == if RateAdmits(h.quota, c, k, now) then Admitted(h, k) + [now] else Admitted(h, k))
  {
    ReserveRates(h.quota, c, t, u, run, now);
    if run !in h.quota.reservations {
      RatedBucket(h.quota, c, t, u, now, k);
      NotedFor(h, c, t, u, run, now, k);
    }
  }

  lemma ReserveKeepsRates(h: History, c: Settings, t: string, u: string, run: string, now: real)
    requires RatesOk(h, c) && TimeMovesOn(h, Reserve(t, u, run, now))
    ensures RatesOk(After(h, c, Reserve(t, u, run, now)), c)
  {
    var h' := After(h, c, Reserve(t, u, run, now));
    forall k: Key ensures WindowInv(Bucket(h'.quota, k), Admitted(h', k), LimitOf(c, k), h'.clock) {
      ReserveMovesBucket(h, c, t, u, run, now, k);
      CheckKeepsWindow(Bucket(h.quota, k), Admitted(h, k), LimitOf(c, k), h.clock, now);
      LaterClockKeepsWindow(Bucket(h.quota, k), Admitted(h, k), LimitOf(c, k), h.clock, now);
    }
  }

  lemma {:induction false} EveryHistoryKeepsRates(c: Settings, calls: seq<Call>)
    requires Monotone(c, calls)
    ensures RatesOk(Play(c, calls), c)
  {
    if calls != [] {
      var n := |calls| - 1;
      EveryHistoryKeepsRates(c, calls[..n]);
      if calls[n].Reserve? {
        ReserveKeepsRates(Play(c, calls[..n]), c, calls[n].tenant, calls[n].user, calls[n].run, calls[n].now);
      }
    }
  }

  /** Main result: over any history with a monotone clock, every window of sixty seconds, wherever it
      starts, lets at most the configured number of requests of a key through. */
  lemma EveryWindowIsBounded(c: Settings, calls: seq<Call>, k: Key, from: real)
    requires Monotone(c, calls)
    ensures CountWithin(Admitted(Play(c, calls), k), from) <= if k.UserKey? then c.userRate else c.tenantRate
  {
    EveryHistoryKeepsRates(c, calls);
    SpacedBoundsEveryWindow(Admitted(Play(c, calls), k), LimitOf(c, k), from);
  }

  // ----- tokens

  /** The limits of the outstanding reservations of a tenant, added up. */
  ghost function Outstanding(m: map<string, Reservation>, tenant: string): nat
    decreases |m|
  {
    if m == map[] then 0
    else
      var run :| run in m;
      Outstanding(m - {run}, tenant) + (if m[run].tenant == tenant then m[run].tokenLimit else 0)
  }

  lemma {:induction false} OutstandingWithout(m: map<string, Reservation>, run: string, tenant: string)
    requires run in m
    ensures Outstanding(m, tenant) ==
            Outstanding(m - {run}, tenant) + (if m[run].tenant == tenant then m[run].tokenLimit else 0)
    decreases |m|
  {
    var first :| first in m && Outstanding(m, tenant) ==
      Outstanding(m - {first}, tenant) + (if m[first].tenant == tenant then m[first].tokenLimit else 0);
    if first != run {
      OutstandingWithout(m - {first}, run, tenant);
      OutstandingWithout(m - {run}, first, tenant);
      assert m - {first} - {run} == m - {run} - {first};
    }
  }

  lemma OutstandingWith(m: map<string, Reservation>, run: string, r: Reservation, tenant: string)
    requires run !in m
    ensures Outstanding(m[run := r], tenant) ==
            Outstanding(m, tenant) + (if r.tenant == tenant then r.tokenLimit else 0)
  {
    assert m[run := r] - {run} == m;
    OutstandingWithout(m[run := r], run, tenant);
  }

  ghost predicate TokensOkFor(q: Quota, c: Settings, t: string) {
    && Count(q.reserved, t) == Outstanding(q.reservations, t)
    && Count(q.daily, t) + Count(q.reserved, t) <= c.dailyTokens
  }

  ghost predicate TokensOk(q: Quota, c: Settings) {
    forall t: string :: TokensOkFor(q, c, t)
  }

  /** Each run uses at most the tokens it reserved. */
  predicate WithinOwnLimit(h: History, call: Call) {
    call.Settle? && call.run in h.quota.reservations ==> call.tokens <= h.quota.reservations[call.run].tokenLimit
  }

  predicate Frugal(c: Settings, calls: seq<Call>) {
    calls == [] || (Frugal(c, calls[..|calls| - 1]) &&
        WithinOwnLimit(Play(c, calls[..|calls| - 1]), calls[|calls| - 1]))
  }

  lemma FinishKeepsTokens(q: Quota, c: Settings, run: string, t: string)
    requires TokensOk(q, c) && run in q.reservations
    ensures
      var r := q.reservations[run];
      && Count(q.reserved, r.tenant) >= r.tokenLimit
      && Outstanding(q.reservations - {run}, t) ==
         (if r.tenant == t then Count(q.reserved, t) - r.tokenLimit else Count(q.reserved, t))
  {
    OutstandingWithout(q.reservations, run, t);
    OutstandingWithout(q.reservations, run, q.reservations[run].tenant);
    assert TokensOkFor(q, c, t) && TokensOkFor(q, c, q.reservations[run].tenant);
  }

  lemma RefusedReservesNothing(q: Quota, c: Settings, tenant: string, user: string, run: string, now: real)
    requires run in q.reservations || ReserveVerdict(q, c, tenant, user, now).Some?
    ensures var q' := Reserved(q, c, tenant, user, run, now);
            q'.reservations == q.reservations && q'.reserved == q.reserved && q'.daily == q.daily &&
            q'.queued == q.queued && q'.active == q.active
  {
  }

  lemma AcceptedReserves(q: Quota, c: Settings, tenant: string, user: string, run: string, now: real)
    requires run !in q.reservations && ReserveVerdict(q, c, tenant, user, now).None?
    ensures var q' := Reserved(q, c, tenant, user, run, now);
            && q'.reservations == q.reservations[run := Reservation(tenant, user, c.runTokens)]
            && q'.reserved == q.reserved[tenant := Count(q.reserved, tenant) + c.runTokens]
            && q'.queued == q.queued[tenant := Count(q.queued, tenant) + 1]
            && q'.daily == q.daily && q'.active == q.active
    ensures Count(q.daily, tenant) + Count(q.reserved, tenant) + c.runTokens <= c.dailyTokens
  {
  }

  lemma ReserveKeepsTokens(q: Quota, c: Settings, tenant: string, user: string, run: string, now: real, t: string)
    requires TokensOk(q, c)
    ensures TokensOkFor(Reserved(q, c, tenant, user, run, now), c, t)
  {
    assert TokensOkFor(q, c, t);
    if run in q.reservations || ReserveVerdict(q, c, tenant, user, now).Some? {
      RefusedReservesNothing(q, c, tenant, user, run, now);
    } else {
      AcceptedReserves(q, c, tenant, user, run, now);
      OutstandingWith(q.reservations, run, Reservation(tenant, user, c.runTokens), t);
    }
  }

  lemma SettleKeepsTokens(q: Quota, c: Settings, run: string, tokens: int, t: string)
    requires TokensOk(q, c) && (run in q.reservations ==> tokens <= q.reservations[run].tokenLimit)
    ensures TokensOkFor(Settled(q, c, run, tokens), c, t)
  {
    assert TokensOkFor(q, c, t);
    if run in q.reservations {
      FinishKeepsTokens(q, c, run, t);
    }
  }

  lemma ReleaseKeepsTokens(q: Quota, c: Settings, run: string, t: string)
    requires TokensOk(q, c)
    ensures TokensOkFor(Released(q, run), c, t)
  {
    assert TokensOkFor(q, c, t);
    if run in q.reservations {
      FinishKeepsTokens(q, c, run, t);
    }
  }

  lemma CallKeepsTokens(h: History, c: Settings, call: Call)
    requires TokensOk(h.quota, c) && WithinOwnLimit(h, call)
    ensures TokensOk(After(h, c, call).quota, c)
  {
    forall t: string ensures TokensOkFor(After(h, c, call).quota, c, t) {
      match call
      case Reserve(tenant, user, run, now) => ReserveKeepsTokens(h.quota, c, tenant, user, run, now, t);
      case Activate(_) => assert TokensOkFor(h.quota, c, t);
      case Settle(run, tokens) => SettleKeepsTokens(h.quota, c, run, tokens, t);
      case Release(run) => ReleaseKeepsTokens(h.quota, c, run, t);
    }
  }

  lemma {:induction false} EveryHistoryKeepsTokens(c: Settings, calls: seq<Call>)
    requires Frugal(c, calls)
    ensures TokensOk(Play(c, calls).quota, c)
  {
    if calls != [] {
      var n := |calls| - 1;
      EveryHistoryKeepsTokens(c, calls[..n]);
      CallKeepsTokens(Play(c, calls[..n]), c, calls[n]);
    }
  }

  /** Conservation: if every run so far used at most what it reserved, the reserved counter is the
      sum of the outstanding limits, and settling a run within its limit is never refused. */
  lemma SettlingWithinLimitSucceeds(c: Settings, calls: seq<Call>, run: string, tokens: int)
    requires Frugal(c, calls)
    requires run in Play(c, calls).quota.reservations && tokens <= Play(c, calls).quota.reservations[run].tokenLimit
    ensures !SettleRefused(Play(c, calls).quota, c, run, tokens)
    ensures Count(Play(c, calls).quota.reserved, Play(c, calls).quota.reservations[run].tenant)
         == Outstanding(Play(c, calls).quota.reservations, Play(c, calls).quota.reservations[run].tenant)
  {
    EveryHistoryKeepsTokens(c, calls);
    var q := Play(c, calls).quota;
    FinishKeepsTokens(q, c, run, q.reservations[run].tenant);
    assert TokensOkFor(q, c, q.reservations[run].tenant);
  }

  /** The runs of a tenant that hold a reservation. */
  ghost function Live(m: map<string, Reservation>, tenant: string): set<string> {
    set run | run in m && m[run].tenant == tenant
  }

  ghost predicate AllOfRunSize(q: Quota, c: Settings) {
    forall run :: run in q.reservations ==> q.reservations[run].tokenLimit == c.runTokens
  }

  /** What is charged and what is reserved, for every tenant. */
  ghost predicate AccountsOk(h: History, c: Settings) {
    && AllOfRunSize(h.quota, c)
    && forall t: string :: AccountOf(h, t)
  }

  ghost predicate AccountOf(h: History, t: string) {
    Count(h.quota.daily, t) == Count(h.charged, t) &&
    Count(h.quota.reserved, t) == Outstanding(h.quota.reservations, t)
  }

  lemma LiveWithout(m: map<string, Reservation>, run: string, tenant: string)
    requires run in m
    ensures |Live(m, tenant)| == |Live(m - {run}, tenant)| + (if m[run].tenant == tenant then 1 else 0)
  {
    var rest := Live(m - {run}, tenant);
    if m[run].tenant == tenant {
      assert Live(m, tenant) == rest + {run} && run !in rest;
    } else {
      assert Live(m, tenant) == rest;
    }
  }

  lemma {:induction false} OutstandingIsLive(m: map<string, Reservation>, tenant: string, size: nat)
    requires forall run :: run in m ==> m[run].tokenLimit == size
    ensures Outstanding(m, tenant) == Times(size, |Live(m, tenant)|)
    decreases |m|
  {
    if run :| run in m {
      OutstandingWithout(m, run, tenant);
      LiveWithout(m, run, tenant);
      OutstandingIsLive(m - {run}, tenant, size);
    } else {
      assert m == map[] && Live(m, tenant) == {};
    }
  }

  lemma ReturnedTokens(q: Quota, run: string, t: string)
    requires run in q.reservations
    requires Count(q.reserved, t) == Outstanding(q.reservations, t)
    requires var o := q.reservations[run].tenant; Count(q.reserved, o) == Outstanding(q.reservations, o)
    ensures var r := q.reservations[run];
            Outstanding(q.reservations - {run}, t) ==
            if r.tenant == t then Less(Count(q.reserved, t), r.tokenLimit) else Count(q.reserved, t)
  {
    OutstandingWithout(q.reservations, run, t);
  }

  lemma CallKeepsAccount(h: History, c: Settings, call: Call, t: string)
    requires AccountsOk(h, c)
    ensures AccountOf(After(h, c, call), t)
  {
    assert AccountOf(h, t);
    match call
    case Reserve(tenant, user, run, now) =>
      if run in h.quota.reservations || ReserveVerdict(h.quota, c, tenant, user, now).Some? {
        RefusedReservesNothing(h.quota, c, tenant, user, run, now);
      } else {
        AcceptedReserves(h.quota, c, tenant, user, run, now);
        OutstandingWith(h.quota.reservations, run, Reservation(tenant, user, c.runTokens), t);
      }
    case Activate(_) =>
    case Settle(run, _) =>
      if run in h.quota.reservations {
        assert AccountOf(h, h.quota.reservations[run].tenant);
        ReturnedTokens(h.quota, run, t);
      }
    case Release(run) =>
      if run in h.quota.reservations {
        assert AccountOf(h, h.quota.reservations[run].tenant);
        ReturnedTokens(h.quota, run, t);
      }
  }

  lemma CallKeepsRunSize(h: History, c: Settings, call: Call)
    requires AllOfRunSize(h.quota, c)
    ensures AllOfRunSize(After(h, c, call).quota, c)
  {
    if call.Reserve? && call.run !in h.quota.reservations {
      if ReserveVerdict(h.quota, c, call.tenant, call.user, call.now).Some? {
        RefusedReservesNothing(h.quota, c, call.tenant, call.user, call.run, call.now);
      } else {
        AcceptedReserves(h.quota, c, call.tenant, call.user, call.run, call.now);
      }
    }
  }

  lemma {:induction false} EveryHistoryKeepsAccounts(c: Settings, calls: seq<Call>)
    ensures AccountsOk(Play(c, calls), c)
  {
    if calls != [] {
      var n := |calls| - 1;
      EveryHistoryKeepsAccounts(c, calls[..n]);
      CallKeepsRunSize(Play(c, calls[..n]), c, calls[n]);
      forall t: string ensures AccountOf(Play(c, calls), t) {
        CallKeepsAccount(Play(c, calls[..n]), c, calls[n], t);
      }
    }
  }

  /** Main result: over every history whatsoever the daily counter of a tenant is the sum of the tokens of
      its accepted settlements. So a settlement is refused exactly when that sum and its own tokens
      exceed the day, and a reservation that passed rates and queue is refused exactly when that sum, a
      full run for each live reservation, and one more do. */
  lemma TokensAreCharged(c: Settings, calls: seq<Call>, tenant: string, run: string, tokens: int)
    ensures var h := Play(c, calls);
            && Count(h.quota.daily, tenant) == Count(h.charged, tenant)
            && (run in h.quota.reservations && h.quota.reservations[run].tenant == tenant ==>
                  (SettleRefused(h.quota, c, run, tokens) <==>
                   Count(h.charged, tenant) + Max(0, tokens) > c.dailyTokens))
            && (Count(h.quota.queued, tenant) < c.queueRuns ==>
                  (BookVerdict(h.quota, c, tenant) == Some(TokenQuotaExceeded) <==>
                   Count(h.charged, tenant) + Times(c.runTokens, |Live(h.quota.reservations, tenant)| + 1)
                   > c.dailyTokens))
  {
    EveryHistoryKeepsAccounts(c, calls);
    var h := Play(c, calls);
    assert AccountOf(h, tenant);
    OutstandingIsLive(h.quota.reservations, tenant, c.runTokens);
  }

  // ----- queue and activity

  ghost function Waiting(h: History, t: string): set<string> {
    set run | run in h.quota.reservations && h.quota.reservations[run].tenant == t && run !in h.activated
  }

  ghost function Working(h: History, t: string): set<string> {
    set run | run in h.quota.reservations && h.quota.reservations[run].tenant == t && run in h.activated
  }

  ghost predicate NeverOverCounts(h: History) {
    forall t: string :: FitsFor(h, t)
  }

  /** One activation per reservation, and only activated runs are settled. */
  predicate Disciplined(h: History, call: Call) {
    && (call.Activate? ==> call.run !in h.activated)
    && (call.Settle? && call.run in h.quota.reservations ==> call.run in h.activated)
  }

  predicate DisciplinedCalls(c: Settings, calls: seq<Call>) {
    calls == [] ||
      (DisciplinedCalls(c, calls[..|calls| - 1]) && Disciplined(Play(c, calls[..|calls| - 1]), calls[|calls| - 1]))
  }

  ghost predicate ActivatedLive(h: History) {
    forall run :: run in h.activated ==> run in h.quota.reservations
  }

  /** What each call does to the two sets of live reservations of a tenant. */
  lemma SetsMove(h: History, c: Settings, call: Call, t: string)
    requires ActivatedLive(h)
    ensures ActivatedLive(After(h, c, call))
    ensures
      var h' := After(h, c, call);
      match call
      case Reserve(tenant, _, run, _) =>
        && Working(h', t) == Working(h, t)
        && Waiting(h', t) == Waiting(h, t) +
             (if tenant == t && h'.quota.reservations != h.quota.reservations then {run} else {})
      case Activate(run) =>
        var moved := if run in h.quota.reservations && h.quota.reservations[run].tenant == t then {run} else {};
        Working(h', t) == Working(h, t) + moved && Waiting(h', t) == Waiting(h, t) - moved
      case Settle(run, _) => Working(h', t) == Working(h, t) - {run} && Waiting(h', t) == Waiting(h, t) - {run}
      case Release(run) => Working(h', t) == Working(h, t) - {run} && Waiting(h', t) == Waiting(h, t) - {run}
  {
    match call
    case Reserve(tenant, user, run, now) => ReserveMovesSets(h, c, tenant, user, run, now, t);
    case Activate(run) =>
    case Settle(run, tokens) => EndingMovesSets(h, After(h, c, call), run, t);
    case Release(run) => EndingMovesSets(h, After(h, c, call), run, t);
  }

  lemma ReserveMovesSets(h: History, c: Settings, tenant: string, user: string, run: string, now: real, t: string)
    requires ActivatedLive(h)
    ensures var h' := After(h, c, Reserve(tenant, user, run, now));
            && ActivatedLive(h') && Working(h', t) == Working(h, t)
            && Waiting(h', t) == Waiting(h, t) +
                 (if tenant == t && h'.quota.reservations != h.quota.reservations then {run} else {})
  {
    if run in h.quota.reservations || ReserveVerdict(h.quota, c, tenant, user, now).Some? {
      RefusedReservesNothing(h.quota, c, tenant, user, run, now);
    } else {
      AcceptedReserves(h.quota, c, tenant, user, run, now);
      assert run !in h.activated;
    }
  }

  lemma EndingMovesSets(h: History, h': History, run: string, t: string)
    requires ActivatedLive(h) && h'.activated == h.activated - {run}
    requires h'.quota.reservations == h.quota.reservations - {run}
    ensures ActivatedLive(h')
    ensures Working(h', t) == Working(h, t) - {run} && Waiting(h', t) == Waiting(h, t) - {run}
  {
  }

  ghost predicate FitsFor(h: History, t: string) {
    Count(h.quota.queued, t) <= |Waiting(h, t)| && Count(h.quota.active, t) <= |Working(h, t)|
  }

  /** What each call does to the two counters of a tenant. */
  lemma CountersMove(h: History, c: Settings, call: Call, t: string)
    ensures
      var q, q' := h.quota, After(h, c, call).quota;
      var here := !call.Reserve? && call.run in q.reservations && q.reservations[call.run].tenant == t;
      match call
      case Reserve(tenant, _, _, _) =>
        && Count(q'.active, t) == Count(q.active, t)
        && Count(q'.queued, t) ==
             Count(q.queued, t) + (if tenant == t && q'.reservations != q.reservations then 1 else 0)
      case Activate(_) =>
        if here && Count(q.queued, t) > 0
        then Count(q'.queued, t) == Count(q.queued, t) - 1 && Count(q'.active, t) == Count(q.active, t) + 1
        else Count(q'.queued, t) == Count(q.queued, t) && Count(q'.active, t) == Count(q.active, t)
      case Settle(_, _) =>
        && Count(q'.queued, t) == Count(q.queued, t)
        && Count(q'.active, t) == if here then Less(Count(q.active, t), 1) else Count(q.active, t)
      case Release(_) =>
        && Count(q'.queued, t) == (if here then Less(Count(q.queued, t), 1) else Count(q.queued, t))
        && Count(q'.active, t) == if here then Less(Count(q.active, t), 1) else Count(q.active, t)
  {
    if call.Reserve? && After(h, c, call).quota.reservations == h.quota.reservations &&
        call.run !in h.quota.reservations {
      assert ReserveVerdict(h.quota, c, call.tenant, call.user, call.now).Some?;
    }
  }

  lemma CallKeepsFit(h: History, c: Settings, call: Call, t: string)
    requires FitsFor(h, t) && ActivatedLive(h) && Disciplined(h, call)
    ensures FitsFor(After(h, c, call), t)
  {
    SetsMove(h, c, call, t);
    CountersMove(h, c, call, t);
    if call.Reserve? {
      assert call.run in h.quota.reservations || call.run !in Waiting(h, t);
    } else if call.run in h.quota.reservations && h.quota.reservations[call.run].tenant == t {
      assert call.run in Waiting(h, t) <==> call.run !in h.activated;
      assert call.run in Working(h, t) <==> call.run in h.activated;
    } else {
      assert call.run !in Waiting(h, t) && call.run !in Working(h, t);
    }
  }

  lemma CallNeverOverCounts(h: History, c: Settings, call: Call)
    requires NeverOverCounts(h) && ActivatedLive(h) && Disciplined(h, call)
    ensures NeverOverCounts(After(h, c, call)) && ActivatedLive(After(h, c, call))
  {
    forall t: string ensures FitsFor(After(h, c, call), t) {
      assert FitsFor(h, t);
      CallKeepsFit(h, c, call, t);
    }
    SetsMove(h, c, call, "");
  }

  lemma {:induction false} CountersNeverExceedReality(c: Settings, calls: seq<Call>)
    requires DisciplinedCalls(c, calls)
    ensures NeverOverCounts(Play(c, calls)) && ActivatedLive(Play(c, calls))
  {
    if calls != [] {
      var n := |calls| - 1;
      CountersNeverExceedReality(c, calls[..n]);
      CallNeverOverCounts(Play(c, calls[..n]), c, calls[n]);
    }
  }

  /** Releasing takes one off both counters although the run was in one place: exact counters stay
      exact exactly when the other counter was zero already. */
  lemma ReleaseIsExactIff(h: History, c: Settings, run: string)
    requires ActivatedLive(h) && run in h.quota.reservations
    requires var t := h.quota.reservations[run].tenant;
      Count(h.quota.queued, t) == |Waiting(h, t)| && Count(h.quota.active, t) == |Working(h, t)|
    ensures
      var t := h.quota.reservations[run].tenant;
      var h' := After(h, c, Release(run));
      (Count(h'.quota.queued, t) == |Waiting(h', t)| && Count(h'.quota.active, t) == |Working(h', t)|)
      <==> (if run in h.activated then Count(h.quota.queued, t) == 0 else Count(h.quota.active, t) == 0)
  {
    var t := h.quota.reservations[run].tenant;
    SetsMove(h, c, Release(run), t);
    assert run in Waiting(h, t) <==> run !in h.activated;
    assert run in Working(h, t) <==> run in h.activated;
  }

  // ----- exact verdicts

  lemma {:induction false} CountOfSuffix(s: seq<real>, dropped: nat, from: real)
    requires dropped <= |s|
    requires forall i :: 0 <= i < dropped ==> s[i] <= from
    requires forall i :: dropped <= i < |s| ==> from < s[i] <= from + WINDOW
    ensures CountWithin(s, from) == |s| - dropped
    decreases |s|
  {
    if s != [] {
      CountOfSuffix(s[..|s| - 1], if dropped == |s| then dropped - 1 else dropped, from);
    }
  }

  /** What is left of a bucket is what was admitted within the last sixty seconds. */
  lemma PrunedIsWindow(bucket: seq<real>, admitted: seq<real>, limit: nat, clock: Option<real>, now: real)
    requires WindowInv(bucket, admitted, limit, clock) && (clock.Some? ==> clock.value <= now)
    ensures |Pruned(bucket, now)| == CountWithin(admitted, now - WINDOW)
  {
    PruneKeepsWindow(bucket, admitted, limit, clock, now);
    assert Sorted(bucket) by {
      assert forall i :: 0 <= i < |bucket| ==> bucket[i] == admitted[|admitted| - |bucket| + i];
    }
    PrunedIsSuffix(bucket, now);
    var kept := Pruned(bucket, now);
    KeptAreRecent(admitted, kept, limit, now);
    CountOfSuffix(admitted, |admitted| - |kept|, now - WINDOW);
  }

  lemma KeptAreRecent(admitted: seq<real>, kept: seq<real>, limit: nat, now: real)
    requires WindowInv(kept, admitted, limit, Some(now))
    requires forall i :: 0 <= i < |kept| ==> kept[i] > now - WINDOW
    ensures forall i :: |admitted| - |kept| <= i < |admitted| ==> now - WINDOW < admitted[i] <= now - WINDOW + WINDOW
  {
    forall i | |admitted| - |kept| <= i < |admitted| ensures now - WINDOW < admitted[i] <= now - WINDOW + WINDOW {
      assert admitted[i] == kept[i - (|admitted| - |kept|)];
    }
  }

  /** A request is refused for its rate exactly when as many as allowed were admitted within the last sixty
      seconds; with an allowance of zero the refusal itself fails. */
  function RateFrom(h: History, k: Key, limit: nat, now: real): Option<Refusal> {
    if CountWithin(Admitted(h, k), now - 60.0) < limit then None
    else if limit == 0 then Some(HintFailed)
    else Some(RateLimited)
  }

  lemma RateVerdictIsExact(h: History, c: Settings, k: Key, now: real)
    requires RatesOk(h, c) && (h.clock.Some? ==> h.clock.value <= now)
    ensures RateVerdict(h.quota, c, k, now) == RateFrom(h, k, LimitOf(c, k), now)
    ensures RateAdmits(h.quota, c, k, now) <==> RateFrom(h, k, LimitOf(c, k), now).None?
  {
    var bucket, admitted := Bucket(h.quota, k), Admitted(h, k);
    assert WindowInv(bucket, admitted, LimitOf(c, k), h.clock);
    PrunedIsWindow(bucket, admitted, LimitOf(c, k), h.clock, now);
    WindowUnderZero(bucket, admitted, LimitOf(c, k), h.clock, now);
  }

  lemma WindowUnderZero(bucket: seq<real>, admitted: seq<real>, limit: nat, clock: Option<real>, now: real)
    requires WindowInv(bucket, admitted, limit, clock)
    ensures |Pruned(bucket, now)| >= limit ==> (Pruned(bucket, now) == [] <==> limit == 0)
  {
    if limit == 0 {
      SpacedByZeroIsEmpty(admitted, limit);
    }
    PrunedIsShorter(bucket, now);
  }

  lemma SpacedByZeroIsEmpty(s: seq<real>, limit: nat)
    requires Spaced(s, limit) && limit == 0
    ensures s == []
  {
    var first: nat := 0;
    if s != [] {
      SpacedMeans(s, limit, first, first);
    }
  }

  lemma SpacedMeans(s: seq<real>, limit: nat, i: nat, j: nat)
    requires Spaced(s, limit) && i + limit <= j < |s|
    ensures s[i] <= s[j] - WINDOW
  {
  }

  lemma {:induction false} PrunedIsShorter(bucket: seq<real>, now: real)
    ensures |Pruned(bucket, now)| <= |bucket|
  {
    if bucket != [] && bucket[0] <= now - WINDOW {
      PrunedIsShorter(bucket[1..], now);
    }
  }

  /** A run is released only while nothing of its tenant stands in the other place. */
  ghost predicate CleanRelease(h: History, call: Call) {
    call.Release? && call.run in h.quota.reservations ==>
      var t := h.quota.reservations[call.run].tenant;
      if call.run in h.activated then Waiting(h, t) == {} else Working(h, t) == {}
  }

  ghost predicate CleanCalls(c: Settings, calls: seq<Call>) {
    calls == [] ||
      (CleanCalls(c, calls[..|calls| - 1]) && CleanRelease(Play(c, calls[..|calls| - 1]), calls[|calls| - 1]))
  }

  ghost predicate ExactFor(h: History, t: string) {
    Count(h.quota.queued, t) == |Waiting(h, t)| && Count(h.quota.active, t) == |Working(h, t)|
  }

  ghost predicate CountersExact(h: History) {
    forall t: string :: ExactFor(h, t)
  }

  lemma ReserveStaysExact(h: History, c: Settings, call: Call, t: string)
    requires call.Reserve? && ExactFor(h, t) && ActivatedLive(h)
    ensures ExactFor(After(h, c, call), t)
  {
    SetsMove(h, c, call, t);
    CountersMove(h, c, call, t);
    assert call.run in h.quota.reservations || call.run !in Waiting(h, t);
    assert call.run in h.quota.reservations ==> After(h, c, call).quota == h.quota;
  }

  /** A call on a live run of the tenant moves it out of the set in which it was. */
  lemma OneLess(h: History, run: string, t: string)
    requires ActivatedLive(h)
    ensures var here := run in h.quota.reservations && h.quota.reservations[run].tenant == t;
            && |Waiting(h, t) - {run}| == |Waiting(h, t)| - (if here && run !in h.activated then 1 else 0)
            && |Working(h, t) - {run}| == |Working(h, t)| - (if here && run in h.activated then 1 else 0)
  {
    assert run !in Waiting(h, t) ==> Waiting(h, t) - {run} == Waiting(h, t);
    assert run !in Working(h, t) ==> Working(h, t) - {run} == Working(h, t);
  }

  lemma MovingOne(from: set<string>, to: set<string>, run: string)
    requires run in from && run !in to
    ensures |from - {run}| == |from| - 1 && |to + {run}| == |to| + 1
  {
  }

  /** Activating a run that waits takes it from one set and one counter to the other. */
  lemma ActivationMovesOne(h: History, c: Settings, run: string, t: string)
    requires run in h.quota.reservations && h.quota.reservations[run].tenant == t && Count(h.quota.queued, t) > 0
    ensures var h' := After(h, c, Activate(run));
            && Waiting(h', t) == Waiting(h, t) - {run} && Working(h', t) == Working(h, t) + {run}
            && Count(h'.quota.queued, t) == Count(h.quota.queued, t) - 1
            && Count(h'.quota.active, t) == Count(h.quota.active, t) + 1
  {
  }

  lemma ActivationElsewhere(h: History, c: Settings, run: string, t: string)
    requires !(run in h.quota.reservations && h.quota.reservations[run].tenant == t)
    ensures var h' := After(h, c, Activate(run));
            && Waiting(h', t) == Waiting(h, t) && Working(h', t) == Working(h, t)
            && Count(h'.quota.queued, t) == Count(h.quota.queued, t)
            && Count(h'.quota.active, t) == Count(h.quota.active, t)
  {
  }

  lemma ActivateStaysExact(h: History, c: Settings, call: Call, t: string)
    requires call.Activate? && ExactFor(h, t) && ActivatedLive(h) && Disciplined(h, call)
    ensures ExactFor(After(h, c, call), t)
  {
    if call.run in h.quota.reservations && h.quota.reservations[call.run].tenant == t {
      MovingOne(Waiting(h, t), Working(h, t), call.run);
      ActivationMovesOne(h, c, call.run, t);
    } else {
      ActivationElsewhere(h, c, call.run, t);
    }
  }

  lemma EndingStaysExact(h: History, c: Settings, call: Call, t: string)
    requires (call.Settle? || call.Release?) && ExactFor(h, t) && ActivatedLive(h)
    requires Disciplined(h, call) && CleanRelease(h, call)
    ensures ExactFor(After(h, c, call), t)
  {
    SetsMove(h, c, call, t);
    CountersMove(h, c, call, t);
    OneLess(h, call.run, t);
  }

  lemma CallStaysExact(h: History, c: Settings, call: Call, t: string)
    requires ExactFor(h, t) && ActivatedLive(h) && Disciplined(h, call) && CleanRelease(h, call)
    ensures ExactFor(After(h, c, call), t)
  {
    if call.Reserve? {
      ReserveStaysExact(h, c, call, t);
    } else if call.Activate? {
      ActivateStaysExact(h, c, call, t);
    } else {
      EndingStaysExact(h, c, call, t);
    }
  }

  /** With one activation per reservation before settling, and clean releases, both counters are exact. */
  lemma {:induction false} CountersAreExact(c: Settings, calls: seq<Call>)
    requires DisciplinedCalls(c, calls) && CleanCalls(c, calls)
    ensures CountersExact(Play(c, calls)) && ActivatedLive(Play(c, calls))
  {
    if calls == [] {
      forall t: string ensures ExactFor(Start, t) {
        assert Waiting(Start, t) == {} && Working(Start, t) == {};
      }
    } else {
      var n := |calls| - 1;
      var h := Play(c, calls[..n]);
      CountersAreExact(c, calls[..n]);
      SetsMove(h, c, calls[n], "");
      forall t: string ensures ExactFor(Play(c, calls), t) {
        assert ExactFor(h, t);
        CallStaysExact(h, c, calls[n], t);
      }
    }
  }

  /** What a new reservation is told, in terms of what was admitted, what waits and what was charged. */
  ghost function VerdictFrom(h: History, c: Settings, tenant: string, user: string, now: real): Option<Refusal> {
    if RateFrom(h, UserKey(tenant, user), c.userRate, now).Some?
    then RateFrom(h, UserKey(tenant, user), c.userRate, now)
    else if RateFrom(h, TenantKey(tenant), c.tenantRate, now).Some?
    then RateFrom(h, TenantKey(tenant), c.tenantRate, now)
    else if |Waiting(h, tenant)| >= c.queueRuns then Some(RunQueueFull)
    else if Count(h.charged, tenant) + Times(c.runTokens, |Live(h.quota.reservations, tenant)| + 1) > c.dailyTokens
         then Some(TokenQuotaExceeded)
    else None
  }

  /** Main result: over every disciplined history with a monotone clock each verdict on a new reservation is
      exactly what the history says, and an accepted one adds the run to those that wait. */
  lemma ReserveVerdictIsExact(
    c: Settings, calls: seq<Call>, tenant: string, user: string, run: string, now: real)
    requires Monotone(c, calls) && DisciplinedCalls(c, calls) && CleanCalls(c, calls)
    requires var h := Play(c, calls); run !in h.quota.reservations && (h.clock.Some? ==> h.clock.value <= now)
    ensures var h, h' := Play(c, calls), After(Play(c, calls), c, Reserve(tenant, user, run, now));
            && ReserveVerdict(h.quota, c, tenant, user, now) == VerdictFrom(h, c, tenant, user, now)
            && Waiting(h', tenant) ==
                 Waiting(h, tenant) + if VerdictFrom(h, c, tenant, user, now).None? then {run} else {}
  {
    VerdictIsHistory(c, calls, tenant, user, run, now);
    CountersAreExact(c, calls);
    WaitingAfterReserve(Play(c, calls), c, tenant, user, run, now);
  }

  lemma VerdictIsHistory(c: Settings, calls: seq<Call>, tenant: string, user: string, run: string, now: real)
    requires Monotone(c, calls) && DisciplinedCalls(c, calls) && CleanCalls(c, calls)
    requires var h := Play(c, calls); h.clock.Some? ==> h.clock.value <= now
    ensures var h := Play(c, calls);
            ReserveVerdict(h.quota, c, tenant, user, now) == VerdictFrom(h, c, tenant, user, now)
  {
    var h := Play(c, calls);
    EveryHistoryKeepsRates(c, calls);
    CountersAreExact(c, calls);
    TokensAreCharged(c, calls, tenant, run, 0);
    RateVerdictIsExact(h, c, UserKey(tenant, user), now);
    RateVerdictIsExact(h, c, TenantKey(tenant), now);
    assert ExactFor(h, tenant);
  }

  lemma WaitingAfterReserve(h: History, c: Settings, tenant: string, user: string, run: string, now: real)
    requires ActivatedLive(h) && run !in h.quota.reservations
    ensures Waiting(After(h, c, Reserve(tenant, user, run, now)), tenant) ==
            Waiting(h, tenant) + if ReserveVerdict(h.quota, c, tenant, user, now).None? then {run} else {}
  {
    SetsMove(h, c, Reserve(tenant, user, run, now), tenant);
    if ReserveVerdict(h.quota, c, tenant, user, now).Some? {
      RefusedReservesNothing(h.quota, c, tenant, user, run, now);
    } else {
      AcceptedReserves(h.quota, c, tenant, user, run, now);
    }
  }
}
