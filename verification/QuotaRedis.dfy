/** The shared quota gate of one tenant: the keys it keeps and the three scripts that run on them
    atomically. Counters live within one day and are not evicted; rate keys may expire at any time. */
module QuotaRedis {
  import opened Common

  /** `tokenLimit` is absent from a hash that activation alone created. */
  datatype Hash = Hash(tokenLimit: Option<nat>, active: bool)

  datatype Settings = Settings(
    userRate: nat, tenantRate: nat, queueRuns: nat, activeRuns: nat, runTokens: nat, dailyTokens: nat)

  datatype Keys = Keys(
    reservations: map<string, Hash>, userRates: map<string, nat>, tenantRate: nat,
    queued: int, active: int, used: int, reserved: int)

  const Empty: Keys := Keys(map[], map[], 0, 0, 0, 0, 0)

  function UserRate(k: Keys, user: string): nat {
    if user in k.userRates then k.userRates[user] else 0
  }

  function Limit(h: Hash): nat {
    h.tokenLimit.GetOr(0)
  }

  // ----- the scripts: a reply code and the keys afterwards

  function ReserveReply(k: Keys, c: Settings, user: string, run: string): int {
    if run in k.reservations then 2
    else if UserRate(k, user) >= c.userRate then -1
    else if k.tenantRate >= c.tenantRate then -2
    else if k.queued >= c.queueRuns then -3
    else if k.used + k.reserved + c.runTokens > c.dailyTokens then -4
    else 1
  }

  function Reserved(k: Keys, c: Settings, user: string, run: string): Keys {
    if ReserveReply(k, c, user, run) != 1 then k
    else Keys(
      k.reservations[run := Hash(Some(c.runTokens), false)],
      k.userRates[user := UserRate(k, user) + 1], k.tenantRate + 1,
      k.queued + 1, k.active, k.used, k.reserved + c.runTokens)
  }

  predicate IsActive(k: Keys, run: string) {
    run in k.reservations && k.reservations[run].active
  }

  function ActivateReply(k: Keys, c: Settings, run: string): int {
    if IsActive(k, run) then 1 else if k.active >= c.activeRuns then -1 else 1
  }

  function Activated(k: Keys, c: Settings, run: string): Keys {
    if IsActive(k, run) || k.active >= c.activeRuns then k
    else
      var limit := if run in k.reservations then k.reservations[run].tokenLimit else None;
      k.(reservations := k.reservations[run := Hash(limit, true)],
         queued := if k.queued > 0 then k.queued - 1 else k.queued,
         active := k.active + 1)
  }

  function Finished(k: Keys, run: string, tokens: nat): Keys {
    if run !in k.reservations then k
    else
      var h := k.reservations[run];
      k.(reservations := k.reservations - {run},
         active := if h.active && k.active > 0 then k.active - 1 else k.active,
         queued := if !h.active && k.queued > 0 then k.queued - 1 else k.queued,
         reserved := Max(0, k.reserved - Limit(h)),
         used := k.used + tokens)
  }

  class TenantQuota {
    const settings: Settings
    var reservations: map<string, Hash>
    var userRates: map<string, nat>
    var tenantRate: nat
    var queued: int
    var active: int
    var used: int
    var reserved: int

    ghost function View(): Keys
      reads this
    {
      Keys(reservations, userRates, tenantRate, queued, active, used, reserved)
    }

    constructor (settings: Settings)
      ensures View() == Empty && this.settings == settings
    {
      this.settings := settings;
      reservations, userRates, tenantRate := map[], map[], 0;
      queued, active, used, reserved := 0, 0, 0, 0;
    }

    method ReserveScript(user: string, run: string) returns (reply: int)
      modifies this
      ensures reply == ReserveReply(old(View()), settings, user, run)
      ensures View() == Reserved(old(View()), settings, user, run)
    {
      if run in reservations {
        return 2;
      }
      var ur := if user in userRates then userRates[user] else 0;
      if ur >= settings.userRate {
        return -1;
      }
      if tenantRate >= settings.tenantRate {
        return -2;
      }
      if queued >= settings.queueRuns {
        return -3;
      }
      if used + reserved + settings.runTokens > settings.dailyTokens {
        return -4;
      }
      userRates := userRates[user := ur + 1];
      tenantRate := tenantRate + 1;
      queued := queued + 1;
      reserved := reserved + settings.runTokens;
      reservations := reservations[run := Hash(Some(settings.runTokens), false)];
      return 1;
    }

    method ActivateScript(run: string) returns (reply: int)
      modifies this
      ensures reply == ActivateReply(old(View()), settings, run)
      ensures View() == Activated(old(View()), settings, run)
    {
      if run in reservations && reservations[run].active {
        return 1;
      }
      if active >= settings.activeRuns {
        return -1;
      }
      if run in reservations {
        reservations := reservations[run := reservations[run].(active := true)];
      } else {
        reservations := reservations[run := Hash(None, true)];
      }
      if queued > 0 {
        queued := queued - 1;
      }
      active := active + 1;
      return 1;
    }

    method FinishScript(run: string, tokens: nat) returns (reply: int)
      modifies this
      ensures reply == if run in old(reservations) then 1 else 0
      ensures View() == Finished(old(View()), run, tokens)
    {
      if run !in reservations {
        return 0;
      }
      var h := reservations[run];
      if h.active {
        if active > 0 {
          active := active - 1;
        }
      } else {
        if queued > 0 {
          queued := queued - 1;
        }
      }
      reserved := Max(0, reserved - Limit(h));
      used := used + tokens;
      reservations := reservations - {run};
      return 1;
    }
  }

  // ----- conservation

  ghost function Inactive(m: map<string, Hash>): set<string> {
    set run | run in m && !m[run].active
  }

  ghost function Active(m: map<string, Hash>): set<string> {
    set run | run in m && m[run].active
  }

  lemma CountsWithout(m: map<string, Hash>, run: string)
    requires run in m
    ensures |Inactive(m)| == |Inactive(m - {run})| + (if m[run].active then 0 else 1)
    ensures |Active(m)| == |Active(m - {run})| + (if m[run].active then 1 else 0)
  {
    assert Inactive(m - {run}) == Inactive(m) - {run};
    assert Active(m - {run}) == Active(m) - {run};
    assert run in Inactive(m) <==> !m[run].active;
    assert run in Active(m) <==> m[run].active;
  }

  lemma CountsWith(m: map<string, Hash>, run: string, h: Hash)
    ensures |Inactive(m[run := h])| == |Inactive(m - {run})| + (if h.active then 0 else 1)
    ensures |Active(m[run := h])| == |Active(m - {run})| + (if h.active then 1 else 0)
  {
    assert m[run := h] - {run} == m - {run};
    CountsWithout(m[run := h], run);
  }

  ghost function Outstanding(m: map<string, Hash>): nat
    decreases |m|
  {
    if m == map[] then 0
    else
      var run :| run in m;
      Outstanding(m - {run}) + Limit(m[run])
  }

  lemma {:induction false} OutstandingWithout(m: map<string, Hash>, run: string)
    requires run in m
    ensures Outstanding(m) == Outstanding(m - {run}) + Limit(m[run])
    decreases |m|
  {
    var first :| first in m && Outstanding(m) == Outstanding(m - {first}) + Limit(m[first]);
    if first != run {
      OutstandingWithout(m - {first}, run);
      OutstandingWithout(m - {run}, first);
      assert m - {first} - {run} == m - {run} - {first};
    }
  }

  lemma OutstandingWith(m: map<string, Hash>, run: string, h: Hash)
    ensures Outstanding(m[run := h]) == Outstanding(m - {run}) + Limit(h)
  {
    assert m[run := h] - {run} == m - {run};
    OutstandingWithout(m[run := h], run);
  }

  /** The counters are exactly what the live reservations say, and the limits hold. */
  ghost predicate CountsExact(k: Keys) {
    && k.queued == |Inactive(k.reservations)| && k.active == |Active(k.reservations)|
    && k.reserved == Outstanding(k.reservations)
  }

  ghost predicate Conserved(k: Keys, c: Settings) {
    && CountsExact(k)
    && k.queued <= c.queueRuns && k.active <= c.activeRuns
    && 0 <= k.used && k.used + k.reserved <= c.dailyTokens
  }

  datatype Call =
    | Reserve(user: string, run: string)
    | Activate(run: string)
    | Finish(run: string, tokens: nat)
    | ExpireUserRate(user: string)
    | ExpireTenantRate

  function After(k: Keys, c: Settings, call: Call): Keys {
    match call
    case Reserve(user, run) => Reserved(k, c, user, run)
    case Activate(run) => Activated(k, c, run)
    case Finish(run, tokens) => Finished(k, run, tokens)
    case ExpireUserRate(user) => k.(userRates := k.userRates - {user})
    case ExpireTenantRate => k.(tenantRate := 0)
  }

  function Play(c: Settings, calls: seq<Call>): Keys {
    if calls == [] then Empty else After(Play(c, calls[..|calls| - 1]), c, calls[|calls| - 1])
  }

  /** Only live reservations are activated, and a run uses at most what it reserved. */
  predicate Disciplined(k: Keys, call: Call) {
    match call
    case Activate(run) => run in k.reservations
    case Finish(run, tokens) => run in k.reservations ==> tokens <= Limit(k.reservations[run])
    case _ => true
  }

  predicate DisciplinedCalls(c: Settings, calls: seq<Call>) {
    calls == [] ||
      (DisciplinedCalls(c, calls[..|calls| - 1]) && Disciplined(Play(c, calls[..|calls| - 1]), calls[|calls| - 1]))
  }

  lemma ReserveConserves(k: Keys, c: Settings, user: string, run: string)
    requires Conserved(k, c)
    ensures Conserved(Reserved(k, c, user, run), c)
  {
    if run !in k.reservations {
      var h := Hash(Some(c.runTokens), false);
      assert k.reservations - {run} == k.reservations;
      CountsWith(k.reservations, run, h);
      OutstandingWith(k.reservations, run, h);
    }
  }

  lemma ActivateConserves(k: Keys, c: Settings, run: string)
    requires Conserved(k, c) && run in k.reservations
    ensures Conserved(Activated(k, c, run), c)
  {
    var h := Hash(k.reservations[run].tokenLimit, true);
    CountsWithout(k.reservations, run);
    CountsWith(k.reservations, run, h);
    OutstandingWith(k.reservations, run, h);
    OutstandingWithout(k.reservations, run);
  }

  /** Finishing a run keeps the law exactly when what it used fits beside everything else that is used
      or reserved. A run that uses at most its own limit always fits. */
  lemma FinishConservesIff(k: Keys, c: Settings, run: string, tokens: nat)
    requires Conserved(k, c)
    ensures Conserved(Finished(k, run, tokens), c) <==>
            (run in k.reservations ==> k.used + k.reserved - Limit(k.reservations[run]) + tokens <= c.dailyTokens)
  {
    if run in k.reservations {
      CountsWithout(k.reservations, run);
      OutstandingWithout(k.reservations, run);
    }
  }

  /** Main result: over every sequence of scripts, the queue and activity counters equal the numbers
      of inactive and active reservations, activity never exceeds its limit, reserved tokens are the
      sum of the outstanding limits, and used plus reserved stays within the day's budget. */
  lemma {:induction false} EveryHistoryConserves(c: Settings, calls: seq<Call>)
    requires DisciplinedCalls(c, calls)
    ensures Conserved(Play(c, calls), c)
  {
    if calls == [] {
      assert Inactive(map[]) == {} && Active(map[]) == {};
    } else {
      var n := |calls| - 1;
      EveryHistoryConserves(c, calls[..n]);
      var k := Play(c, calls[..n]);
      match calls[n]
      case Reserve(user, run) => ReserveConserves(k, c, user, run);
      case Activate(run) => ActivateConserves(k, c, run);
      case Finish(run, tokens) => FinishConservesIff(k, c, run, tokens);
      case _ =>
    }
  }

  // ----- activation before reservation

  /** A worker can activate a run before the service has reserved for it. The script then succeeds
      too, and the law survives that step exactly when nothing was queued. */
  lemma GhostActivationConservesIff(k: Keys, c: Settings, run: string)
    requires Conserved(k, c) && run !in k.reservations && k.active < c.activeRuns
    ensures Conserved(Activated(k, c, run), c) <==> k.queued == 0
    ensures CountsExact(Activated(k, c, run)) <==> k.queued == 0
  {
    assert k.reservations - {run} == k.reservations;
    CountsWith(k.reservations, run, Hash(None, true));
    OutstandingWith(k.reservations, run, Hash(None, true));
  }

  /** The reservation that comes too late is reported as present and reserves nothing: the run goes on
      without a token limit. Once it has finished the law holds exactly when nothing was queued at its
      activation and its tokens happen to be free. */
  lemma LateReservationIsLost(k: Keys, c: Settings, user: string, run: string, tokens: nat)
    requires Conserved(k, c) && run !in k.reservations && k.active < c.activeRuns
    ensures var ghostly := Activated(k, c, run);
            && ReserveReply(ghostly, c, user, run) == 2 && Reserved(ghostly, c, user, run) == ghostly
            && Limit(ghostly.reservations[run]) == 0
            && (Conserved(Finished(ghostly, run, tokens), c) <==>
                  k.queued == 0 && k.used + k.reserved + tokens <= c.dailyTokens)
  {
    if k.queued == 0 {
      GhostActivationConservesIff(k, c, run);
      FinishConservesIff(Activated(k, c, run), c, run, tokens);
    } else {
      GhostActivationLeaksQueueSlot(k, c, run, tokens);
    }
  }

  /** A history in which every run uses no more than runs may, and the day's budget is exceeded. */
  lemma LostReservationExceedsBudget(c: Settings, user: string, calls: seq<Call>)
    requires c.userRate > 0 && c.tenantRate > 0 && c.queueRuns > 0 && c.activeRuns > 0
    requires c.runTokens == c.dailyTokens > 0
    requires calls == [Activate("g"), Reserve(user, "g"), Reserve(user, "other"), Finish("g", c.runTokens)]
    ensures Play(c, calls).used + Play(c, calls).reserved > c.dailyTokens
  {
    assert calls[..3][..2] == calls[..2] && calls[..2][..1] == calls[..1] && calls[..1][..0] == [];
    assert "g" != "other" by {
      assert |"g"| != |"other"|;
    }
    var k1 := Activated(Empty, c, "g");
    assert Play(c, calls[..1]) == k1;
    assert Play(c, calls[..2]) == k1;
    assert Play(c, calls[..3]) == Reserved(k1, c, user, "other");
  }

  /** A later finish of that run gives back one active slot and no queue slot: the queue counter
      stays below the number of queued reservations. */
  lemma GhostActivationLeaksQueueSlot(k: Keys, c: Settings, run: string, tokens: nat)
    requires Conserved(k, c) && run !in k.reservations && k.active < c.activeRuns && k.queued > 0
    ensures
      var k' := Finished(Activated(k, c, run), run, tokens);
      k'.reservations == k.reservations && k'.queued == |Inactive(k'.reservations)| - 1 && k'.active == k.active
  {
    var k' := Finished(Activated(k, c, run), run, tokens);
    assert k'.reservations == k.reservations;
  }

  /** With the leaked slot a tenant whose queue was full queues one run more than its limit. */
  lemma LeakedSlotExceedsQueueLimit(k: Keys, c: Settings, run: string, tokens: nat, user: string, next: string)
    requires Conserved(k, c) && run !in k.reservations && next !in k.reservations
    requires k.active < c.activeRuns && k.queued == c.queueRuns > 0
    requires UserRate(k, user) < c.userRate && k.tenantRate < c.tenantRate
    requires k.used + tokens + k.reserved + c.runTokens <= c.dailyTokens
    ensures ReserveReply(k, c, user, next) == -3
    ensures var k' := Finished(Activated(k, c, run), run, tokens);
            ReserveReply(k', c, user, next) == 1 &&
            |Inactive(Reserved(k', c, user, next).reservations)| == c.queueRuns + 1
  {
    var k' := Finished(Activated(k, c, run), run, tokens);
    GhostActivationLeaksQueueSlot(k, c, run, tokens);
    assert k'.reservations - {next} == k'.reservations;
    CountsWith(k'.reservations, next, Hash(Some(c.runTokens), false));
  }

  // ----- exact replies

  /** The runs that hold a reservation: reserved or activated since they last finished. */
  function LiveRuns(c: Settings, calls: seq<Call>): set<string> {
    if calls == [] then {}
    else
      var init, call := calls[..|calls| - 1], calls[|calls| - 1];
      match call
      case Reserve(user, run) =>
        LiveRuns(c, init) + if ReserveReply(Play(c, init), c, user, run) == 1 then {run} else {}
      case Activate(run) => LiveRuns(c, init) + if ActivateReply(Play(c, init), c, run) == 1 then {run} else {}
      case Finish(run, _) => LiveRuns(c, init) - {run}
      case _ => LiveRuns(c, init)
  }

  /** The runs that were activated since they last finished. */
  function WorkingRuns(c: Settings, calls: seq<Call>): set<string> {
    if calls == [] then {}
    else
      var init, call := calls[..|calls| - 1], calls[|calls| - 1];
      match call
      case Activate(run) => WorkingRuns(c, init) + if ActivateReply(Play(c, init), c, run) == 1 then {run} else {}
      case Finish(run, _) => WorkingRuns(c, init) - {run}
      case _ => WorkingRuns(c, init)
  }

  /** How many reservations of a user were accepted since the user's rate key last expired. */
  function UserAdmitted(c: Settings, calls: seq<Call>, user: string): nat {
    if calls == [] then 0
    else
      var init, call := calls[..|calls| - 1], calls[|calls| - 1];
      match call
      case Reserve(u, run) =>
        UserAdmitted(c, init, user) +
          if u == user && ReserveReply(Play(c, init), c, user, run) == 1 then 1 else 0
      case ExpireUserRate(u) => if u == user then 0 else UserAdmitted(c, init, user)
      case _ => UserAdmitted(c, init, user)
  }

  function TenantAdmitted(c: Settings, calls: seq<Call>): nat {
    if calls == [] then 0
    else
      var init, call := calls[..|calls| - 1], calls[|calls| - 1];
      match call
      case Reserve(user, run) =>
        TenantAdmitted(c, init) + if ReserveReply(Play(c, init), c, user, run) == 1 then 1 else 0
      case ExpireTenantRate => 0
      case _ => TenantAdmitted(c, init)
  }

  /** The tokens with which live runs finished. */
  function Charged(c: Settings, calls: seq<Call>): nat {
    if calls == [] then 0
    else
      var init, call := calls[..|calls| - 1], calls[|calls| - 1];
      Charged(c, init) + if call.Finish? && call.run in LiveRuns(c, init) then call.tokens else 0
  }

  ghost predicate KeysAre(k: Keys, live: set<string>, working: set<string>, tenantRate: nat, used: int) {
    && k.reservations.Keys == live && Active(k.reservations) == working
    && k.tenantRate == tenantRate && k.used == used
  }

  lemma CallMovesKeys(k: Keys, c: Settings, call: Call)
    ensures var k' := After(k, c, call);
            match call
            case Reserve(user, run) =>
              var ok := ReserveReply(k, c, user, run) == 1;
              KeysAre(k', k.reservations.Keys + (if ok then {run} else {}), Active(k.reservations),
                      k.tenantRate + (if ok then 1 else 0), k'.used) && k'.used == k.used
            case Activate(run) =>
              var taken := if ActivateReply(k, c, run) == 1 then {run} else {};
              KeysAre(k', k.reservations.Keys + taken, Active(k.reservations) + taken, k.tenantRate, k'.used) &&
              k'.used == k.used
            case Finish(run, tokens) =>
              && k'.reservations.Keys == k.reservations.Keys - {run}
              && Active(k'.reservations) == Active(k.reservations) - {run} && k'.tenantRate == k.tenantRate
              && k'.used == k.used + if run in k.reservations then tokens else 0
            case ExpireUserRate(_) =>
              k'.reservations == k.reservations && k'.tenantRate == k.tenantRate && k'.used == k.used
            case ExpireTenantRate => k'.reservations == k.reservations && k'.tenantRate == 0 && k'.used == k.used
  {
  }

  lemma CallMovesUserRate(k: Keys, c: Settings, call: Call, user: string)
    ensures UserRate(After(k, c, call), user) ==
            if call == ExpireUserRate(user) then 0
            else UserRate(k, user) +
                 if call.Reserve? && call.user == user && ReserveReply(k, c, user, call.run) == 1 then 1 else 0
  {
  }

  /** Over every history whatsoever, disciplined or not, the reservations, their activity, the rates and the
      used tokens are what the replies so far make them. */
  lemma {:induction false} KeysAreHistory(c: Settings, calls: seq<Call>, user: string)
    ensures KeysAre(Play(c, calls), LiveRuns(c, calls), WorkingRuns(c, calls), TenantAdmitted(c, calls),
                    Charged(c, calls))
    ensures UserRate(Play(c, calls), user) == UserAdmitted(c, calls, user)
  {
    if calls != [] {
      var init, call := calls[..|calls| - 1], calls[|calls| - 1];
      KeysAreHistory(c, init, user);
      CallMovesKeys(Play(c, init), c, call);
      CallMovesUserRate(Play(c, init), c, call, user);
    }
  }

  ghost predicate AllOfRunSize(k: Keys, c: Settings) {
    forall run :: run in k.reservations ==> Limit(k.reservations[run]) == c.runTokens
  }

  lemma {:induction false} DisciplinedHaveRunSize(c: Settings, calls: seq<Call>)
    requires DisciplinedCalls(c, calls)
    ensures AllOfRunSize(Play(c, calls), c)
  {
    if calls != [] {
      DisciplinedHaveRunSize(c, calls[..|calls| - 1]);
    }
  }

  lemma {:induction false} OutstandingIsFull(m: map<string, Hash>, size: nat)
    requires forall run :: run in m ==> Limit(m[run]) == size
    ensures Outstanding(m) == Times(size, |m.Keys|)
    decreases |m|
  {
    if m != map[] {
      var run :| run in m && Outstanding(m) == Outstanding(m - {run}) + Limit(m[run]);
      KeysWithout(m, run);
      OutstandingIsFull(m - {run}, size);
    }
  }

  lemma KeysWithout(m: map<string, Hash>, run: string)
    requires run in m
    ensures |m.Keys| == |(m - {run}).Keys| + 1
  {
    assert m.Keys == (m - {run}).Keys + {run};
  }

  /** What a reservation is told, in terms of the history of the tenant. */
  function ReplyFrom(c: Settings, calls: seq<Call>, user: string, run: string): int {
    if run in LiveRuns(c, calls) then 2
    else if UserAdmitted(c, calls, user) >= c.userRate then -1
    else if TenantAdmitted(c, calls) >= c.tenantRate then -2
    else if |LiveRuns(c, calls) - WorkingRuns(c, calls)| >= c.queueRuns then -3
    else if Charged(c, calls) + Times(c.runTokens, |LiveRuns(c, calls)| + 1) > c.dailyTokens then -4
    else 1
  }

  /** The keys of a disciplined history in terms of the history. */
  lemma CountersAreHistory(c: Settings, calls: seq<Call>)
    requires DisciplinedCalls(c, calls)
    ensures var k := Play(c, calls);
            && k.queued == |LiveRuns(c, calls) - WorkingRuns(c, calls)| && k.active == |WorkingRuns(c, calls)|
            && k.reserved == Times(c.runTokens, |LiveRuns(c, calls)|)
  {
    var k := Play(c, calls);
    EveryHistoryConserves(c, calls);
    KeysAreHistory(c, calls, "");
    DisciplinedHaveRunSize(c, calls);
    OutstandingIsFull(k.reservations, c.runTokens);
    assert Inactive(k.reservations) == k.reservations.Keys - Active(k.reservations);
  }

  /** Main result: over every disciplined history each reply is exactly what the history says: present, over a
      rate, queue full, over the day's tokens, or accepted; and an activation is refused exactly when the
      run is not active and as many as allowed are. */
  lemma RepliesAreExact(c: Settings, calls: seq<Call>, user: string, run: string)
    requires DisciplinedCalls(c, calls)
    ensures ReserveReply(Play(c, calls), c, user, run) == ReplyFrom(c, calls, user, run)
    ensures ActivateReply(Play(c, calls), c, run) ==
            if run !in WorkingRuns(c, calls) && |WorkingRuns(c, calls)| >= c.activeRuns then -1 else 1
  {
    CountersAreHistory(c, calls);
    KeysAreHistory(c, calls, user);
  }
}
