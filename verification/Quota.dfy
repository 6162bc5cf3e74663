/** Usage quotas: checked before a chat, incremented after it, so chats that run at the
    same time can overshoot the limit, by a bounded amount. */
module Quota {

  const TB := 1024 * GB
  const GB := 1024 * MB
  const MB := 1024 * 1024

  datatype PlanLimits = PlanLimits(
    chatTokens: nat, storageBytes: nat, dreamingMinutes: nat, cloudFolders: nat, dreamingIntervalHours: nat,
    maxFileSizeBytes: nat, workerBytesProcessed: nat, dreamingIoTokens: nat, webSearchesDaily: nat,
    newsSearchesDaily: nat)

  const FREE := PlanLimits(50_000, 40 * GB, 30, 4, 12, 40 * MB, 100 * MB, 20_000, 40, 4)
  const PRO := PlanLimits(100_000, 100 * GB, 60, 10, 12, 200 * MB, 500 * MB, 40_000, 100, 4)
  const TEAM := PlanLimits(100_000, 200 * GB, 90, 20, 12, 1 * GB, 2 * GB, 40_000, 200, 10)
  const ENTERPRISE := PlanLimits(200_000, 1 * TB, 180, 999, 6, 2 * GB, 25 * GB, 80_000, 1000, 20)

  /** Unknown plans have the limits of the free one. */
  function GetLimits(plan: string): PlanLimits {
    if plan == "pro" then PRO
    else if plan == "team" then TEAM
    else if plan == "enterprise" then ENTERPRISE
    else FREE
  }

  /** The limit of a periodic resource; resources without one have limit 0. */
  function LimitOf(plan: string, resource: string): nat {
    var l := GetLimits(plan);
    if resource == "chat_tokens" then l.chatTokens
    else if resource == "dreaming_minutes" then l.dreamingMinutes
    else if resource == "worker_bytes_processed" then l.workerBytesProcessed
    else if resource == "dreaming_io_tokens" then l.dreamingIoTokens
    else if resource == "web_searches_daily" then l.webSearchesDaily
    else if resource == "news_searches_daily" then l.newsSearchesDaily
    else if resource == "cloud_folders" then l.cloudFolders
    else if resource == "dreaming_interval_hours" then l.dreamingIntervalHours
    else if resource == "max_file_size_bytes" then l.maxFileSizeBytes
    else 0
  }

  /** Each resource has the limit of its own in the plan; anything else has none. */
  lemma LimitsByResource(plan: string, resource: string)
    ensures LimitOf(plan, "chat_tokens") == GetLimits(plan).chatTokens
    ensures LimitOf(plan, "dreaming_minutes") == GetLimits(plan).dreamingMinutes
    ensures LimitOf(plan, "worker_bytes_processed") == GetLimits(plan).workerBytesProcessed
    ensures LimitOf(plan, "dreaming_io_tokens") == GetLimits(plan).dreamingIoTokens
    ensures LimitOf(plan, "web_searches_daily") == GetLimits(plan).webSearchesDaily
    ensures LimitOf(plan, "news_searches_daily") == GetLimits(plan).newsSearchesDaily
  {
    assert "worker_bytes_processed" != "web_searches_daily";
  }

  const CHAT := "chat_tokens"

  const DAILY := {CHAT, "dreaming_io_tokens", "web_searches_daily", "news_searches_daily"}

  /** Days are numbered from a Monday; weeks start on Mondays. */
  function PeriodStart(resource: string, day: nat): nat {
    if resource in DAILY then day else day - day % 7
  }

  /** A daily period is the day itself, any other the Monday on or before the day. */
  lemma PeriodsStartWhereTheyShould(resource: string, day: nat, start: nat)
    ensures start == PeriodStart(resource, day) <==>
            if resource in {"chat_tokens", "dreaming_io_tokens", "web_searches_daily", "news_searches_daily"}
            then start == day
            else start % 7 == 0 && start <= day < start + 7
  {
    var d := day / 7;
    assert day == 7 * d + day % 7;
    if start % 7 == 0 && start <= day < start + 7 {
      assert start == 7 * (start / 7) && start / 7 == d;
    }
  }

  /** A higher plan allows at least as much and dreams at least as often, and a plan that is
      not known is the lowest. */
  predicate AtLeast(a: PlanLimits, b: PlanLimits) {
    && a.chatTokens >= b.chatTokens && a.storageBytes >= b.storageBytes && a.dreamingMinutes >= b.dreamingMinutes
    && a.cloudFolders >= b.cloudFolders && a.dreamingIntervalHours <= b.dreamingIntervalHours
    && a.maxFileSizeBytes >= b.maxFileSizeBytes && a.workerBytesProcessed >= b.workerBytesProcessed
    && a.dreamingIoTokens >= b.dreamingIoTokens && a.webSearchesDaily >= b.webSearchesDaily
    && a.newsSearchesDaily >= b.newsSearchesDaily
  }

  lemma PlansAreOrdered(plan: string)
    ensures AtLeast(GetLimits("pro"), GetLimits("free")) && AtLeast(GetLimits("team"), GetLimits("pro"))
    ensures AtLeast(GetLimits("enterprise"), GetLimits("team")) && AtLeast(GetLimits(plan), GetLimits("free"))
    ensures plan !in {"pro", "team", "enterprise"} ==> GetLimits(plan) == GetLimits("free")
    ensures GetLimits("free").storageBytes < GetLimits("pro").storageBytes < GetLimits("team").storageBytes <
            GetLimits("enterprise").storageBytes
  {
    if plan == "pro" {
    } else if plan == "team" {
    } else if plan == "enterprise" {
    } else {
      assert GetLimits(plan) == FREE;
    }
  }

  datatype Key = Key(user: string, resource: string, period: nat)
  datatype Usage = Usage(used: nat, extra: nat)
  datatype QuotaStatus = QuotaStatus(used: nat, limit: nat, exceeded: bool)

  type Rows = map<Key, Usage>

  function UsageAt(rows: Rows, k: Key): Usage {
    if k in rows then rows[k] else Usage(0, 0)
  }

  function StatusOf(u: Usage, limit: nat): QuotaStatus {
    QuotaStatus(u.used, limit + u.extra, u.used > limit + u.extra)
  }

  function Incremented(rows: Rows, k: Key, amount: nat): Rows {
    rows[k := Usage(UsageAt(rows, k).used + amount, UsageAt(rows, k).extra)]
  }

  /** The usage table; each method is one SQL statement. */
  class UsageTable {
    var rows: Rows

    constructor ()
      ensures rows == map[]
    {
      rows := map[];
    }

    method CheckQuota(user: string, resource: string, plan: string, today: nat) returns (status: QuotaStatus)
      ensures status == StatusOf(UsageAt(rows, Key(user, resource, PeriodStart(resource, today))),
                                 LimitOf(plan, resource))
    {
      var k := Key(user, resource, PeriodStart(resource, today));
      var used := if k in rows then rows[k].used else 0;
      var extra := if k in rows then rows[k].extra else 0;
      var effective := LimitOf(plan, resource) + extra;
      status := QuotaStatus(used, effective, used > effective);
    }

    /** `usage_increment`: an atomic insert-or-add that reports the new state. */
    method IncrementUsage(user: string, resource: string, amount: nat, plan: string, today: nat)
      returns (status: QuotaStatus)
      modifies this
      ensures var k := Key(user, resource, PeriodStart(resource, today));
              && rows == Incremented(old(rows), k, amount)
              && status == StatusOf(UsageAt(rows, k), LimitOf(plan, resource))
    {
      var k := Key(user, resource, PeriodStart(resource, today));
      if k in rows {
        rows := rows[k := rows[k].(used := rows[k].used + amount)];
      } else {
        rows := rows[k := Usage(amount, 0)];
      }
      var row := rows[k];
      var effective := LimitOf(plan, resource) + row.extra;
      status := QuotaStatus(row.used, effective, row.used > effective);
    }
  }

  // ----- One user's chats

  /** A user whose plan has this limit, with at most `width` chats at a time, none of
      which costs more than `cost` tokens. */
  datatype Config = Config(user: string, limit: nat, width: nat, cost: nat)

  /** `peak` is the highest `granted_extra` of a day so far, `recorded` its completions. */
  datatype State = State(today: nat, rows: Rows, running: set<nat>, peak: map<nat, nat>, recorded: map<nat, nat>)

  datatype Action =
    | NextDay
    | Admit(chat: nat)                                // the check before the chat
    | Complete(chat: nat, input: nat, output: nat)    // the increment after it
    | Abandon(chat: nat)                              // a chat that records nothing
    | Credit(day: nat, amount: nat)                   // add-on credits for some period
    | Refund(day: nat, amount: nat)

  /** Chat tokens are counted per day. */
  function DayKey(c: Config, day: nat): (k: Key)
    ensures k == Key(c.user, CHAT, day)
  {
    Key(c.user, CHAT, PeriodStart(CHAT, day))
  }

  function At(m: map<nat, nat>, day: nat): nat {
    if day in m then m[day] else 0
  }

  function Max(a: nat, b: nat): nat {
    if a < b then b else a
  }

  /** What the environment may do: no more chats than `width`, none dearer than `cost`. */
  predicate Allowed(c: Config, s: State, a: Action) {
    match a
    case Admit(chat) => chat !in s.running && |s.running| < c.width
    case Complete(chat, i, o) => chat in s.running && Max(i + o, 1) <= c.cost
    case Abandon(chat) => chat in s.running
    case _ => true
  }

  function Step(c: Config, s: State, a: Action): State {
    match a
    case NextDay => s.(today := s.today + 1)
    case Admit(chat) =>
      if StatusOf(UsageAt(s.rows, DayKey(c, s.today)), c.limit).exceeded then s
      else s.(running := s.running + {chat})
    case Complete(chat, i, o) =>
      s.(running := s.running - {chat},
         rows := Incremented(s.rows, DayKey(c, s.today), Max(i + o, 1)),
         recorded := s.recorded[s.today := At(s.recorded, s.today) + 1])
    case Abandon(chat) => s.(running := s.running - {chat})
    case Credit(day, amount) =>
      var u := UsageAt(s.rows, DayKey(c, day));
      s.(rows := s.rows[DayKey(c, day) := u.(extra := u.extra + amount)],
         peak := s.peak[day := Max(At(s.peak, day), u.extra + amount)])
    case Refund(day, amount) =>
      var u := UsageAt(s.rows, DayKey(c, day));
      if DayKey(c, day) !in s.rows then s
      else s.(rows := s.rows[DayKey(c, day) := u.(extra := if u.extra < amount then 0 else u.extra - amount)])
  }

  ghost predicate ValidRun(c: Config, s: State, actions: seq<Action>) {
    actions != [] ==>
      var init, last := actions[..|actions| - 1], actions[|actions| - 1];
      ValidRun(c, s, init) && Allowed(c, Run(c, s, init), last)
  }

  function Run(c: Config, s: State, actions: seq<Action>): State {
    if actions == [] then s else Step(c, Run(c, s, actions[..|actions| - 1]), actions[|actions| - 1])
  }

  const START := State(0, map[], {}, map[], map[])

  /** The chats that may still add to a day's usage. */
  function Pending(s: State, day: nat): nat {
    if day == s.today then |s.running| else 0
  }

  /** What was used on a day, and what the running chats may still add to it. */
  ghost predicate DayBounded(c: Config, s: State, day: nat) {
    var u, limit := UsageAt(s.rows, DayKey(c, day)), c.limit + At(s.peak, day);
    && u.extra <= At(s.peak, day)
    && At(s.recorded, day) <= u.used
    && u.used + Pending(s, day) * c.cost <= limit + c.width * c.cost
    && At(s.recorded, day) + Pending(s, day) <= limit + c.width
    && (day > s.today ==> u.used == 0)
  }

  ghost predicate Bounded(c: Config, s: State) {
    |s.running| <= c.width && forall day: nat :: DayBounded(c, s, day)
  }

  lemma {:induction false} Monotone(a: nat, b: nat, cost: nat)
    requires a <= b
    ensures a * cost <= b * cost && (a < b ==> a * cost + cost <= b * cost)
    decreases b - a
  {
    if a < b {
      assert (a + 1) * cost == a * cost + cost;
      Monotone(a + 1, b, cost);
    }
  }

  lemma AdmitKeepsBound(c: Config, s: State, chat: nat)
    requires Bounded(c, s) && Allowed(c, s, Admit(chat))
    ensures Bounded(c, Step(c, s, Admit(chat)))
  {
    var after := Step(c, s, Admit(chat));
    forall day: nat ensures DayBounded(c, after, day) {
      assert DayBounded(c, s, day);
      if day == s.today && after != s {
        assert |after.running| == |s.running| + 1 <= c.width;
        Monotone(|after.running|, c.width, c.cost);
      }
    }
  }

  lemma CompleteKeepsBound(c: Config, s: State, a: Action)
    requires Bounded(c, s) && Allowed(c, s, a) && a.Complete?
    ensures Bounded(c, Step(c, s, a))
  {
    var after, tokens := Step(c, s, a), Max(a.input + a.output, 1);
    assert |after.running| == |s.running| - 1;
    Monotone(|after.running|, |s.running|, c.cost);
    forall day: nat ensures DayBounded(c, after, day) {
      assert DayBounded(c, s, day);
    }
  }

  lemma AbandonKeepsBound(c: Config, s: State, chat: nat)
    requires Bounded(c, s) && chat in s.running
    ensures Bounded(c, Step(c, s, Abandon(chat)))
  {
    var after := Step(c, s, Abandon(chat));
    assert |after.running| == |s.running| - 1;
    Monotone(|after.running|, |s.running|, c.cost);
    forall day: nat ensures DayBounded(c, after, day) {
      assert DayBounded(c, s, day);
    }
  }

  lemma OthersKeepBound(c: Config, s: State, a: Action)
    requires Bounded(c, s) && (a.NextDay? || a.Credit? || a.Refund?)
    ensures Bounded(c, Step(c, s, a))
  {
    var after := Step(c, s, a);
    Monotone(|s.running|, c.width, c.cost);
    forall day: nat ensures DayBounded(c, after, day) {
      assert DayBounded(c, s, day);
    }
  }

  /** Every interleaving of checks, completions, day changes, credits and refunds. */
  lemma {:induction false} EveryRunIsBounded(c: Config, actions: seq<Action>)
    requires ValidRun(c, START, actions)
    ensures Bounded(c, Run(c, START, actions))
  {
    if actions != [] {
      var init, last := actions[..|actions| - 1], actions[|actions| - 1];
      EveryRunIsBounded(c, init);
      var s := Run(c, START, init);
      match last {
        case Admit(chat) => AdmitKeepsBound(c, s, chat);
        case Complete(_, _, _) => CompleteKeepsBound(c, s, last);
        case Abandon(chat) => AbandonKeepsBound(c, s, chat);
        case _ => OthersKeepBound(c, s, last);
      }
    }
  }

  /** A day's usage and its recorded completions against the limit with the day's
      highest credit: the excess is at most what the concurrent chats cost. */
  ghost predicate WithinBound(c: Config, s: State, day: nat) {
    var limit := c.limit + At(s.peak, day);
    && UsageAt(s.rows, DayKey(c, day)).used <= limit + c.width * c.cost
    && At(s.recorded, day) <= limit + c.width
  }

  lemma BoundedIsWithin(c: Config, s: State, day: nat)
    requires Bounded(c, s)
    ensures WithinBound(c, s, day)
  {
    assert DayBounded(c, s, day);
    Monotone(0, Pending(s, day), c.cost);
  }

  /** In every run, on every day. */
  lemma Overshoot(c: Config, actions: seq<Action>, day: nat)
    requires ValidRun(c, START, actions)
    ensures WithinBound(c, Run(c, START, actions), day)
  {
    EveryRunIsBounded(c, actions);
    BoundedIsWithin(c, Run(c, START, actions), day);
  }

  // ----- The bound is attained

  function AdmitAll(n: nat): seq<Action> {
    if n == 0 then [] else AdmitAll(n - 1) + [Admit(n)]
  }

  function CompleteAll(n: nat, cost: nat): seq<Action> {
    if n == 0 then [] else CompleteAll(n - 1, cost) + [Complete(n, cost, 0)]
  }

  function UpTo(n: nat): (s: set<nat>)
    ensures forall i :: i in s <==> 0 < i <= n
    ensures |s| == n
  {
    if n == 0 then {} else UpTo(n - 1) + {n}
  }

  lemma {:induction false} RunConcat(c: Config, s: State, a: seq<Action>, b: seq<Action>)
    ensures Run(c, s, a + b) == Run(c, Run(c, s, a), b)
    ensures ValidRun(c, s, a) && ValidRun(c, Run(c, s, a), b) ==> ValidRun(c, s, a + b)
  {
    if b == [] {
      assert a + b == a;
    } else {
      assert (a + b)[..|a + b| - 1] == a + b[..|b| - 1];
      RunConcat(c, s, a, b[..|b| - 1]);
    }
  }

  lemma AdmitNext(c: Config, s: State, n: nat)
    requires 0 < n <= c.width && !StatusOf(UsageAt(s.rows, DayKey(c, s.today)), c.limit).exceeded
    ensures var before := s.(running := UpTo(n - 1));
            Allowed(c, before, Admit(n)) && Step(c, before, Admit(n)) == s.(running := UpTo(n))
  {
    assert n !in UpTo(n - 1) && UpTo(n) == UpTo(n - 1) + {n};
  }

  lemma AdmitMore(c: Config, s: State, before: seq<Action>, n: nat)
    requires 0 < n <= c.width && !StatusOf(UsageAt(s.rows, DayKey(c, s.today)), c.limit).exceeded
    requires ValidRun(c, s, before) && Run(c, s, before) == s.(running := UpTo(n - 1))
    ensures ValidRun(c, s, before + [Admit(n)]) && Run(c, s, before + [Admit(n)]) == s.(running := UpTo(n))
  {
    AdmitNext(c, s, n);
    RunMore(c, s, before, Admit(n));
  }

  /** While nothing is recorded every check passes, so all chats are admitted. */
  lemma {:induction false} AllAdmitted(c: Config, s: State, n: nat)
    requires s.running == {} && n <= c.width
    requires !StatusOf(UsageAt(s.rows, DayKey(c, s.today)), c.limit).exceeded
    ensures ValidRun(c, s, AdmitAll(n)) && Run(c, s, AdmitAll(n)) == s.(running := UpTo(n))
  {
    if n > 0 {
      AllAdmitted(c, s, n - 1);
      AdmitMore(c, s, AdmitAll(n - 1), n);
    }
  }

  lemma RunMore(c: Config, s: State, actions: seq<Action>, a: Action)
    ensures Run(c, s, actions + [a]) == Step(c, Run(c, s, actions), a)
    ensures ValidRun(c, s, actions + [a]) <==> ValidRun(c, s, actions) && Allowed(c, Run(c, s, actions), a)
  {
    assert (actions + [a])[..|actions + [a]| - 1] == actions;
  }

  function Times(n: nat, cost: nat): nat {
    if n == 0 then 0 else Times(n - 1, cost) + cost
  }

  lemma {:induction false} TimesIsProduct(n: nat, cost: nat)
    ensures Times(n, cost) == n * cost
  {
    if n > 0 {
      TimesIsProduct(n - 1, cost);
      assert n * cost == (n - 1) * cost + cost;
    }
  }

  /** `n` chats have ended since `s`, at full cost. */
  ghost predicate Drained(c: Config, s: State, after: State, n: nat) {
    && after.today == s.today && after.running == s.running - UpTo(n)
    && UsageAt(after.rows, DayKey(c, s.today)).used == UsageAt(s.rows, DayKey(c, s.today)).used + Times(n, c.cost)
  }

  lemma CompleteOne(c: Config, s: State, before: State, n: nat)
    requires c.cost >= 1 && n > 0 && UpTo(n) <= s.running && Drained(c, s, before, n - 1)
    ensures Allowed(c, before, Complete(n, c.cost, 0))
    ensures Drained(c, s, Step(c, before, Complete(n, c.cost, 0)), n)
  {
    assert n in UpTo(n) && n !in UpTo(n - 1);
    assert s.running - UpTo(n) == s.running - UpTo(n - 1) - {n};
  }

  lemma CompleteMore(c: Config, s: State, before: seq<Action>, n: nat)
    requires c.cost >= 1 && n > 0 && UpTo(n) <= s.running
    requires ValidRun(c, s, before) && Drained(c, s, Run(c, s, before), n - 1)
    ensures var actions := before + [Complete(n, c.cost, 0)];
            ValidRun(c, s, actions) && Drained(c, s, Run(c, s, actions), n)
  {
    CompleteOne(c, s, Run(c, s, before), n);
    RunMore(c, s, before, Complete(n, c.cost, 0));
  }

  lemma {:induction false} AllCompleted(c: Config, s: State, n: nat)
    requires c.cost >= 1 && UpTo(n) <= s.running
    ensures ValidRun(c, s, CompleteAll(n, c.cost)) && Drained(c, s, Run(c, s, CompleteAll(n, c.cost)), n)
  {
    if n > 0 {
      AllCompleted(c, s, n - 1);
      CompleteMore(c, s, CompleteAll(n - 1, c.cost), n);
    }
  }

  /** One chat can use up the limit exactly, and the next one still passes the check. */
  lemma LimitUsedUp(c: Config) returns (fill: seq<Action>)
    requires c.width >= 1 && c.cost >= c.limit >= 1
    ensures ValidRun(c, START, fill)
    ensures var full := Run(c, START, fill);
            full.running == {} && full.today == 0 && UsageAt(full.rows, DayKey(c, 0)) == Usage(c.limit, 0)
  {
    var end := Complete(1, c.limit, 0);
    AllAdmitted(c, START, 1);
    RunMore(c, START, AdmitAll(1), end);
    fill := AdmitAll(1) + [end];
    assert 1 in UpTo(1) && UpTo(1) - {1} == {};
    assert Run(c, START, fill) == Step(c, START.(running := UpTo(1)), end);
  }

  /** From there, as many chats as fit are admitted together and each costs the maximum. */
  lemma CrowdOvershoots(c: Config, full: State) returns (actions: seq<Action>)
    requires c.cost >= 1 && full.running == {} && UsageAt(full.rows, DayKey(c, full.today)) == Usage(c.limit, 0)
    ensures ValidRun(c, full, actions)
    ensures UsageAt(Run(c, full, actions).rows, DayKey(c, full.today)).used == c.limit + Times(c.width, c.cost)
  {
    AllAdmitted(c, full, c.width);
    var crowded := Run(c, full, AdmitAll(c.width));
    AllCompleted(c, crowded, c.width);
    RunConcat(c, full, AdmitAll(c.width), CompleteAll(c.width, c.cost));
    actions := AdmitAll(c.width) + CompleteAll(c.width, c.cost);
  }

  /** For every width, and every cost that a single chat can use up the limit with, there is
      a run that reaches the bound. */
  lemma BoundIsAttained(c: Config) returns (actions: seq<Action>)
    requires c.width >= 1 && c.cost >= c.limit >= 1
    ensures ValidRun(c, START, actions)
    ensures UsageAt(Run(c, START, actions).rows, DayKey(c, 0)).used == c.limit + c.width * c.cost
  {
    var fill := LimitUsedUp(c);
    var crowd := CrowdOvershoots(c, Run(c, START, fill));
    TimesIsProduct(c.width, c.cost);
    RunConcat(c, START, fill, crowd);
    actions := fill + crowd;
  }

  // ----- What is used, by the actions

  function DayOf(actions: seq<Action>): nat {
    if actions == [] then 0
    else DayOf(actions[..|actions| - 1]) + if actions[|actions| - 1].NextDay? then 1 else 0
  }

  /** The tokens of the chats that were completed on the day, at least one for each. */
  function TokensOn(actions: seq<Action>, day: nat): nat {
    if actions == [] then 0
    else
      var init, last := actions[..|actions| - 1], actions[|actions| - 1];
      TokensOn(init, day) +
      if last.Complete? && DayOf(init) == day then
        (if last.input + last.output == 0 then 1 else last.input + last.output)
      else 0
  }

  function CompletionsOn(actions: seq<Action>, day: nat): nat {
    if actions == [] then 0
    else
      var init, last := actions[..|actions| - 1], actions[|actions| - 1];
      CompletionsOn(init, day) + if last.Complete? && DayOf(init) == day then 1 else 0
  }

  /** The credit of a day after additions and refunds, which do not go below zero. */
  function CreditOn(actions: seq<Action>, day: nat): nat {
    if actions == [] then 0
    else
      var earlier, last := CreditOn(actions[..|actions| - 1], day), actions[|actions| - 1];
      match last
      case Credit(d, amount) => if d == day then earlier + amount else earlier
      case Refund(d, amount) => if d == day then (if earlier < amount then 0 else earlier - amount) else earlier
      case _ => earlier
  }

  lemma UsageAfter(c: Config, s: State, a: Action, day: nat)
    ensures var u, u' := UsageAt(s.rows, DayKey(c, day)), UsageAt(Step(c, s, a).rows, DayKey(c, day));
            && u'.used == u.used + (if a.Complete? && s.today == day then Max(a.input + a.output, 1) else 0)
            && u'.extra == (match a
                            case Credit(d, amount) => if d == day then u.extra + amount else u.extra
                            case Refund(d, amount) =>
                              if d == day then (if u.extra < amount then 0 else u.extra - amount) else u.extra
                            case _ => u.extra)
    ensures At(Step(c, s, a).recorded, day) ==
            At(s.recorded, day) + if a.Complete? && s.today == day then 1 else 0
    ensures Step(c, s, a).today == s.today + if a.NextDay? then 1 else 0
  {
  }

  /** Over every run: what the table has of a day is the sum of what was completed on it, and
      its credit what was added and not taken back. */
  lemma {:induction false} UsageIsSum(c: Config, actions: seq<Action>, day: nat)
    ensures var s := Run(c, START, actions);
            && s.today == DayOf(actions)
            && UsageAt(s.rows, DayKey(c, day)) == Usage(TokensOn(actions, day), CreditOn(actions, day))
            && At(s.recorded, day) == CompletionsOn(actions, day)
  {
    if actions != [] {
      var init, last := actions[..|actions| - 1], actions[|actions| - 1];
      UsageIsSum(c, init, day);
      UsageAfter(c, Run(c, START, init), last, day);
    }
  }

  // ----- Add-on credit

  /** The credit of an add-on, which is stored for the first of a month, counts in the checks
      of exactly the days whose period starts on that day. */
  lemma AddonCounts(rows: Rows, user: string, resource: string, plan: string, first: nat, amount: nat, day: nat)
    requires amount > 0
    ensures var key := Key(user, resource, first);
            var u := UsageAt(rows, key);
            var credited := rows[key := u.(extra := u.extra + amount)];
            var k := Key(user, resource, PeriodStart(resource, day));
            var before, after := StatusOf(UsageAt(rows, k), LimitOf(plan, resource)),
                                 StatusOf(UsageAt(credited, k), LimitOf(plan, resource));
            if PeriodStart(resource, day) == first then after.limit == before.limit + amount else after == before
  {
  }

  /** For chats that is the first of the month alone, and for a weekly resource no day at all
      unless the month starts on a Monday. */
  lemma AddonIsSeenIff(resource: string, first: nat, day: nat)
    ensures PeriodStart(resource, day) == first <==>
            if resource in {"chat_tokens", "dreaming_io_tokens", "web_searches_daily", "news_searches_daily"}
            then day == first
            else first % 7 == 0 && first <= day < first + 7
  {
    PeriodsStartWhereTheyShould(resource, day, first);
  }
}
