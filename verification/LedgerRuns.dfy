/**
  What the ledger guarantees over whole runs, for every legal history.
*/
module LedgerRuns {
  import opened Wrappers
  import opened Limits

  // ---------------------------------------------------------------- the sliding hour

  function CountIn(ts: seq<nat>, from: nat): nat {
    if ts == [] then 0
    else CountIn(ts[..|ts| - 1], from) + (if from <= ts[|ts| - 1] < from + HOUR then 1 else 0)
  }

  lemma {:induction false} WindowIsYoung(ts: seq<nat>, from: nat, now: nat)
    requires from <= now < from + HOUR
    requires forall i :: 0 <= i < |ts| ==> ts[i] <= now
    ensures CountIn(ts, from) <= Young(ts, now)
  {
    if ts != [] {
      WindowIsYoung(ts[..|ts| - 1], from, now);
    }
  }

  /** Any hour whatever, not only those that end at a call, holds at most the hourly count. */
  lemma {:induction false} HourlyCap(caps: Caps, h: History, m: Member, from: nat)
    requires Legal(caps, h)
    ensures CountIn(Times(h, m), from) <= caps.perMemberPerHour
  {
    if h != [] {
      var x := Last(h);
      HourlyCap(caps, Past(h), m, from);
      if x.AdmitsMember(m) {
        AdmissionsInOrder(caps, Past(h), m);
        if from <= x.now < from + HOUR {
          WindowIsYoung(Times(Past(h), m), from, x.now);
        }
      }
    }
  }

  // ---------------------------------------------------------------- open admissions

  function Admissions(h: History): nat {
    if h == [] then 0 else Admissions(Past(h)) + if Last(h).Admits() then 1 else 0
  }

  /** The admissions not finished yet, each with the guild it was admitted for. */
  function Open(h: History): map<nat, Option<Id>> {
    if h == [] then map[]
    else if Last(h).Admits() then Open(Past(h))[Admissions(Past(h)) := Last(h).guild]
    else if Last(h).Finished? then Open(Past(h)) - {Last(h).ticket}
    else Open(Past(h))
  }

  /** Every finish closes an admission that is open. */
  ghost predicate Balanced(h: History) {
    h != [] ==> Balanced(Past(h)) && (Last(h).Finished? ==> Last(h).ticket in Open(Past(h)))
  }

  lemma {:induction false} OpenIsPast(h: History)
    ensures forall t :: t in Open(h) ==> t < Admissions(h)
  {
    if h != [] {
      OpenIsPast(Past(h));
    }
  }

  /** The in-flight counter never saturates: it is the number of open admissions, within its cap. */
  lemma {:induction false} InFlightIsOpen(caps: Caps, h: History)
    requires Legal(caps, h) && Balanced(h)
    ensures InFlight(h) == |Open(h)| <= caps.inFlight
  {
    if h != [] {
      var p, x := Past(h), Last(h);
      InFlightIsOpen(caps, p);
      OpenStep(h);
      assert x.Admits() ==> InFlight(p) < caps.inFlight;
      assert InFlight(h) == if x.Admits() then InFlight(p) + 1
                            else if x.Finished? && InFlight(p) > 0 then InFlight(p) - 1 else InFlight(p);
      hide Open, InFlight, Legal, Balanced;
    }
  }

  lemma OpenStep(h: History)
    requires h != [] && (Last(h).Finished? ==> Last(h).ticket in Open(Past(h)))
    ensures var p, x := Past(h), Last(h);
            if x.Admits() then |Open(h)| == |Open(p)| + 1
            else if x.Finished? then |Open(p)| == |Open(h)| + 1 else |Open(h)| == |Open(p)|
  {
    var p, x := Past(h), Last(h);
    OpenIsPast(p);
    if x.Finished? {
      assert Open(p).Keys == Open(h).Keys + {x.ticket};
    } else if x.Admits() {
      assert Open(h).Keys == Open(p).Keys + {Admissions(p)};
    }
  }

  lemma {:induction false} ClosedStays(h: History, n: nat, t: nat)
    requires n <= |h| && t < Admissions(h[..n]) && t !in Open(h[..n])
    ensures t < Admissions(h) && t !in Open(h)
  {
    if n == |h| {
      assert h[..n] == h;
    } else {
      assert Past(h)[..n] == h[..n];
      ClosedStays(Past(h), n, t);
    }
  }

  lemma {:induction false} BalancedAt(h: History, n: nat)
    requires Balanced(h) && n <= |h|
    ensures Balanced(h[..n])
  {
    if n == |h| {
      assert h[..n] == h;
    } else {
      assert Past(h)[..n] == h[..n];
      BalancedAt(Past(h), n);
    }
  }

  /** No admission is finished twice. */
  lemma FinishedOnce(h: History, i: nat, j: nat)
    requires Balanced(h) && i < j < |h| && h[i].Finished? && h[j].Finished?
    ensures h[i].ticket != h[j].ticket
  {
    var upToI, beforeJ := h[..i + 1], h[..j];
    BalancedAt(h, i + 1);
    BalancedAt(h, j + 1);
    assert Past(upToI) == h[..i] && Last(upToI) == h[i];
    assert Past(h[..j + 1]) == beforeJ && Last(h[..j + 1]) == h[j];
    OpenIsPast(h[..i]);
    assert beforeJ[..i + 1] == upToI;
    ClosedStays(beforeJ, i + 1, h[i].ticket);
  }

  function OpenFor(h: History, who: Option<Id>): set<nat> {
    set t | t in Open(h) && (who.None? || Open(h)[t] == who)
  }

  lemma OpenForWithinCap(caps: Caps, h: History, who: Option<Id>)
    requires Legal(caps, h) && Balanced(h)
    ensures |OpenFor(h, who)| <= caps.inFlight
  {
    InFlightIsOpen(caps, h);
    Subset(OpenFor(h, who), Open(h).Keys);
  }

  lemma {:induction false} Subset<T>(a: set<T>, b: set<T>)
    requires a <= b
    ensures |a| <= |b|
  {
    if a != {} {
      var x :| x in a;
      Subset(a - {x}, b - {x});
    }
  }

  // ---------------------------------------------------------------- shares of the total

  function SharesOf(h: History, today: Day, guilds: seq<Id>): nat {
    if guilds == [] then 0 else Charged(h, today, Some(guilds[0])) + SharesOf(h, today, guilds[1..])
  }

  function CostShares(x: Record, guilds: seq<Id>): nat {
    if guilds == [] then 0 else Cost(x, Some(guilds[0])) + CostShares(x, guilds[1..])
  }

  lemma {:induction false} CostGoesToOneGuild(x: Record, guilds: seq<Id>)
    requires forall i, j :: 0 <= i < j < |guilds| ==> guilds[i] != guilds[j]
    ensures CostShares(x, guilds) <= Cost(x, None)
    ensures (forall g :: g in guilds ==> x.Finished? ==> x.guild != Some(g)) ==> CostShares(x, guilds) == 0
  {
    if guilds != [] {
      CostGoesToOneGuild(x, guilds[1..]);
      if x.Finished? && x.guild == Some(guilds[0]) {
        assert forall g :: g in guilds[1..] ==> x.guild != Some(g);
      }
    }
  }

  lemma {:induction false} SharesStep(h: History, today: Day, guilds: seq<Id>)
    requires h != [] && Last(h).today == today
    ensures SharesOf(h, today, guilds) <= SharesOf(Past(h), today, guilds) + CostShares(Last(h), guilds)
  {
    if guilds != [] {
      SharesStep(h, today, guilds[1..]);
    }
  }

  lemma {:induction false} NoShares(h: History, today: Day, guilds: seq<Id>)
    requires h == [] || Last(h).today != today
    ensures SharesOf(h, today, guilds) == 0
  {
    if guilds != [] {
      NoShares(h, today, guilds[1..]);
    }
  }

  /** The guilds' shares never add up to more than the total, unless the total has saturated. */
  lemma {:induction false} SharesWithinTotal(h: History, today: Day, guilds: seq<Id>)
    requires forall i, j :: 0 <= i < j < |guilds| ==> guilds[i] != guilds[j]
    ensures SharesOf(h, today, guilds) <= Charged(h, today, None) || Charged(h, today, None) == U64_MAX
  {
    if h == [] || Last(h).today != today {
      NoShares(h, today, guilds);
    } else {
      SharesWithinTotal(Past(h), today, guilds);
      SharesStep(h, today, guilds);
      CostGoesToOneGuild(Last(h), guilds);
    }
  }

  // ---------------------------------------------------------------- dates that only move forward

  /** What all replies that ended on date `d` have cost, for one guild or for all. */
  function DayTotal(h: History, d: Day, who: Option<Id>): nat {
    if h == [] then 0
    else
      var x := Last(h);
      var counts := x.Finished? && x.today == d && (who == None || x.guild == who);
      DayTotal(Past(h), d, who) + if counts then x.tokens else 0
  }

  ghost predicate DatesInOrder(h: History) {
    forall i, j :: 0 <= i <= j < |h| ==> h[i].today <= h[j].today
  }

  /** Then the running counter is the total over every reply that ended on that date. */
  lemma {:induction false} ChargedIsDayTotal(h: History, d: Day, who: Option<Id>)
    requires DatesInOrder(h) && forall i :: 0 <= i < |h| ==> h[i].today <= d
    ensures Charged(h, d, who) == if DayTotal(h, d, who) <= U64_MAX then DayTotal(h, d, who) else U64_MAX
  {
    if h != [] {
      ChargedIsDayTotal(Past(h), d, who);
      if Last(h).today != d {
        EarlierDays(h, d, who);
      }
    }
  }

  lemma {:induction false} EarlierDays(h: History, d: Day, who: Option<Id>)
    requires forall i :: 0 <= i < |h| ==> h[i].today < d
    ensures DayTotal(h, d, who) == 0
  {
    if h != [] {
      assert Last(h) == h[|h| - 1];
      EarlierDays(Past(h), d, who);
    }
  }

  // ---------------------------------------------------------------- notices

  /** Something between records `i` and `j` cleared the notice of `r` to `m`. */
  ghost predicate Cleared(h: History, i: nat, j: nat, m: Member, r: Refusal)
    requires i < j < |h|
  {
    || (exists k :: i < k < j && h[k].AdmitsMember(m))
    || (r.OfBudget() && exists k :: i <= k < j && h[k].today != h[j].today)
  }

  lemma {:induction false} ToldMeans(h: History, m: Member, r: Refusal, today: Day)
    ensures Told(h, m, r, today) <==>
      exists i :: 0 <= i < |h| && h[i].Refuses(m, r) &&
                  (forall k :: i < k < |h| ==> !h[k].AdmitsMember(m)) &&
                  (r.OfBudget() ==> forall k :: i <= k < |h| ==> h[k].today == today)
  {
    if h != [] {
      var p, n := Past(h), |h| - 1;
      ToldMeans(p, m, r, today);
      assert forall k :: 0 <= k < n ==> p[k] == h[k];
      if Told(h, m, r, today) {
        if Last(h).Refuses(m, r) {
          assert h[n].Refuses(m, r);
        }
      }
    }
  }

  lemma {:induction false} VerdictAt(caps: Caps, h: History, j: nat)
    requires Legal(caps, h) && j < |h| && h[j].Asked?
    ensures h[j].verdict == Decide(caps, h[..j], h[j].member, h[j].guild, h[j].now, h[j].today)
  {
    if j == |h| - 1 {
      assert h[..j] == Past(h);
    } else {
      VerdictAt(caps, Past(h), j);
      assert Past(h)[..j] == h[..j];
    }
  }

  /**
    A member hears of a refusal exactly when every earlier refusal of that kind has been cleared
    since, by an admission or, for a budget, by a change of date.
  */
  lemma NotifyExactly(caps: Caps, h: History, j: nat)
    requires Legal(caps, h) && j < |h| && h[j].Asked? && h[j].verdict.Refused?
    ensures var m, r := h[j].member, h[j].verdict.why;
            h[j].verdict.notify <==> forall i :: 0 <= i < j && h[i].Refuses(m, r) ==> Cleared(h, i, j, m, r)
  {
    var m, r, p := h[j].member, h[j].verdict.why, h[..j];
    VerdictAt(caps, h, j);
    ToldMeans(p, m, r, h[j].today);
    assert forall k :: 0 <= k < j ==> p[k] == h[k];
    if h[j].verdict.notify {
      forall i | 0 <= i < j && h[i].Refuses(m, r) ensures Cleared(h, i, j, m, r) {
        assert p[i].Refuses(m, r);
      }
    } else {
      var i :| 0 <= i < |p| && p[i].Refuses(m, r) &&
               (forall k :: i < k < |p| ==> !p[k].AdmitsMember(m)) &&
               (r.OfBudget() ==> forall k :: i <= k < |p| ==> p[k].today == h[j].today);
      assert h[i].Refuses(m, r) && !Cleared(h, i, j, m, r);
    }
  }

  // ---------------------------------------------------------------- what a verdict means

  /** The admissions of a member in the hour up to `now`, by their place in the history. */
  ghost function Recent(h: History, m: Member, now: nat): set<nat> {
    set i: nat | i < |h| && h[i].Asked? && h[i].verdict.Admitted? && h[i].member == m && now < h[i].now + 3600_000_000_000
  }

  lemma RecentStep(h: History, m: Member, now: nat)
    requires h != []
    ensures |Recent(h, m, now)| == |Recent(Past(h), m, now)| +
                                   if Last(h).AdmitsMember(m) && Since(now, Last(h).now) < HOUR then 1 else 0
  {
    var p, n := Past(h), |h| - 1;
    assert forall i :: 0 <= i < n ==> p[i] == h[i];
    if Last(h).AdmitsMember(m) && Since(now, Last(h).now) < HOUR {
      assert Recent(h, m, now) == Recent(p, m, now) + {n};
    } else {
      assert Recent(h, m, now) == Recent(p, m, now);
    }
  }

  lemma {:induction false} RecentIsYoung(h: History, m: Member, now: nat)
    ensures |Recent(h, m, now)| == Young(Times(h, m), now)
  {
    if h != [] {
      var p, x := Past(h), Last(h);
      RecentIsYoung(p, m, now);
      RecentStep(h, m, now);
      assert Young(Times(h, m), now) ==
             Young(Times(p, m), now) + if x.AdmitsMember(m) && Since(now, x.now) < HOUR then 1 else 0;
      hide Recent, Young, Times;
    }
  }

  /** What stands against admitting after `h`: the day's budget, the guild's, the member's hour, or full slots. */
  ghost predicate Against(caps: Caps, h: History, x: Record, r: Refusal)
    requires x.Asked?
  {
    match r
    case DailyBudget => Charged(h, x.today, None) >= caps.dailyTokens
    case GuildBudget => x.guild != None && caps.guildDailyTokens != None &&
                        Charged(h, x.today, x.guild) >= caps.guildDailyTokens.value
    case MemberRate => |Recent(h, x.member, x.now)| >= caps.perMemberPerHour
    case Busy => |Open(h)| == caps.inFlight
  }

  /** The order in which reasons are given. */
  function Rank(r: Refusal): nat {
    match r case DailyBudget => 0 case GuildBudget => 1 case MemberRate => 2 case Busy => 3
  }

  /** Somebody is admitted exactly when nothing stands against it; a reason given is the first that does. */
  ghost predicate Justified(caps: Caps, h: History, x: Record)
    requires x.Asked?
  {
    && (x.verdict.Admitted? <==> forall r :: !Against(caps, h, x, r))
    && (x.verdict.Refused? ==> Against(caps, h, x, x.verdict.why) &&
                               forall r :: Rank(r) < Rank(x.verdict.why) ==> !Against(caps, h, x, r))
  }

  /** Every verdict of a run is justified by what came before it. */
  lemma VerdictMeans(caps: Caps, h: History, j: nat)
    requires Legal(caps, h) && Balanced(h) && j < |h| && h[j].Asked?
    ensures Justified(caps, h[..j], h[j])
  {
    var p, x := h[..j], h[j];
    VerdictAt(caps, h, j);
    LegalAt(caps, h, j);
    BalancedAt(h, j);
    InFlightIsOpen(caps, p);
    RecentIsYoung(p, x.member, x.now);
    hide Legal, Balanced;
    DecisionMeans(caps, p, x);
  }

  lemma DecisionMeans(caps: Caps, h: History, x: Record)
    requires x.Asked? && x.verdict == Decide(caps, h, x.member, x.guild, x.now, x.today)
    requires InFlight(h) == |Open(h)| <= caps.inFlight && |Recent(h, x.member, x.now)| == Young(Times(h, x.member), x.now)
    ensures Justified(caps, h, x)
  {
    hide Charged, Young, Times, Open, InFlight, Recent, Told;
    if x.verdict.Refused? {
      assert Against(caps, h, x, x.verdict.why);
    }
  }

  lemma {:induction false} LegalAt(caps: Caps, h: History, n: nat)
    requires Legal(caps, h) && n <= |h|
    ensures Legal(caps, h[..n])
  {
    if n == |h| {
      assert h[..n] == h;
    } else {
      assert Past(h)[..n] == h[..n];
      LegalAt(caps, Past(h), n);
    }
  }
}
