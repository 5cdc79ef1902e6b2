/**
  How far one guild can go: the most it can be charged when so many tokens stray to it, and what can be spent in its
  channels when the agent does not know them.
*/
module Overruns {
  import opened Wrappers
  import opened Limits
  import opened LedgerRuns
  import opened Budgets

  /** After `h`, finish `x` charges guild `g` for an admission of its own. */
  predicate Pays(h: History, x: Record, g: Id) {
    x.Finished? && x.guild == Some(g) && x.ticket in Open(h) && Open(h)[x.ticket] == Some(g)
  }

  /** Tokens charged to a guild, since the date last became `today`, for its own admissions. */
  function Paid(h: History, today: Day, g: Id): nat {
    if h == [] || Last(h).today != today then 0
    else Paid(Past(h), today, g) + if Pays(Past(h), Last(h), g) then Last(h).tokens else 0
  }

  /** What a guild is charged it has paid for, or it has strayed there. */
  lemma {:induction false} ChargedSplits(h: History, today: Day, g: Id)
    ensures Charged(h, today, Some(g)) <= Paid(h, today, g) + Strayed(h, today, Some(g))
    ensures Charged(h, today, Some(g)) < U64_MAX ==> Paid(h, today, g) <= Charged(h, today, Some(g))
  {
    if h != [] {
      ChargedSplits(Past(h), today, g);
    }
  }

  /** The limits admit anyone at all, and every budget fits the counters. */
  predicate Admitting(caps: Caps, most: nat) {
    caps.perMemberPerHour > 0 && caps.inFlight > 0 && most > 0 && caps.guildDailyTokens.Some? && caps.dailyTokens <= U64_MAX
  }

  // ---------------------------------------------------------------- the most a guild can be charged

  function Least(a: nat, b: nat): nat {
    if a <= b then a else b
  }

  /** The most that a guild can be charged on a day when at most `s` tokens stray to it. */
  function Highest(caps: Caps, most: nat, s: nat): int
    requires caps.guildDailyTokens.Some?
  {
    var cap, day := caps.guildDailyTokens.value, caps.dailyTokens;
    if day <= cap then Ceiling(caps, day, most)
    else if cap == 0 then Least(s, Ceiling(caps, day, most))
    else
      var gap := day - cap;
      var mixed := Ceiling(caps, cap, most) - most + Least(gap, most) + Least(s, if gap <= most then most else gap);
      if mixed <= Ceiling(caps, cap, most) then Ceiling(caps, cap, most) else mixed
  }

  /**
    Either the guild stays below its ceiling even if every open reply is charged to it, or some slot was taken for
    another guild while the day's budget lasted, which bounds what it can still pay for itself.
  */
  ghost predicate HeldDown(caps: Caps, h: History, today: Day, g: Id, most: nat)
    requires caps.guildDailyTokens.Some? && caps.inFlight > 0
  {
    || Charged(h, today, Some(g)) + Bill(|Open(h)|, most) <= Ceiling(caps, caps.guildDailyTokens.value, most)
    || Paid(h, today, g) + Bill(|OpenFor(h, Some(g))|, most) < caps.dailyTokens + Bill(caps.inFlight - 1, most)
  }

  lemma {:induction false} StaysHeldDown(caps: Caps, h: History, today: Day, g: Id, most: nat)
    requires Possible(caps, h, most) && Admitting(caps, most) && caps.guildDailyTokens.value > 0
    ensures HeldDown(caps, h, today, g, most)
  {
    InFlightIsOpen(caps, h);
    BillGrows(|Open(h)|, caps.inFlight, most);
    if h != [] && Last(h).today == today {
      var p, x := Past(h), Last(h);
      StaysHeldDown(caps, p, today, g, most);
      if x.Finished? {
        assert x == h[|h| - 1];
        FinishHoldsDown(caps, h, today, g, most);
      } else if x.Admits() && x.guild == Some(g) {
        AdmittedUnderBudget(caps, h, Some(g));
      } else if x.Admits() {
        OtherHoldsDown(caps, h, g, most);
      }
    }
  }

  lemma FinishHoldsDown(caps: Caps, h: History, today: Day, g: Id, most: nat)
    requires Possible(caps, h, most) && Admitting(caps, most) && h != [] && Last(h).today == today
    requires Last(h).Finished? && Last(h).tokens <= most && HeldDown(caps, Past(h), today, g, most)
    ensures HeldDown(caps, h, today, g, most)
  {
    var p, x := Past(h), Last(h);
    FinishCounts(h, today, g);
    BillStep(|Open(p)|, most);
    BillStep(|OpenFor(p, Some(g))|, most);
    hide Bill, Ceiling, OpenFor, Possible, Charged, Paid, Open;
    if !Pays(p, x, g) {
      BillGrows(|OpenFor(h, Some(g))|, |OpenFor(p, Some(g))|, most);
    }
  }

  /** What a finish does to the quantities of the bound. */
  lemma FinishCounts(h: History, today: Day, g: Id)
    requires h != [] && Last(h).Finished? && Last(h).today == today && Last(h).ticket in Open(Past(h))
    ensures var p, x := Past(h), Last(h);
            && |Open(p)| == |Open(h)| + 1 && Charged(h, today, Some(g)) <= Charged(p, today, Some(g)) + x.tokens
            && if Pays(p, x, g)
               then Paid(h, today, g) == Paid(p, today, g) + x.tokens && |OpenFor(p, Some(g))| == |OpenFor(h, Some(g))| + 1
               else Paid(h, today, g) == Paid(p, today, g) && |OpenFor(h, Some(g))| <= |OpenFor(p, Some(g))|
  {
    var p, x := Past(h), Last(h);
    OpenForAfter(h, Some(g));
    assert Open(p).Keys == Open(h).Keys + {x.ticket};
    assert |Open(p)| == |Open(p).Keys| == |Open(h).Keys| + 1;
    hide OpenFor, Open;
  }

  /** An admission for another guild takes a slot while the day's budget lasts. */
  lemma OtherHoldsDown(caps: Caps, h: History, g: Id, most: nat)
    requires Possible(caps, h, most) && Admitting(caps, most) && h != [] && Last(h).Admits() && Last(h).guild != Some(g)
    ensures Paid(h, Last(h).today, g) + Bill(|OpenFor(h, Some(g))|, most) < caps.dailyTokens + Bill(caps.inFlight - 1, most)
  {
    var today, t := Last(h).today, Admissions(Past(h));
    AdmittedUnderBudget(caps, h, None);
    GuildWithinTotal(h, today, Some(g));
    ChargedSplits(h, today, g);
    InFlightIsOpen(caps, h);
    Subset(OpenFor(h, Some(g)), Open(h).Keys - {t});
    hide *;
    BillGrows(|OpenFor(h, Some(g))|, caps.inFlight - 1, most);
  }

  lemma BillGrows(a: nat, b: nat, most: nat)
    requires a <= b
    ensures Bill(a, most) <= Bill(b, most)
  {
  }

  lemma AtMostHighest(caps: Caps, h: History, today: Day, g: Id, most: nat, s: nat)
    requires Possible(caps, h, most) && Admitting(caps, most) && Strayed(h, today, Some(g)) <= s
    ensures Charged(h, today, Some(g)) <= Highest(caps, most, s)
  {
    hide *;
    GuildWithinTotal(h, today, Some(g));
    HasShare(caps, most);
    OverspendOnly(caps, h, today, None, most);
    OverspendOnly(caps, h, today, Some(g), most);
    if 0 < caps.guildDailyTokens.value < caps.dailyTokens {
      StaysHeldDown(caps, h, today, g, most);
      HeldBounds(caps, h, today, g, most, s);
    }
    HighestBounds(caps, most, s, Charged(h, today, Some(g)));
  }

  lemma HasShare(caps: Caps, most: nat)
    requires Admitting(caps, most)
    ensures caps.guildDailyTokens.Some? && caps.inFlight > 0
    ensures forall g: Id :: BudgetOf(caps, Some(g)) == caps.guildDailyTokens
    ensures BudgetOf(caps, None) == Some(caps.dailyTokens)
  {
  }

  lemma OverspendOnly(caps: Caps, h: History, today: Day, who: Option<Id>, most: nat)
    requires Possible(caps, h, most) && BudgetOf(caps, who).Some?
    ensures Charged(h, today, who)
         <= Ceiling(caps, BudgetOf(caps, who).value, most) + if who.None? then 0 else Strayed(h, today, who)
  {
    Overspend(caps, h, today, who, most);
    assert who.None? ==> Strayed(h, today, who) == 0;
    Scale(0, |OpenFor(h, who)|, most);
    hide *;
  }

  lemma HeldBounds(caps: Caps, h: History, today: Day, g: Id, most: nat, s: nat)
    requires caps.guildDailyTokens.Some? && caps.inFlight > 0 && HeldDown(caps, h, today, g, most)
    requires Strayed(h, today, Some(g)) <= s
    ensures var charged := Charged(h, today, Some(g));
            charged <= Ceiling(caps, caps.guildDailyTokens.value, most) ||
            charged < caps.dailyTokens + Bill(caps.inFlight - 1, most) + s
  {
    hide Bill, Ceiling, Charged, Strayed, Paid, Open, OpenFor;
    ChargedSplits(h, today, g);
  }

  /** `Highest` is the least of the bounds. */
  lemma HighestBounds(caps: Caps, most: nat, s: nat, charged: nat)
    requires Admitting(caps, most)
    requires charged <= Ceiling(caps, caps.guildDailyTokens.value, most) + s
    requires charged <= Ceiling(caps, caps.dailyTokens, most)
    requires 0 < caps.guildDailyTokens.value < caps.dailyTokens ==>
               charged <= Ceiling(caps, caps.guildDailyTokens.value, most) ||
               charged < caps.dailyTokens + Bill(caps.inFlight - 1, most) + s
    ensures charged <= Highest(caps, most, s)
  {
    BillStep(caps.inFlight, most);
    hide Bill;
  }

  /** All slots are taken by the guild's own replies; one of them ends, at a cost of `own`. */
  lemma OwnReplies(caps: Caps, d: Day, g: Id, most: nat, own: nat) returns (h: History, open: map<nat, Option<Id>>)
    requires Admitting(caps, most) && own <= most && 0 < caps.guildDailyTokens.value <= caps.dailyTokens
    ensures Stands(caps, h, d, most, Some(g), caps.guildDailyTokens.value - 1 + own, 0, open)
    ensures AllFor(open, Some(g), caps.inFlight - 1)
  {
    var cap, slots := caps.guildDailyTokens.value, caps.inFlight;
    hide Stands, Open;
    NothingYet(caps, d, most, Some(g));
    h := SpendSingly(caps, [], d, most, Some(g), Some(g), 0, 0, map[], cap - 1);
    h := AskTogether(caps, h, d, most, Some(g), Some(g), cap - 1, 0, slots);
    open := Open(h);
    var ticket :| ticket in open;
    OneOpenLess(open, Some(g), slots, ticket);
    StandsFinishes(caps, h, d, most, own, Some(g), cap - 1, 0, open, ticket);
    h, open := h + [Finished(own, Some(g), d, ticket)], open - {ticket};
  }

  lemma SlotsLeft(caps: Caps, most: nat, open: map<nat, Option<Id>>, g: Id)
    requires Admitting(caps, most) && AllFor(open, Some(g), caps.inFlight - 1)
    ensures |open| < caps.inFlight && caps.guildDailyTokens.Some?
  {
  }

  /** `t` tokens stray through one slot while others stay open: one at a time, and the last `most` together. */
  lemma StrayBetween(caps: Caps, h: History, d: Day, most: nat, g: Id, spent: nat, open: map<nat, Option<Id>>, t: nat)
    returns (out: History)
    requires Stands(caps, h, d, most, Some(g), spent, 0, open) && Admitting(caps, most) && |open| < caps.inFlight
    requires spent + 1 + (if t > most then t - most else 0) <= caps.dailyTokens
    ensures Stands(caps, out, d, most, Some(g), spent + t, t, open)
  {
    hide Stands, Open, NextAsk, Admissions;
    var single := if t > most then t - most else 0;
    var p := SpendSingly(caps, h, d, most, None, Some(g), spent, 0, open, single);
    SpendOne(caps, p, d, most, None, Some(g), spent + single, single, open, t - single);
    out := p + [NextAsk(p, None, d)] + [Finished(t - single, Some(g), d, Admissions(p))];
  }

  /** The guild's own replies up to its last token and beyond, while `t` tokens stray through one slot. */
  lemma MixedRun(caps: Caps, d: Day, g: Id, most: nat, own: nat, t: nat) returns (h: History)
    requires Admitting(caps, most) && 0 < caps.guildDailyTokens.value
    requires own <= most && caps.guildDailyTokens.value + own + (if t > most then t - most else 0) <= caps.dailyTokens
    ensures Rests(caps, h, d, most, Some(g), caps.guildDailyTokens.value - 1 + own + t + Bill(caps.inFlight - 1, most), t)
  {
    var spent := caps.guildDailyTokens.value - 1 + own;
    var open;
    h, open := OwnReplies(caps, d, g, most, own);
    SlotsLeft(caps, most, open, g);
    hide *;
    h := StrayBetween(caps, h, d, most, g, spent, open, t);
    h := FinishAll(caps, h, d, most, Some(g), Some(g), spent + t, t, open, caps.inFlight - 1, Bill(caps.inFlight - 1, most));
  }

  /** A run in which `n` tokens stray to a guild, and nothing else happens. */
  lemma StrayingRun(caps: Caps, d: Day, g: Id, most: nat, n: nat) returns (h: History)
    requires Admitting(caps, most) && n <= Ceiling(caps, caps.dailyTokens, most)
    ensures Rests(caps, h, d, most, Some(g), n, n)
  {
    hide Stands, Bill, Open;
    if n < caps.dailyTokens {
      NothingYet(caps, d, most, Some(g));
      h := SpendSingly(caps, [], d, most, None, Some(g), 0, 0, map[], n);
    } else if caps.dailyTokens > 0 {
      h := SpendAll(caps, d, most, None, Some(g), caps.dailyTokens, n - (caps.dailyTokens - 1));
    } else {
      h := [];
      NothingYet(caps, d, most, Some(g));
    }
  }

  lemma HighestRun(caps: Caps, d: Day, g: Id, most: nat, s: nat) returns (h: History, strayed: nat)
    requires Admitting(caps, most)
    ensures strayed <= s && 0 <= Highest(caps, most, s) && Rests(caps, h, d, most, Some(g), Highest(caps, most, s), strayed)
  {
    var cap, day := caps.guildDailyTokens.value, caps.dailyTokens;
    hide Stands, Open;
    BillStep(caps.inFlight, most);
    hide Bill;
    if day == 0 {
      h, strayed := [], 0;
      NothingYet(caps, d, most, Some(g));
    } else if day <= cap {
      strayed := 0;
      h := SpendAll(caps, d, most, Some(g), Some(g), day, Bill(caps.inFlight, most));
    } else if cap == 0 {
      strayed := Least(s, Ceiling(caps, day, most));
      h := StrayingRun(caps, d, g, most, strayed);
    } else if Highest(caps, most, s) == Ceiling(caps, cap, most) {
      strayed := 0;
      h := SpendAll(caps, d, most, Some(g), Some(g), cap, Bill(caps.inFlight, most));
    } else {
      strayed := Least(s, if day - cap <= most then most else day - cap);
      h := MixedRun(caps, d, g, most, Least(day - cap, most), strayed);
    }
  }

  /** Exactly how much a guild can be charged on a day when at most `s` tokens stray to it, for all limits. */
  lemma GuildMaximum(caps: Caps, d: Day, g: Id, most: nat, s: nat)
    requires Admitting(caps, most)
    ensures forall h :: Possible(caps, h, most) && Strayed(h, d, Some(g)) <= s ==>
              Charged(h, d, Some(g)) <= Highest(caps, most, s)
    ensures 0 <= Highest(caps, most, s)
    ensures exists h :: Possible(caps, h, most) && Strayed(h, d, Some(g)) <= s &&
                        Charged(h, d, Some(g)) == Sat(Highest(caps, most, s))
  {
    var run, strayed := HighestRun(caps, d, g, most, s);
    RestsMeans(caps, run, d, most, g, Highest(caps, most, s), strayed);
    hide *;
    forall h | Possible(caps, h, most) && Strayed(h, d, Some(g)) <= s
      ensures Charged(h, d, Some(g)) <= Highest(caps, most, s)
    {
      AtMostHighest(caps, h, d, g, most, s);
    }
  }

  lemma RestsMeans(caps: Caps, h: History, d: Day, most: nat, g: Id, spent: nat, strayed: nat)
    requires Rests(caps, h, d, most, Some(g), spent, strayed)
    ensures Possible(caps, h, most) && Charged(h, d, Some(g)) == Sat(spent) && Strayed(h, d, Some(g)) == strayed
  {
  }

  /**
    The guild's ceiling holds for all runs with at most `s` strayed tokens if and only if nothing may stray, or the
    guild's share is no tighter than the day's budget, or what may stray and the room between the two fit in one reply.
  */
  lemma CeilingTolerates(caps: Caps, d: Day, g: Id, most: nat, s: nat)
    requires Admitting(caps, most) && Ceiling(caps, caps.guildDailyTokens.value, most) < U64_MAX
    ensures var cap, day := caps.guildDailyTokens.value, caps.dailyTokens;
            (forall h :: Possible(caps, h, most) && Strayed(h, d, Some(g)) <= s ==>
               Charged(h, d, Some(g)) <= Ceiling(caps, cap, most)) <==>
            s == 0 || day <= cap || (cap > 0 && s + (day - cap) <= most)
  {
    GuildMaximum(caps, d, g, most, s);
    HighestAgainstCeiling(caps, most, s);
    hide *;
  }

  lemma HighestAgainstCeiling(caps: Caps, most: nat, s: nat)
    requires Admitting(caps, most)
    ensures var cap, day := caps.guildDailyTokens.value, caps.dailyTokens;
            Highest(caps, most, s) <= Ceiling(caps, cap, most) <==>
            s == 0 || day <= cap || (cap > 0 && s + (day - cap) <= most)
  {
    BillGrows(1, caps.inFlight, most);
    BillStep(1, most);
    hide Bill;
  }

  // ---------------------------------------------------------------- what is spent in a guild's channels

  /** The guild that each ticket's channel is really in, whether the agent knows it or not. */
  type Homes = nat -> Option<Id>

  /** Tokens spent on replies in the channels of guild `g` since the date last became `today`. */
  function SpentIn(h: History, today: Day, home: Homes, g: Id): nat {
    if h == [] || Last(h).today != today then 0
    else
      var more := if Last(h).Finished? && home(Last(h).ticket) == Some(g) then Last(h).tokens else 0;
      SpentIn(Past(h), today, home, g) + more
  }

  /** Those of them that the agent admitted for, or charged to, anyone else. */
  function Unseen(h: History, today: Day, home: Homes, g: Id): nat {
    if h == [] || Last(h).today != today then 0
    else
      var x := Last(h);
      var more := if x.Finished? && home(x.ticket) == Some(g) && !Pays(Past(h), x, g) then x.tokens else 0;
      Unseen(Past(h), today, home, g) + more
  }

  /** A guild's own charges keep its ceiling in every run, whatever strays. */
  lemma {:induction false} PaidWithinCeiling(caps: Caps, h: History, today: Day, g: Id, most: nat)
    requires Possible(caps, h, most) && caps.guildDailyTokens.Some? && caps.guildDailyTokens.value <= U64_MAX
    ensures Paid(h, today, g) + |OpenFor(h, Some(g))| * most <= Ceiling(caps, caps.guildDailyTokens.value, most)
  {
    OpenWithinCeiling(caps, h, Some(g), most);
    if h != [] && Last(h).today == today {
      var x := Last(h);
      PaidWithinCeiling(caps, Past(h), today, g, most);
      OpenForAfter(h, Some(g));
      if x.Finished? {
        assert x == h[|h| - 1];
        OneFewer(|OpenFor(h, Some(g))|, most);
      } else if x.Admits() && x.guild == Some(g) {
        AdmittedUnderBudget(caps, h, Some(g));
        ChargedSplits(h, today, g);
        OpenForWithinCap(caps, h, Some(g));
        Scale(|OpenFor(h, Some(g))|, caps.inFlight, most);
      }
    }
  }

  lemma {:induction false} SpentSplits(h: History, today: Day, home: Homes, g: Id)
    ensures SpentIn(h, today, home, g) <= Paid(h, today, g) + Unseen(h, today, home, g)
  {
    if h != [] {
      SpentSplits(Past(h), today, home, g);
    }
  }

  /** What is spent in a guild's channels passes its ceiling by no more than what the agent did not see as the guild's. */
  lemma SpendingInGuild(caps: Caps, h: History, today: Day, home: Homes, g: Id, most: nat)
    requires Possible(caps, h, most) && caps.guildDailyTokens.Some? && caps.guildDailyTokens.value <= U64_MAX
    ensures SpentIn(h, today, home, g) <= Ceiling(caps, caps.guildDailyTokens.value, most) + Unseen(h, today, home, g)
  {
    PaidWithinCeiling(caps, h, today, g, most);
    Scale(0, |OpenFor(h, Some(g))|, most);
    hide *;
    SpentSplits(h, today, home, g);
  }

  lemma {:induction false} AllSpentIn(h: History, today: Day, g: Id)
    ensures Charged(h, today, None) == Sat(SpentIn(h, today, _ => Some(g), g))
  {
    if h != [] {
      AllSpentIn(Past(h), today, g);
    }
  }

  /** A guild whose channels the agent never learns can use up the whole day's ceiling, and is charged nothing. */
  lemma UnknownGuildSpendsTheDay(caps: Caps, d: Day, g: Id, most: nat)
    requires Admitting(caps, most) && caps.dailyTokens > 0
    ensures exists h :: Possible(caps, h, most) && Charged(h, d, Some(g)) == 0 &&
                        Sat(SpentIn(h, d, _ => Some(g), g)) == Sat(Ceiling(caps, caps.dailyTokens, most))
  {
    var h := SpendAll(caps, d, most, None, None, caps.dailyTokens, Bill(caps.inFlight, most));
    AllSpentIn(h, d, g);
    assert Possible(caps, h, most) && Charged(h, d, Some(g)) == 0;
  }
}
