/**
  How far the budgets can be overspent: a bound for every run, the runs that reach it, and what a
  reply charged to another guild than it was admitted for adds to it.
*/
module Budgets {
  import opened Wrappers
  import opened Limits
  import opened LedgerRuns

  ghost predicate RepliesCost(h: History, most: nat) {
    forall i :: 0 <= i < |h| && h[i].Finished? ==> h[i].tokens <= most
  }

  /** The histories in question: of this ledger, each finish closing an admission, at most `most` tokens a reply. */
  ghost predicate Possible(caps: Caps, h: History, most: nat) {
    Legal(caps, h) && Balanced(h) && RepliesCost(h, most)
  }

  /** The budget that limits what `who` is charged: a guild's share, or the whole day's. */
  function BudgetOf(caps: Caps, who: Option<Id>): Option<nat> {
    if who.None? then Some(caps.dailyTokens) else caps.guildDailyTokens
  }

  /** What `n` replies may cost together. */
  function Bill(n: nat, most: nat): nat {
    n * most
  }

  /** The most that can be charged on a day under budget `cap`. */
  function Ceiling(caps: Caps, cap: nat, most: nat): nat {
    if cap == 0 then 0 else cap - 1 + Bill(caps.inFlight, most)
  }

  /** After `h`, finish `x` charges `who`, but closes an admission for someone else. */
  predicate Strays(h: History, x: Record, who: Option<Id>) {
    x.Finished? && x.guild == who && !(x.ticket in Open(h) && Open(h)[x.ticket] == who)
  }

  /** Tokens charged to a guild, since the date last became `today`, for admissions that were not its own. */
  function Strayed(h: History, today: Day, who: Option<Id>): nat {
    if who.None? || h == [] || Last(h).today != today then 0
    else Strayed(Past(h), today, who) + if Strays(Past(h), Last(h), who) then Last(h).tokens else 0
  }

  // ---------------------------------------------------------------- the bound

  /**
    Tokens charged plus what the open replies may still cost stay below the ceiling and what has
    strayed, whatever the date: work left over from yesterday is charged today.
  */
  lemma {:induction false} Overspend(caps: Caps, h: History, today: Day, who: Option<Id>, most: nat)
    requires Possible(caps, h, most) && BudgetOf(caps, who).Some?
    ensures Charged(h, today, who) + |OpenFor(h, who)| * most
         <= Ceiling(caps, BudgetOf(caps, who).value, most) + Strayed(h, today, who)
  {
    OpenWithinCeiling(caps, h, who, most);
    if h != [] && Last(h).today == today {
      var x := Last(h);
      Overspend(caps, Past(h), today, who, most);
      OpenForAfter(h, who);
      if x.Finished? {
        assert x == h[|h| - 1];
        OneFewer(|OpenFor(h, who)|, most);
      } else if x.Admits() && (who.None? || x.guild == who) {
        AdmittedUnderBudget(caps, h, who);
        OpenForWithinCap(caps, h, who);
        Scale(|OpenFor(h, who)|, caps.inFlight, most);
      }
    }
  }

  lemma OpenWithinCeiling(caps: Caps, h: History, who: Option<Id>, most: nat)
    requires Possible(caps, h, most) && BudgetOf(caps, who).Some?
    ensures |OpenFor(h, who)| * most <= Ceiling(caps, BudgetOf(caps, who).value, most)
  {
    if BudgetOf(caps, who) == Some(0) {
      NoneForNothing(caps, h, who);
    } else {
      OpenForWithinCap(caps, h, who);
      Scale(|OpenFor(h, who)|, caps.inFlight, most);
    }
  }

  lemma {:induction false} NoneForNothing(caps: Caps, h: History, who: Option<Id>)
    requires Legal(caps, h) && BudgetOf(caps, who) == Some(0)
    ensures OpenFor(h, who) == {}
  {
    if h != [] {
      NoneForNothing(caps, Past(h), who);
      OpenForAfter(h, who);
      if Last(h).Admits() && (who.None? || Last(h).guild == who) {
        AdmittedUnderBudget(caps, h, who);
      }
    }
  }

  lemma AdmittedUnderBudget(caps: Caps, h: History, who: Option<Id>)
    requires Legal(caps, h) && h != [] && Last(h).Admits() && BudgetOf(caps, who).Some?
    requires who.None? || Last(h).guild == who
    ensures Charged(h, Last(h).today, who) < BudgetOf(caps, who).value
  {
    var p, x := Past(h), Last(h);
    assert Refuse(caps, p, x.member, x.guild, x.now, x.today) == None;
  }

  lemma OneFewer(n: nat, k: nat)
    ensures (n + 1) * k == n * k + k
  {
  }

  lemma OpenForAfter(h: History, who: Option<Id>)
    requires h != []
    ensures var p, x := Past(h), Last(h);
            if x.Finished? && x.ticket in OpenFor(p, who)
            then OpenFor(h, who) == OpenFor(p, who) - {x.ticket} && |OpenFor(p, who)| == |OpenFor(h, who)| + 1
            else if x.Admits() && (who.None? || x.guild == who) then true
            else OpenFor(h, who) == OpenFor(p, who)
  {
    var p, x := Past(h), Last(h);
    OpenIsPast(p);
    if x.Finished? && x.ticket in OpenFor(p, who) {
      assert OpenFor(h, who) == OpenFor(p, who) - {x.ticket};
    } else if x.Admits() && (who.None? || x.guild == who) {
    } else {
      assert OpenFor(h, who) == OpenFor(p, who);
    }
  }

  lemma Scale(a: nat, b: nat, k: nat)
    requires a <= b
    ensures a * k <= b * k
  {
  }

  // ---------------------------------------------------------------- runs that spend as much as they can

  function Name(n: nat): Member {
    seq(n, _ => 'a')
  }

  function Sat(n: nat): nat {
    if n <= U64_MAX then n else U64_MAX
  }

  /** A possible run of one instant on date `d`, in which nobody asks twice. */
  ghost predicate Rush(caps: Caps, h: History, d: Day, most: nat) {
    && Possible(caps, h, most) && Clock(h) == 0
    && (forall i :: 0 <= i < |h| ==> h[i].today == d && (h[i].Asked? ==> |h[i].member| <= i))
  }

  lemma {:induction false} NeverAsked(h: History, m: Member)
    requires forall i :: 0 <= i < |h| && h[i].Asked? ==> h[i].member != m
    ensures Times(h, m) == []
  {
    if h != [] {
      assert Last(h) == h[|h| - 1];
      NeverAsked(Past(h), m);
    }
  }

  /** The next record of a rush that admits somebody new for `guild`. */
  function NextAsk(h: History, guild: Option<Id>, d: Day): Record {
    Asked(Name(|h|), guild, 0, d, Admitted)
  }

  lemma RushAsks(caps: Caps, h: History, d: Day, most: nat, guild: Option<Id>)
    requires Rush(caps, h, d, most) && caps.perMemberPerHour > 0 && |Open(h)| < caps.inFlight
    requires Charged(h, d, None) < caps.dailyTokens
    requires guild.Some? && caps.guildDailyTokens.Some? ==> Charged(h, d, guild) < caps.guildDailyTokens.value
    ensures var x := NextAsk(h, guild, d);
            && Decide(caps, h, x.member, guild, 0, d) == Admitted
            && Rush(caps, h + [x], d, most)
            && Admissions(h) !in Open(h) && Open(h + [x]) == Open(h)[Admissions(h) := guild]
            && forall who :: Charged(h + [x], d, who) == Charged(h, d, who) && Strayed(h + [x], d, who) == Strayed(h, d, who)
  {
    var x := NextAsk(h, guild, d);
    NeverAsked(h, x.member);
    InFlightIsOpen(caps, h);
    OpenIsPast(h);
    Snoc(h, x);
    assert Decide(caps, h, x.member, guild, 0, d) == Admitted;
    forall who ensures Charged(h + [x], d, who) == Charged(h, d, who) && Strayed(h + [x], d, who) == Strayed(h, d, who) {
      ChargedBounded(h, d, who);
      if h != [] {
        assert Last(h) == h[|h| - 1];
      }
    }
  }

  lemma RushFinishes(caps: Caps, h: History, d: Day, most: nat, tokens: nat, to: Option<Id>, t: nat)
    requires Rush(caps, h, d, most) && t in Open(h) && tokens <= most
    ensures var x := Finished(tokens, to, d, t);
            && Rush(caps, h + [x], d, most)
            && Open(h + [x]) == Open(h) - {t}
            && Charged(h + [x], d, None) == SatAdd(Charged(h, d, None), tokens)
            && Charged(h + [x], d, to) == SatAdd(Charged(h, d, to), tokens)
            && Strayed(h + [x], d, to) == Strayed(h, d, to) + if to.Some? && Open(h)[t] != to then tokens else 0
  {
    var x := Finished(tokens, to, d, t);
    Snoc(h, x);
    assert h != [] && Last(h) == h[|h| - 1];
  }

  /** No guild but `to` is charged. */
  ghost predicate OnlyCharges(h: History, d: Day, to: Option<Id>) {
    forall g: Id :: Some(g) != to ==> Charged(h, d, Some(g)) == 0
  }

  lemma OnlyChargesAfter(h: History, d: Day, to: Option<Id>, x: Record)
    requires OnlyCharges(h, d, to) && x.today == d && (x.Finished? ==> x.guild == to)
    ensures OnlyCharges(h + [x], d, to)
  {
    Snoc(h, x);
    assert forall g: Id :: Some(g) != to ==> Cost(x, Some(g)) == 0;
  }

  /** Where a rush stands that charges only `to`: `spent` tokens, of which `strayed` have strayed. */
  ghost predicate Stands(caps: Caps, h: History, d: Day, most: nat, to: Option<Id>, spent: nat, strayed: nat,
                         open: map<nat, Option<Id>>) {
    && Rush(caps, h, d, most) && Open(h) == open
    && Charged(h, d, None) == Charged(h, d, to) == Sat(spent)
    && Strayed(h, d, to) == strayed
    && OnlyCharges(h, d, to)
  }

  /** The same, with no reply open. */
  ghost predicate Rests(caps: Caps, h: History, d: Day, most: nat, to: Option<Id>, spent: nat, strayed: nat) {
    Stands(caps, h, d, most, to, spent, strayed, map[])
  }

  /** The budgets still admit for `from` while fewer than `spent` tokens are charged, all to `to`. */
  ghost predicate Affords(caps: Caps, from: Option<Id>, to: Option<Id>, spent: nat) {
    && spent <= caps.dailyTokens <= U64_MAX
    && (from.Some? && caps.guildDailyTokens.Some? ==> from == to && spent <= caps.guildDailyTokens.value)
  }

  /** What strays when a reply admitted for `from` is charged to `to`. */
  function StrayOf(from: Option<Id>, to: Option<Id>, tokens: nat): nat {
    if to.Some? && from != to then tokens else 0
  }

  lemma StandsAsks(caps: Caps, h: History, d: Day, most: nat, from: Option<Id>, to: Option<Id>, spent: nat, strayed: nat,
                   open: map<nat, Option<Id>>)
    requires Stands(caps, h, d, most, to, spent, strayed, open) && caps.perMemberPerHour > 0 && |open| < caps.inFlight
    requires Affords(caps, from, to, spent + 1)
    ensures Admissions(h) !in open
    ensures Stands(caps, h + [NextAsk(h, from, d)], d, most, to, spent, strayed, open[Admissions(h) := from])
  {
    RushAsks(caps, h, d, most, from);
    OnlyChargesAfter(h, d, to, NextAsk(h, from, d));
    hide Rush, Charged, Strayed, Open, Admissions, NextAsk, OnlyCharges;
  }

  lemma StandsFinishes(caps: Caps, h: History, d: Day, most: nat, tokens: nat, to: Option<Id>, spent: nat, strayed: nat,
                       open: map<nat, Option<Id>>, t: nat)
    requires Stands(caps, h, d, most, to, spent, strayed, open) && t in open && tokens <= most
    ensures Stands(caps, h + [Finished(tokens, to, d, t)], d, most, to, spent + tokens,
                   strayed + StrayOf(open[t], to, tokens), open - {t})
  {
    hide Rush, Charged, Strayed, Open, OnlyCharges;
    RushFinishes(caps, h, d, most, tokens, to, t);
    OnlyChargesAfter(h, d, to, Finished(tokens, to, d, t));
  }

  /** One more reply is admitted for `from`, and ends charged to `to`. */
  lemma SpendOne(caps: Caps, h: History, d: Day, most: nat, from: Option<Id>, to: Option<Id>, spent: nat, strayed: nat,
                 open: map<nat, Option<Id>>, tokens: nat)
    requires Stands(caps, h, d, most, to, spent, strayed, open) && caps.perMemberPerHour > 0 && |open| < caps.inFlight
    requires Affords(caps, from, to, spent + 1) && tokens <= most
    ensures var asked := h + [NextAsk(h, from, d)];
            && Open(asked) == open[Admissions(h) := from]
            && Stands(caps, asked + [Finished(tokens, to, d, Admissions(h))], d, most, to, spent + tokens,
                      strayed + StrayOf(from, to, tokens), open)
  {
    StandsAsks(caps, h, d, most, from, to, spent, strayed, open);
    var asked, t := h + [NextAsk(h, from, d)], Admissions(h);
    assert Open(asked) == open[t := from];
    hide *;
    StandsFinishes(caps, asked, d, most, tokens, to, spent, strayed, open[t := from], t);
    assert open[t := from] - {t} == open;
  }

  lemma {:induction false} SpendSingly(caps: Caps, h: History, d: Day, most: nat, from: Option<Id>, to: Option<Id>,
                                       spent: nat, strayed: nat, open: map<nat, Option<Id>>, n: nat) returns (out: History)
    requires Stands(caps, h, d, most, to, spent, strayed, open) && caps.perMemberPerHour > 0 && |open| < caps.inFlight
    requires most >= 1 && Affords(caps, from, to, spent + n)
    ensures Stands(caps, out, d, most, to, spent + n, strayed + StrayOf(from, to, n), open)
    decreases n
  {
    if n == 0 {
      out := h;
    } else {
      AffordsLess(caps, from, to, spent, n);
      hide *;
      SpendOne(caps, h, d, most, from, to, spent, strayed, open, 1);
      var next := h + [NextAsk(h, from, d)] + [Finished(1, to, d, Admissions(h))];
      out := SpendSingly(caps, next, d, most, from, to, spent + 1, strayed + StrayOf(from, to, 1), open, n - 1);
    }
  }

  lemma AffordsLess(caps: Caps, from: Option<Id>, to: Option<Id>, spent: nat, n: nat)
    requires Affords(caps, from, to, spent + n) && n > 0
    ensures Affords(caps, from, to, spent + 1) && Affords(caps, from, to, spent + 1 + (n - 1))
    ensures StrayOf(from, to, n) == StrayOf(from, to, 1) + StrayOf(from, to, n - 1)
  {
  }

  /** `n` replies are open, all admitted for `from`. */
  ghost predicate AllFor(open: map<nat, Option<Id>>, from: Option<Id>, n: nat) {
    |open| == n && forall t :: t in open ==> open[t] == from
  }

  lemma {:induction false} AskTogether(caps: Caps, h: History, d: Day, most: nat, from: Option<Id>, to: Option<Id>,
                                       spent: nat, strayed: nat, n: nat) returns (out: History)
    requires Rests(caps, h, d, most, to, spent, strayed) && caps.perMemberPerHour > 0 && n <= caps.inFlight
    requires Affords(caps, from, to, spent + 1)
    ensures AllFor(Open(out), from, n) && Stands(caps, out, d, most, to, spent, strayed, Open(out))
    decreases n
  {
    if n == 0 {
      out := h;
    } else {
      var p := AskTogether(caps, h, d, most, from, to, spent, strayed, n - 1);
      StandsAsks(caps, p, d, most, from, to, spent, strayed, Open(p));
      out := p + [NextAsk(p, from, d)];
      assert Open(out) == Open(p)[Admissions(p) := from];
      hide Open, Stands, Admissions;
    }
  }

  lemma OneOpenLess(open: map<nat, Option<Id>>, from: Option<Id>, n: nat, t: nat)
    requires AllFor(open, from, n) && t in open
    ensures n > 0 && open[t] == from && AllFor(open - {t}, from, n - 1)
  {
    assert (open - {t}).Keys == open.Keys - {t};
  }

  lemma BillStep(n: nat, most: nat)
    ensures Bill(n, most) == if n == 0 then 0 else Bill(n - 1, most) + most
  {
  }

  /** The `n` open replies end, and cost `pay` tokens together. */
  lemma {:induction false} FinishAll(caps: Caps, h: History, d: Day, most: nat, from: Option<Id>, to: Option<Id>,
                                     spent: nat, strayed: nat, open: map<nat, Option<Id>>, n: nat, pay: nat)
    returns (out: History)
    requires Stands(caps, h, d, most, to, spent, strayed, open) && AllFor(open, from, n) && pay <= Bill(n, most)
    ensures Rests(caps, out, d, most, to, spent + pay, strayed + StrayOf(from, to, pay))
    decreases n
  {
    BillStep(n, most);
    hide Stands, Bill;
    if n == 0 {
      assert open == map[];
      out := h;
    } else {
      var t :| t in open;
      var tokens := if pay <= most then pay else most;
      StandsFinishes(caps, h, d, most, tokens, to, spent, strayed, open, t);
      OneOpenLess(open, from, n, t);
      hide AllFor;
      out := FinishAll(caps, h + [Finished(tokens, to, d, t)], d, most, from, to, spent + tokens,
                       strayed + StrayOf(from, to, tokens), open - {t}, n - 1, pay - tokens);
    }
  }

  lemma NothingYet(caps: Caps, d: Day, most: nat, to: Option<Id>)
    ensures Rests(caps, [], d, most, to, 0, 0)
  {
    assert Open([]) == map[];
  }

  /** Spend the budget down to its last token, then fill every slot, then let the replies cost `pay` tokens. */
  lemma SpendAll(caps: Caps, d: Day, most: nat, from: Option<Id>, to: Option<Id>, budget: nat, pay: nat)
    returns (h: History)
    requires caps.perMemberPerHour > 0 && caps.inFlight > 0 && most >= 1 && 1 <= budget && pay <= Bill(caps.inFlight, most)
    requires Affords(caps, from, to, budget)
    ensures Rests(caps, h, d, most, to, budget - 1 + pay, StrayOf(from, to, budget - 1 + pay))
  {
    hide Stands, Bill, Open;
    NothingYet(caps, d, most, to);
    h := SpendSingly(caps, [], d, most, from, to, 0, 0, map[], budget - 1);
    h := AskTogether(caps, h, d, most, from, to, budget - 1, StrayOf(from, to, budget - 1), caps.inFlight);
    h := FinishAll(caps, h, d, most, from, to, budget - 1, StrayOf(from, to, budget - 1), Open(h), caps.inFlight, pay);
  }

  // ---------------------------------------------------------------- the bound is exact

  /** For all limits that admit anyone, some run charges all that the bound allows, and nothing strays. */
  lemma OverspendIsReached(caps: Caps, d: Day, who: Option<Id>, most: nat)
    requires caps.perMemberPerHour > 0 && caps.inFlight > 0 && most >= 1 && BudgetOf(caps, who).Some?
    requires 1 <= BudgetOf(caps, who).value <= caps.dailyTokens <= U64_MAX
    ensures exists h :: Possible(caps, h, most) && Strayed(h, d, who) == 0 &&
                        Charged(h, d, who) == Sat(Ceiling(caps, BudgetOf(caps, who).value, most))
  {
    var h := SpendAll(caps, d, most, who, who, BudgetOf(caps, who).value, Bill(caps.inFlight, most));
  }

  /** `s` tokens have strayed to guild `g` in a run. */
  ghost predicate StrayRun(caps: Caps, h: History, d: Day, g: Id, most: nat, s: nat) {
    Possible(caps, h, most) && Strayed(h, d, Some(g)) == s
  }

  lemma SpendAndStray(caps: Caps, d: Day, g: Id, most: nat, s: nat) returns (h: History)
    requires caps.perMemberPerHour > 0 && caps.inFlight > 0 && most >= 1 && caps.guildDailyTokens.Some?
    requires Ceiling(caps, caps.guildDailyTokens.value, most) + s <= caps.dailyTokens <= U64_MAX
    ensures Rests(caps, h, d, most, Some(g), Ceiling(caps, caps.guildDailyTokens.value, most) + s, s)
  {
    var cap := caps.guildDailyTokens.value;
    h := [];
    NothingYet(caps, d, most, Some(g));
    if cap > 0 {
      Scale(1, caps.inFlight, most);
      h := SpendAll(caps, d, most, Some(g), Some(g), cap, Bill(caps.inFlight, most));
    }
    hide Stands;
    h := SpendSingly(caps, h, d, most, None, Some(g), Ceiling(caps, cap, most), 0, map[], s);
  }

  /**
    While the day's budget leaves room, the guild's ceiling holds for the runs with `s` strayed tokens
    if and only if `s` is zero; and what strays can go on top of the ceiling in full.
  */
  lemma CeilingNeedsNoStrays(caps: Caps, d: Day, g: Id, most: nat, s: nat)
    requires caps.perMemberPerHour > 0 && caps.inFlight > 0 && most >= 1 && caps.guildDailyTokens.Some?
    requires Ceiling(caps, caps.guildDailyTokens.value, most) + s <= caps.dailyTokens <= U64_MAX
    ensures var ceiling := Ceiling(caps, caps.guildDailyTokens.value, most);
            && (exists h :: StrayRun(caps, h, d, g, most, s) && Charged(h, d, Some(g)) == ceiling + s)
            && ((forall h :: StrayRun(caps, h, d, g, most, s) ==> Charged(h, d, Some(g)) <= ceiling) <==> s == 0)
  {
    hide Legal, Balanced, RepliesCost, Charged, Strayed, Open;
    var ceiling := Ceiling(caps, caps.guildDailyTokens.value, most);
    var h := SpendAndStray(caps, d, g, most, s);
    assert StrayRun(caps, h, d, g, most, s) && Charged(h, d, Some(g)) == ceiling + s;
    hide Rests, Rush;
    forall h | StrayRun(caps, h, d, g, most, s) ensures Charged(h, d, Some(g)) <= ceiling + s {
      Overspend(caps, h, d, Some(g), most);
    }
  }

  /** The limits admit anyone, and the guild's share is the tighter budget. */
  predicate Passable(caps: Caps, most: nat) {
    && caps.perMemberPerHour > 0 && caps.inFlight > 0 && most > 0 && caps.guildDailyTokens.Some?
    && caps.guildDailyTokens.value < caps.dailyTokens <= U64_MAX
    && Ceiling(caps, caps.guildDailyTokens.value, most) < U64_MAX
  }

  /** Which limits let a guild pass its ceiling at all. */
  lemma GuildCanPassItsCeiling(caps: Caps, d: Day, g: Id, most: nat)
    requires caps.guildDailyTokens.Some? && caps.dailyTokens <= U64_MAX
    ensures var ceiling := Ceiling(caps, caps.guildDailyTokens.value, most);
            (exists h :: Possible(caps, h, most) && Charged(h, d, Some(g)) > ceiling) <==> Passable(caps, most)
  {
    var cap := caps.guildDailyTokens.value;
    var ceiling := Ceiling(caps, cap, most);
    if Passable(caps, most) {
      var h := SpendAll(caps, d, most, None, Some(g), caps.dailyTokens, Bill(caps.inFlight, most));
      HigherCeiling(caps, cap, caps.dailyTokens, most);
      assert Possible(caps, h, most) && Charged(h, d, Some(g)) > ceiling;
    } else {
      forall h | Possible(caps, h, most) ensures Charged(h, d, Some(g)) <= ceiling {
        ChargedBounded(h, d, Some(g));
        if caps.perMemberPerHour == 0 || caps.inFlight == 0 || most == 0 {
          NothingCharged(caps, h, d, Some(g), most);
        } else if caps.dailyTokens <= cap {
          GuildWithinTotal(h, d, Some(g));
          Overspend(caps, h, d, None, most);
        }
      }
    }
  }

  lemma HigherCeiling(caps: Caps, low: nat, high: nat, most: nat)
    requires low < high && caps.inFlight > 0 && most > 0
    ensures Ceiling(caps, low, most) < Ceiling(caps, high, most)
  {
    Scale(1, caps.inFlight, most);
  }

  lemma {:induction false} NothingCharged(caps: Caps, h: History, d: Day, who: Option<Id>, most: nat)
    requires Possible(caps, h, most) && (caps.perMemberPerHour == 0 || caps.inFlight == 0 || most == 0)
    ensures Charged(h, d, who) == 0 && (most > 0 ==> Open(h) == map[])
  {
    if h != [] {
      NothingCharged(caps, Past(h), d, who, most);
      assert Last(h) == h[|h| - 1];
    }
  }

  lemma {:induction false} GuildWithinTotal(h: History, d: Day, who: Option<Id>)
    ensures Charged(h, d, who) <= Charged(h, d, None)
  {
    if h != [] {
      GuildWithinTotal(Past(h), d, who);
    }
  }
}
