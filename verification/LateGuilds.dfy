/**
  A run in which guilds become known late.  While a trigger waits for its channel's history, the channel
  can turn out to belong to a guild; its reply is then charged to a guild whose share was never asked.
*/
module LateGuilds {
  import opened Wrappers
  import opened Limits
  import opened LedgerRuns
  import opened Budgets
  import opened Runner
  import Context

  lemma TicketsAreAdmissions(a: Agent)
    requires a.Valid()
    ensures a.admitted == Admissions(a.ledger.history)
  {
  }

  /** What one more trigger makes of the waiting lists. */
  ghost predicate OneMoreWaits(before: map<Id, seq<Waiting>>, after: map<Id, seq<Waiting>>, channel: Id, ticket: nat) {
    exists w: Waiting :: w.channel == channel && w.ticket == ticket &&
                         after == before[channel := Lookup(before, channel, []) + [w]]
  }

  /** Somebody new asks in a channel that is in no known guild; `n` records came before. */
  method AskEarly(a: Agent, channel: Id, n: nat, d: Day, ghost most: nat)
    requires a.Valid() && Rush(a.ledger.caps, a.ledger.history, d, most) && |a.ledger.history| == n
    requires channel !in a.guildOf && |Open(a.ledger.history)| < a.ledger.caps.inFlight
    requires a.ledger.caps.perMemberPerHour > 0 && Charged(a.ledger.history, d, None) < a.ledger.caps.dailyTokens
    modifies a`waiting, a`admitted, a.ledger
    ensures a.Valid() && a.ledger.history == old(a.ledger.history + [NextAsk(a.ledger.history, None, d)])
    ensures OneMoreWaits(old(a.waiting), a.waiting, channel, old(Admissions(a.ledger.history)))
  {
    hide Agent.Valid, Possible, Charged, Strayed, Open, Decide, Admissions;
    RushAsks(a.ledger.caps, a.ledger.history, d, most, None);
    TicketsAreAdmissions(a);
    assert GuildIn(a.guildOf, channel) == None && Clock(a.ledger.history) == 0;
    var trigger := Context.Message(n, Name(n), "", "", 0);
    QueuedWaits(a.waiting, Waiting(trigger, channel, Mention(n), 0, a.admitted));
    assert Name(n) == NextAsk(a.ledger.history, None, d).member;
    hide *;
    var flow, sent := a.Start(trigger, channel, Mention(n), 0, 0, d, true);
    assert flow == Continue;
  }

  lemma QueuedWaits(waiting: map<Id, seq<Waiting>>, w: Waiting)
    ensures OneMoreWaits(waiting, Queued(waiting, w, Admitted, Continue), w.channel, w.ticket)
  {
  }

  /** The channel turns out to be in guild `g`, and its history comes. */
  method LearnLate(a: Agent, channel: Id, g: Id)
    requires a.Valid() && a.waiting.Keys == {channel} && a.tasks == map[]
    modifies a`guildOf, a`waiting, a`tasks, a`running, a`dispatched, a`spawned, a`drifted
    ensures a.Valid() && a.guildOf == old(a.guildOf)[channel := g] && a.waiting == map[]
    ensures forall k :: k in a.tasks ==> a.tasks[k].guild == Some(g)
  {
    hide Agent.Valid, TicketsOf, Context.IsPrompt;
    ghost var ws := a.waiting[channel];
    assert forall i :: 0 <= i < |ws| ==> ws[i].channel == channel by { ListAt(a, channel); }
    a.LearnChannels(map[channel := g]);
    a.OnHistory(channel, []);
  }

  lemma ListAt(a: Agent, c: Id)
    requires a.Valid() && c in a.waiting
    ensures ListOf(c, a.waiting[c])
  {
  }

  /** Whoever has nothing waiting runs just the open admissions. */
  lemma TasksAreOpen(a: Agent)
    requires a.Valid() && a.waiting == map[]
    ensures |Open(a.ledger.history)| == |a.tasks| && (a.tasks == map[] <==> Open(a.ledger.history) == map[])
    ensures forall k :: k in a.tasks ==> a.tasks[k].ticket in Open(a.ledger.history)
  {
    NothingIsLost(a);
    InFlightIsOpen(a.ledger.caps, a.ledger.history);
    InFlightField(a.ledger);
    forall k | k in a.tasks ensures a.tasks[k].ticket in Open(a.ledger.history) {
      assert a.tasks[k].ticket in RunTickets(a.tasks);
    }
  }

  /** A reply ends, at a cost of `tokens`, and guild `g` is charged. */
  method EndLate(a: Agent, task: TaskId, tokens: nat, g: Id, d: Day, ghost most: nat)
    requires a.Valid() && Rush(a.ledger.caps, a.ledger.history, d, most) && a.waiting == map[] && tokens <= most
    requires task in a.tasks && a.tasks[task].guild == Some(g)
    modifies a`tasks, a`running, a.ledger
    ensures a.Valid() && a.tasks == old(a.tasks) - {task}
    ensures a.ledger.history == old(a.ledger.history + [Finished(tokens, Some(g), d, a.tasks[task].ticket)])
    ensures old(a.tasks[task].ticket in Open(a.ledger.history))
  {
    TasksAreOpen(a);
    hide Agent.Valid, Rush, Open;
    var sent := a.OnJoined(task, Done(Ok(Reply("", tokens))), d);
  }

  /** Nothing waits or runs, and every token spent was charged to guild `g` for a channel in no known guild. */
  ghost predicate Calm(a: Agent, d: Day, most: nat, g: Id, spent: nat)
    reads a, a.ledger
  {
    a.Valid() && a.waiting == map[] && a.tasks == map[] &&
    Rests(a.ledger.caps, a.ledger.history, d, most, Some(g), spent, spent)
  }

  /** One trigger is admitted for no guild, and its channel then turns out to be in guild `g`. */
  method StartLate(a: Agent, channel: Id, n: nat, d: Day, g: Id, ghost most: nat)
    requires a.Valid() && a.waiting == map[] && a.tasks == map[] && Rush(a.ledger.caps, a.ledger.history, d, most)
    requires channel !in a.guildOf && |Open(a.ledger.history)| < a.ledger.caps.inFlight && |a.ledger.history| == n
    requires a.ledger.caps.perMemberPerHour > 0 && Charged(a.ledger.history, d, None) < a.ledger.caps.dailyTokens
    modifies a, a.ledger
    ensures a.Valid() && a.ledger.history == old(a.ledger.history + [NextAsk(a.ledger.history, None, d)])
    ensures a.waiting == map[] && a.guildOf == old(a.guildOf)[channel := g]
    ensures forall k :: k in a.tasks ==> a.tasks[k].guild == Some(g)
  {
    hide Agent.Valid, Rush, Open, Charged, Strayed, Admissions, NextAsk;
    AskEarly(a, channel, n, d, most);
    LearnLate(a, channel, g);
  }

  /** One token of guild `g` is spent on a trigger that was admitted for no guild. */
  method SpendLate(a: Agent, channel: Id, n: nat, d: Day, g: Id, ghost most: nat, ghost spent: nat)
    requires Calm(a, d, most, g, spent) && channel !in a.guildOf && |a.ledger.history| == n
    requires Passable(a.ledger.caps, most) && spent < a.ledger.caps.dailyTokens
    modifies a, a.ledger
    ensures Calm(a, d, most, g, spent + 1)
    ensures a.guildOf == old(a.guildOf)[channel := g] && |a.ledger.history| == n + 2
  {
    hide *;
    ghost var t := Admissions(a.ledger.history);
    CalmAdmits(a, d, most, g, spent);
    StartLate(a, channel, n, d, g, most);
    TasksAreOpen(a);
    var task :| task in a.tasks;
    OnlyTask(a.tasks, task);
    EndLate(a, task, 1, g, d, most);
    CalmAt(a, d, most, g, spent + 1);
  }

  /** A calm agent lets one more trigger in, and one more token leaves it calm. */
  lemma CalmAdmits(a: Agent, d: Day, most: nat, g: Id, spent: nat)
    requires Calm(a, d, most, g, spent) && Passable(a.ledger.caps, most) && spent < a.ledger.caps.dailyTokens
    ensures var caps, h, t := a.ledger.caps, a.ledger.history, Admissions(a.ledger.history);
            var asked := h + [NextAsk(h, None, d)];
            && a.Valid() && a.waiting == map[] && a.tasks == map[] && Rush(caps, h, d, most) && Rush(caps, asked, d, most)
            && |Open(h)| < caps.inFlight && caps.perMemberPerHour > 0 && Charged(h, d, None) < caps.dailyTokens && 1 <= most
            && |Open(asked)| == 1 && (forall u :: u in Open(asked) ==> u == t)
            && Rests(caps, asked + [Finished(1, Some(g), d, t)], d, most, Some(g), spent + 1, spent + 1)
  {
    hide Agent.Valid, Rush, Open, Charged, Strayed, Admissions, NextAsk;
    SpendOne(a.ledger.caps, a.ledger.history, d, most, None, Some(g), spent, spent, map[], 1);
    RushAsks(a.ledger.caps, a.ledger.history, d, most, None);
  }

  lemma CalmAt(a: Agent, d: Day, most: nat, g: Id, spent: nat)
    requires a.Valid() && a.waiting == map[] && a.tasks == map[]
    requires Rests(a.ledger.caps, a.ledger.history, d, most, Some(g), spent, spent)
    ensures Calm(a, d, most, g, spent)
  {
  }

  lemma OnlyTask(tasks: map<TaskId, Job>, k: TaskId)
    requires k in tasks && |tasks| == 1
    ensures tasks - {k} == map[]
  {
    assert |(tasks - {k}).Keys| == |tasks.Keys - {k}| == 0;
  }

  /** `m` replies are open, all admitted for no guild, after `spent` tokens of which all strayed to guild `g`. */
  ghost predicate Filled(caps: Caps, h: History, d: Day, most: nat, g: Id, spent: nat, m: nat) {
    Stands(caps, h, d, most, Some(g), spent, spent, Open(h)) && AllFor(Open(h), None, m)
  }

  lemma FilledFacts(caps: Caps, h: History, d: Day, most: nat, g: Id, spent: nat, m: nat)
    ensures Rests(caps, h, d, most, Some(g), spent, spent) ==> Filled(caps, h, d, most, g, spent, 0)
    ensures Filled(caps, h, d, most, g, spent, m) ==>
              Rush(caps, h, d, most) && |Open(h)| == m && Charged(h, d, None) == Sat(spent) && Possible(caps, h, most) &&
              Charged(h, d, Some(g)) == Sat(spent)
  {
    hide Charged, Strayed, Open, OnlyCharges, Possible;
    if Filled(caps, h, d, most, g, spent, m) {
      RushIsPossible(caps, h, d, most);
    }
  }

  lemma RushIsPossible(caps: Caps, h: History, d: Day, most: nat)
    requires Rush(caps, h, d, most)
    ensures Possible(caps, h, most)
  {
  }

  lemma FillOneMore(caps: Caps, h: History, d: Day, most: nat, g: Id, spent: nat, m: nat)
    requires Filled(caps, h, d, most, g, spent, m) && Passable(caps, most) && spent < caps.dailyTokens && m < caps.inFlight
    ensures Filled(caps, h + [NextAsk(h, None, d)], d, most, g, spent, m + 1)
  {
    StandsAsks(caps, h, d, most, None, Some(g), spent, spent, Open(h));
    assert Open(h + [NextAsk(h, None, d)]) == Open(h)[Admissions(h) := None];
    hide Stands, Open, Admissions, NextAsk;
  }

  lemma EndOneMore(caps: Caps, h: History, d: Day, most: nat, g: Id, spent: nat, m: nat, t: nat)
    requires Filled(caps, h, d, most, g, spent, m) && t in Open(h)
    ensures m > 0 && Filled(caps, h + [Finished(most, Some(g), d, t)], d, most, g, spent + most, m - 1)
  {
    StandsFinishes(caps, h, d, most, most, Some(g), spent, spent, Open(h), t);
    assert Open(h + [Finished(most, Some(g), d, t)]) == Open(h) - {t};
    hide Stands, Open;
    OneOpenLess(Open(h), None, m, t);
  }

  lemma PassableMeans(caps: Caps, most: nat, spent: nat)
    requires Passable(caps, most) && spent < caps.dailyTokens
    ensures caps.perMemberPerHour > 0 && caps.inFlight > 0 && Sat(spent) < caps.dailyTokens
  {
  }

  lemma WaitsIn(before: map<Id, seq<Waiting>>, after: map<Id, seq<Waiting>>, channel: Id, ticket: nat)
    requires OneMoreWaits(before, after, channel, ticket)
    ensures after.Keys == before.Keys + {channel}
  {
  }

  method FillOne(a: Agent, channel: Id, n: nat, d: Day, ghost g: Id, ghost most: nat, ghost spent: nat, ghost m: nat)
    requires a.Valid() && Filled(a.ledger.caps, a.ledger.history, d, most, g, spent, m) && |a.ledger.history| == n
    requires Passable(a.ledger.caps, most) && spent < a.ledger.caps.dailyTokens && m < a.ledger.caps.inFlight
    requires channel !in a.guildOf
    modifies a`waiting, a`admitted, a.ledger
    ensures a.Valid() && Filled(a.ledger.caps, a.ledger.history, d, most, g, spent, m + 1)
    ensures |a.ledger.history| == n + 1 && a.waiting.Keys == old(a.waiting.Keys) + {channel}
  {
    hide *;
    PassableMeans(a.ledger.caps, most, spent);
    FilledFacts(a.ledger.caps, a.ledger.history, d, most, g, spent, m);
    FillOneMore(a.ledger.caps, a.ledger.history, d, most, g, spent, m);
    AskEarly(a, channel, n, d, most);
    WaitsIn(old(a.waiting), a.waiting, channel, old(Admissions(a.ledger.history)));
  }

  /** Triggers in one channel of no known guild take all slots. */
  method FillSlots(a: Agent, channel: Id, n: nat, d: Day, g: Id, ghost most: nat, ghost spent: nat)
    requires a.Valid() && a.waiting == map[]
    requires Filled(a.ledger.caps, a.ledger.history, d, most, g, spent, 0)
    requires Passable(a.ledger.caps, most) && spent < a.ledger.caps.dailyTokens
    requires channel !in a.guildOf && |a.ledger.history| == n
    modifies a`waiting, a`admitted, a.ledger
    ensures a.Valid() && a.waiting.Keys == {channel}
    ensures Filled(a.ledger.caps, a.ledger.history, d, most, g, spent, a.ledger.caps.inFlight)
  {
    hide *;
    PassableMeans(a.ledger.caps, most, spent);
    for m := 0 to a.ledger.caps.inFlight
      invariant a.Valid() && Filled(a.ledger.caps, a.ledger.history, d, most, g, spent, m)
      invariant |a.ledger.history| == n + m && a.waiting.Keys == if m == 0 then {} else {channel}
    {
      FillOne(a, channel, n + m, d, g, most, spent, m);
    }
  }

  /** All that runs ends, each reply as costly as it may be, and guild `g` is charged. */
  method EndAll(a: Agent, d: Day, g: Id, most: nat, ghost spent: nat)
    requires a.Valid() && a.waiting == map[] && (forall k :: k in a.tasks ==> a.tasks[k].guild == Some(g))
    requires Filled(a.ledger.caps, a.ledger.history, d, most, g, spent, |a.tasks|)
    modifies a`tasks, a`running, a.ledger
    ensures a.Valid()
    ensures Filled(a.ledger.caps, a.ledger.history, d, most, g, spent + Bill(old(|a.tasks|), most), 0)
  {
    hide Agent.Valid, Filled, Rush, Open, Charged, Strayed;
    ghost var caps, all, ended := a.ledger.caps, |a.tasks|, 0;
    while a.tasks != map[]
      invariant a.Valid() && (forall k :: k in a.tasks ==> a.tasks[k].guild == Some(g))
      invariant ended + |a.tasks| == all && Filled(caps, a.ledger.history, d, most, g, spent + Bill(ended, most), |a.tasks|)
      decreases |a.tasks|
    {
      var task :| task in a.tasks;
      FilledFacts(caps, a.ledger.history, d, most, g, spent + Bill(ended, most), |a.tasks|);
      TasksAreOpen(a);
      EndOneMore(caps, a.ledger.history, d, most, g, spent + Bill(ended, most), |a.tasks|, a.tasks[task].ticket);
      OneTaskLess(a.tasks, task);
      OneFewer(ended, most);
      EndLate(a, task, most, g, d, most);
      ended := ended + 1;
    }
  }

  lemma OneTaskLess(tasks: map<TaskId, Job>, k: TaskId)
    requires k in tasks
    ensures |tasks - {k}| == |tasks| - 1
  {
    assert (tasks - {k}).Keys == tasks.Keys - {k};
  }

  lemma CalmIsFilled(a: Agent, d: Day, most: nat, g: Id, spent: nat)
    requires Calm(a, d, most, g, spent)
    ensures a.Valid() && a.waiting == map[] && a.tasks == map[]
    ensures Filled(a.ledger.caps, a.ledger.history, d, most, g, spent, 0)
  {
    FilledFacts(a.ledger.caps, a.ledger.history, d, most, g, spent, 0);
  }

  lemma StartsCalm(a: Agent, d: Day, most: nat, g: Id)
    requires a.Valid() && a.waiting == map[] && a.tasks == map[] && a.ledger.history == []
    ensures Calm(a, d, most, g, 0)
  {
    assert Open([]) == map[];
  }

  /**
    For all limits under which a guild's share is the tighter budget, the agent itself has a run that charges
    guild `g` past its ceiling, up to the ceiling of the whole day.
  */
  method PassTheCeiling(caps: Caps, me: string, g: Id, most: nat, d: Day) returns (a: Agent)
    requires Passable(caps, most)
    ensures a.Valid() && a.ledger.caps == caps && RepliesCost(a.ledger.history, most)
    ensures Charged(a.ledger.history, d, Some(g)) == Sat(Ceiling(caps, caps.dailyTokens, most))
    ensures Charged(a.ledger.history, d, Some(g)) > Ceiling(caps, caps.guildDailyTokens.value, most)
  {
    hide *;
    a := new Agent(caps, me, me, 0, None);
    DayIsOpen(caps, most);
    var last := caps.dailyTokens - 1;
    StartsCalm(a, d, most, g);
    for n := 0 to last
      invariant Calm(a, d, most, g, n) && a.ledger.caps == caps && |a.ledger.history| == 2 * n
      invariant forall c :: c in a.guildOf ==> c < n
    {
      SpendLate(a, n, 2 * n, d, g, most, n);
    }
    CalmIsFilled(a, d, most, g, last);
    FillSlots(a, last, 2 * last, d, g, most, last);
    LearnLate(a, last, g);
    TasksAreOpen(a);
    FilledFacts(caps, a.ledger.history, d, most, g, last, caps.inFlight);
    EndAll(a, d, g, most, last);
    FilledPasses(caps, a.ledger.history, d, most, g);
  }

  lemma DayIsOpen(caps: Caps, most: nat)
    requires Passable(caps, most)
    ensures caps.dailyTokens > 0 && caps.guildDailyTokens.Some?
  {
  }

  lemma FilledPasses(caps: Caps, h: History, d: Day, most: nat, g: Id)
    requires Passable(caps, most)
    requires Filled(caps, h, d, most, g, caps.dailyTokens - 1 + Bill(caps.inFlight, most), 0)
    ensures RepliesCost(h, most) && Charged(h, d, Some(g)) == Sat(Ceiling(caps, caps.dailyTokens, most))
    ensures Charged(h, d, Some(g)) > Ceiling(caps, caps.guildDailyTokens.value, most)
  {
    FilledFacts(caps, h, d, most, g, caps.dailyTokens - 1 + Bill(caps.inFlight, most), 0);
    hide Rush, Open, Charged, Strayed, RepliesCost, Legal, Balanced;
    HigherCeiling(caps, caps.guildDailyTokens.value, caps.dailyTokens, most);
  }
}
