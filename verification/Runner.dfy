/**
  The agent's life between events: an admitted trigger waits for its channel's history, runs as
  a task, and is delivered.  Every admission carries a ticket, its number in the ledger's history;
  the invariant says where each ticket is.
*/
module Runner {
  import opened Wrappers
  import opened Limits
  import opened LedgerRuns
  import opened Budgets
  import Context
  import Split
  import Text

  /** Nanoseconds after which a trigger is answered without history. */
  const HISTORY_WAIT: nat := 4_000_000_000
  const MAX_PARTS: nat := 4
  const MAX_MESSAGE_BYTES: nat := 2000
  const MAX_COMMAND_REPLY: nat := 2000

  type TaskId = nat

  datatype Answer = Mention(replyTo: Id) | Ask(invocation: Id)

  datatype Waiting = Waiting(trigger: Context.Message, channel: Id, answer: Answer, since: nat, ticket: nat)

  datatype Job = Job(channel: Id, guild: Option<Id>, answer: Answer, turns: seq<Context.Turn>, ticket: nat)

  datatype HarnessError = Declined(tokens: nat) | Empty(tokens: nat) | Unreachable

  datatype Reply = Reply(text: string, tokens: nat)

  /** How a task ends: with the harness's result, or by failing. */
  datatype Joined = Done(result: Result<Reply, HarnessError>) | Failed

  datatype Outgoing =
    | Typing(channel: Id)
    | FetchHistory(channel: Id)
    | ReplyTo(channel: Id, text: string, message: Id)
    | Send(channel: Id, text: string)
    | Respond(invocation: Id, text: string)

  /** An event handler either returns to the loop or ends the run with a gateway error. */
  datatype Flow = Continue | Broken

  /** A message as the gateway announces it. */
  datatype Incoming = Incoming(message: Context.Message, channel: Id, authorBot: bool, repliesTo: Option<string>)

  /** Whether a text mentions a name is the protocol's to say. */
  type Mentions = (string, string) -> bool

  /** Bots, this agent among them, never trigger an answer; people do by a mention or a reply. */
  predicate Triggered(m: Incoming, me: string, names: set<string>, onlyFrom: Option<string>, mentions: Mentions) {
    && m.message.author != me && !m.authorBot
    && (onlyFrom.Some? ==> m.message.author == onlyFrom.value)
    && Text.Trim(m.message.content) != ""
    && (m.repliesTo == Some(me) || exists n :: n in names && mentions(m.message.content, n))
  }

  /** What a command is told without asking the ledger. */
  function TurnedAway(question: string, invoker: string, onlyFrom: Option<string>): Option<string> {
    if onlyFrom.Some? && onlyFrom.value != invoker then Some("I only answer the person who runs me.")
    else if Text.Trim(question) == "" then Some("Ask me something.")
    else None
  }

  // ---------------------------------------------------------------- tickets

  function TicketsOf(ws: seq<Waiting>): seq<nat> {
    seq(|ws|, i requires 0 <= i < |ws| => ws[i].ticket)
  }

  /** The tickets of all waiting lists together. */
  ghost function Held(waiting: map<Id, seq<Waiting>>): multiset<nat> {
    if waiting == map[] then multiset{}
    else var c :| c in waiting; multiset(TicketsOf(waiting[c])) + Held(waiting - {c})
  }

  lemma {:induction false} HeldAt(waiting: map<Id, seq<Waiting>>, c: Id)
    requires c in waiting
    ensures Held(waiting) == multiset(TicketsOf(waiting[c])) + Held(waiting - {c})
  {
    var d :| d in waiting && Held(waiting) == multiset(TicketsOf(waiting[d])) + Held(waiting - {d});
    if c != d {
      HeldAt(waiting - {d}, c);
      HeldAt(waiting - {c}, d);
      assert waiting - {d} - {c} == waiting - {c} - {d};
      hide *;
      Exchange(multiset(TicketsOf(waiting[c])), multiset(TicketsOf(waiting[d])), Held(waiting - {c} - {d}));
    }
  }

  lemma Exchange(a: multiset<nat>, b: multiset<nat>, rest: multiset<nat>)
    ensures a + (b + rest) == b + (a + rest)
  {
  }

  lemma HeldUpdate(waiting: map<Id, seq<Waiting>>, c: Id, ws: seq<Waiting>)
    ensures Held(waiting[c := ws]) == multiset(TicketsOf(ws)) + Held(waiting - {c})
  {
    HeldAt(waiting[c := ws], c);
    assert waiting[c := ws] - {c} == waiting - {c};
  }

  /** Lists that hold nothing may be dropped. */
  lemma {:induction false} HeldRetain(waiting: map<Id, seq<Waiting>>, kept: map<Id, seq<Waiting>>)
    requires kept == map c | c in waiting && waiting[c] != [] :: waiting[c]
    ensures Held(kept) == Held(waiting)
  {
    if waiting != map[] {
      var c :| c in waiting;
      HeldAt(waiting, c);
      HeldRetain(waiting - {c}, kept - {c});
      if c in kept {
        HeldAt(kept, c);
      } else {
        assert kept - {c} == kept;
      }
    }
  }

  lemma OneFewerInHand(ws: seq<Waiting>, i: nat)
    requires i < |ws|
    ensures ws[i].ticket in multiset(TicketsOf(ws[i..]))
    ensures multiset(TicketsOf(ws[i..])) - multiset{ws[i].ticket} == multiset(TicketsOf(ws[i + 1..]))
    ensures ws[..i + 1] == ws[..i] + [ws[i]] && |ws[..i]| == i
    ensures TicketsOf(ws[..i + 1]) == TicketsOf(ws[..i]) + [ws[i].ticket]
  {
    assert TicketsOf(ws[i..]) == [ws[i].ticket] + TicketsOf(ws[i + 1..]);
    assert TicketsOf(ws[i..])[0] == ws[i].ticket;
  }

  lemma Removing(waiting: map<Id, seq<Waiting>>, c: Id)
    ensures Held(waiting) == Held(waiting - {c}) + multiset(TicketsOf(Lookup(waiting, c, [])))
  {
    if c in waiting {
      HeldAt(waiting, c);
    } else {
      assert waiting - {c} == waiting && TicketsOf(Lookup(waiting, c, [])) == [];
    }
  }

  lemma TicketsSplit(ws: seq<Waiting>, w: Waiting)
    ensures multiset(TicketsOf(ws + [w])) == multiset(TicketsOf(ws)) + multiset{w.ticket}
  {
    assert TicketsOf(ws + [w]) == TicketsOf(ws) + [w.ticket];
  }

  lemma TwiceCounts(s: seq<nat>, i: nat, j: nat)
    requires i < j < |s| && s[i] == s[j]
    ensures multiset(s)[s[i]] >= 2
  {
    assert s == s[..j] + s[j..];
    assert s[i] == s[..j][i] && s[j] == s[j..][0];
  }

  // ---------------------------------------------------------------- where every ticket is

  ghost function RunTickets(tasks: map<TaskId, Job>): set<nat> {
    set k | k in tasks :: tasks[k].ticket
  }

  /** Tasks are numbered in the order of their dispatch. */
  ghost predicate Numbered(tasks: map<TaskId, Job>, dispatched: seq<nat>) {
    forall k :: k in tasks ==> k < |dispatched| && tasks[k].ticket == dispatched[k]
  }

  /** Every ticket below `n` is idle or was dispatched, once in all. */
  ghost predicate Once(idle: multiset<nat>, dispatched: seq<nat>, n: nat) {
    forall t: nat :: idle[t] + multiset(dispatched)[t] == if t < n then 1 else 0
  }

  ghost predicate OpenAre(open: map<nat, Option<Id>>, idle: multiset<nat>, running: set<nat>) {
    forall t :: t in open <==> t in idle || t in running
  }

  /**
    Where the tickets are: each is idle (in a waiting list, or in hand between lists and tasks) or
    was dispatched; the open admissions are the idle ones and those of the tasks, and the ledger
    counts just these.
  */
  ghost predicate Placed(h: History, idle: multiset<nat>, tasks: map<TaskId, Job>, dispatched: seq<nat>) {
    && Balanced(h)
    && Numbered(tasks, dispatched)
    && Once(idle, dispatched, Admissions(h))
    && OpenAre(Open(h), idle, RunTickets(tasks))
    && InFlight(h) == |idle| + |tasks|
  }

  /** A ticket that is charged to another guild than it was admitted for. */
  datatype Drift = Drift(ticket: nat, guild: Option<Id>)

  /** Ticket `t` is charged to the guild it was admitted for, or its drift is known. */
  ghost predicate Accounted(open: map<nat, Option<Id>>, t: nat, guild: Option<Id>, drifted: set<Drift>) {
    t in open && (guild == open[t] || Drift(t, guild) in drifted)
  }

  ghost predicate ChargesAccounted(h: History, drifted: set<Drift>) {
    h != [] ==>
      var x := Last(h);
      ChargesAccounted(Past(h), drifted) &&
      (x.Finished? && x.tokens > 0 ==> Accounted(Open(Past(h)), x.ticket, x.guild, drifted))
  }

  /** Every charge, made or to come, goes to the guild of its admission or is a known drift. */
  ghost predicate GuildsMatch(h: History, tasks: map<TaskId, Job>, drifted: set<Drift>) {
    && ChargesAccounted(h, drifted)
    && forall k :: k in tasks ==> Accounted(Open(h), tasks[k].ticket, tasks[k].guild, drifted)
  }

  lemma {:induction false} MoreDrifts(h: History, drifted: set<Drift>, more: set<Drift>)
    requires ChargesAccounted(h, drifted) && drifted <= more
    ensures ChargesAccounted(h, more)
  {
    if h != [] {
      MoreDrifts(Past(h), drifted, more);
    }
  }

  /** What no ticket has drifted to, nothing has strayed to. */
  lemma {:induction false} NoDriftNoStray(h: History, drifted: set<Drift>, today: Day, g: Id)
    requires ChargesAccounted(h, drifted) && forall t :: Drift(t, Some(g)) !in drifted
    ensures Strayed(h, today, Some(g)) == 0
  {
    if h != [] {
      NoDriftNoStray(Past(h), drifted, today, g);
    }
  }

  /** What the loop remembers of its tasks, for the typing notice. */
  ghost predicate Remembered(running: map<TaskId, (Id, bool)>, tasks: map<TaskId, Job>) {
    running.Keys == tasks.Keys &&
    forall k :: k in tasks ==> running[k] == (tasks[k].channel, tasks[k].answer.Mention?)
  }

  lemma RememberOneMore(running: map<TaskId, (Id, bool)>, tasks: map<TaskId, Job>, k: TaskId, job: Job)
    requires Remembered(running, tasks)
    ensures Remembered(running[k := (job.channel, job.answer.Mention?)], tasks[k := job])
  {
  }

  ghost predicate ListsOf(waiting: map<Id, seq<Waiting>>) {
    forall c :: c in waiting ==> ListOf(c, waiting[c])
  }

  ghost predicate ListOf(c: Id, ws: seq<Waiting>) {
    ws != [] && forall i :: 0 <= i < |ws| ==> ws[i].channel == c
  }

  lemma ListsAppend(waiting: map<Id, seq<Waiting>>, w: Waiting)
    requires ListsOf(waiting)
    ensures ListsOf(waiting[w.channel := Lookup(waiting, w.channel, []) + [w]])
  {
    if w.channel in waiting {
      assert ListOf(w.channel, waiting[w.channel]);
    }
    assert ListOf(w.channel, Lookup(waiting, w.channel, []) + [w]);
  }

  /** All that the agent's fields say of the history, apart from the waiting lists' shape. */
  ghost predicate Consistent(h: History, idle: multiset<nat>, tasks: map<TaskId, Job>, running: map<TaskId, (Id, bool)>,
                             dispatched: seq<nat>, admitted: nat, spawned: nat, drifted: set<Drift>) {
    && admitted == Admissions(h)
    && spawned == |dispatched|
    && Placed(h, idle, tasks, dispatched)
    && Remembered(running, tasks)
    && GuildsMatch(h, tasks, drifted)
  }

  lemma HistoryAfterAsk(h: History, x: Record)
    requires x.Asked? && Balanced(h)
    ensures Balanced(h + [x])
    ensures forall drifted :: ChargesAccounted(h, drifted) ==> ChargesAccounted(h + [x], drifted)
    ensures Admissions(h + [x]) == Admissions(h) + if x.Admits() then 1 else 0
    ensures Open(h + [x]) == if x.Admits() then Open(h)[Admissions(h) := x.guild] else Open(h)
    ensures InFlight(h + [x]) == InFlight(h) + if x.Admits() then 1 else 0
  {
    Snoc(h, x);
  }

  lemma HistoryAfterFinish(h: History, x: Record)
    requires x.Finished? && Balanced(h) && x.ticket in Open(h)
    ensures Balanced(h + [x]) && Admissions(h + [x]) == Admissions(h) && Open(h + [x]) == Open(h) - {x.ticket}
    ensures forall drifted :: ChargesAccounted(h, drifted) && (x.tokens > 0 ==> Accounted(Open(h), x.ticket, x.guild, drifted))
              ==> ChargesAccounted(h + [x], drifted)
    ensures InFlight(h + [x]) == if InFlight(h) > 0 then InFlight(h) - 1 else 0
  {
    Snoc(h, x);
  }

  lemma AskKeeps(h: History, x: Record, idle: multiset<nat>, tasks: map<TaskId, Job>, running: map<TaskId, (Id, bool)>,
                 dispatched: seq<nat>, admitted: nat, spawned: nat, drifted: set<Drift>)
    requires Consistent(h, idle, tasks, running, dispatched, admitted, spawned, drifted) && x.Asked?
    ensures Consistent(h + [x], if x.Admits() then idle + multiset{admitted} else idle, tasks, running, dispatched,
                       admitted + if x.Admits() then 1 else 0, spawned, drifted)
  {
    Asking(h, x, idle, tasks, dispatched);
    AskingGuilds(h, x, tasks, drifted);
  }

  lemma HeldAppend(waiting: map<Id, seq<Waiting>>, w: Waiting)
    ensures Held(waiting[w.channel := Lookup(waiting, w.channel, []) + [w]]) == Held(waiting) + multiset{w.ticket}
  {
    hide Held, TicketsOf;
    var list := Lookup(waiting, w.channel, []);
    HeldUpdate(waiting, w.channel, list + [w]);
    TicketsSplit(list, w);
    Removing(waiting, w.channel);
    hide *;
    Exchange(multiset(TicketsOf(list)), multiset{w.ticket}, Held(waiting - {w.channel}));
  }

  /** An admission makes one more ticket idle; a refusal moves none. */
  lemma Asking(h: History, x: Record, idle: multiset<nat>, tasks: map<TaskId, Job>, dispatched: seq<nat>)
    requires Placed(h, idle, tasks, dispatched) && x.Asked?
    ensures Admissions(h + [x]) == Admissions(h) + if x.Admits() then 1 else 0
    ensures Placed(h + [x], if x.Admits() then idle + multiset{Admissions(h)} else idle, tasks, dispatched)
  {
    HistoryAfterAsk(h, x);
    OneMoreIdle(Open(h), idle, RunTickets(tasks), dispatched, Admissions(h), x.guild);
    hide Open, Admissions, InFlight, Balanced, RunTickets, Numbered, Once, OpenAre;
  }

  lemma OneMoreIdle(open: map<nat, Option<Id>>, idle: multiset<nat>, running: set<nat>, dispatched: seq<nat>, n: nat,
                    guild: Option<Id>)
    requires Once(idle, dispatched, n) && OpenAre(open, idle, running)
    ensures Once(idle + multiset{n}, dispatched, n + 1)
    ensures OpenAre(open[n := guild], idle + multiset{n}, running)
  {
  }

  lemma AskingGuilds(h: History, x: Record, tasks: map<TaskId, Job>, drifted: set<Drift>)
    requires Balanced(h) && GuildsMatch(h, tasks, drifted) && x.Asked?
    ensures GuildsMatch(h + [x], tasks, drifted)
  {
    HistoryAfterAsk(h, x);
    OpenIsPast(h);
  }

  /** An idle ticket becomes the next task. */
  lemma Dispatching(h: History, idle: multiset<nat>, tasks: map<TaskId, Job>, dispatched: seq<nat>, job: Job)
    requires Placed(h, idle, tasks, dispatched) && job.ticket in idle
    ensures Placed(h, idle - multiset{job.ticket}, tasks[|dispatched| := job], dispatched + [job.ticket])
  {
    hide Once, OpenAre, RunTickets, Open, Admissions, InFlight, Balanced, Numbered;
    NumberNext(tasks, dispatched, job);
    RunsOneMore(tasks, |dispatched|, job);
    OnceMoves(idle, dispatched, Admissions(h), job.ticket);
    OpenMoves(Open(h), idle, RunTickets(tasks), job.ticket);
  }

  lemma NumberNext(tasks: map<TaskId, Job>, dispatched: seq<nat>, job: Job)
    requires Numbered(tasks, dispatched)
    ensures |dispatched| !in tasks && Numbered(tasks[|dispatched| := job], dispatched + [job.ticket])
  {
  }

  lemma OpenMoves(open: map<nat, Option<Id>>, idle: multiset<nat>, running: set<nat>, t: nat)
    requires OpenAre(open, idle, running) && t in idle && idle[t] == 1
    ensures OpenAre(open, idle - multiset{t}, running + {t})
  {
  }

  lemma DispatchingGuild(h: History, tasks: map<TaskId, Job>, k: TaskId, job: Job, drifted: set<Drift>)
    requires GuildsMatch(h, tasks, drifted) && job.ticket in Open(h)
    ensures GuildsMatch(h, tasks[k := job], drifted + DriftOf(h, job.ticket, job.guild))
  {
    MoreDrifts(h, drifted, drifted + DriftOf(h, job.ticket, job.guild));
  }

  /** The drift of an open ticket that is to be charged to `guild`, if it is one. */
  ghost function DriftOf(h: History, t: nat, guild: Option<Id>): set<Drift> {
    if t in Open(h) && Open(h)[t] == guild then {} else {Drift(t, guild)}
  }

  lemma OnceMoves(idle: multiset<nat>, dispatched: seq<nat>, n: nat, t: nat)
    requires Once(idle, dispatched, n) && t in idle
    ensures Once(idle - multiset{t}, dispatched + [t], n) && idle[t] == 1
  {
    assert multiset(dispatched + [t]) == multiset(dispatched) + multiset{t};
  }

  lemma RunsOneMore(tasks: map<TaskId, Job>, k: TaskId, job: Job)
    requires k !in tasks
    ensures RunTickets(tasks[k := job]) == RunTickets(tasks) + {job.ticket} && |tasks[k := job]| == |tasks| + 1
  {
    var after := tasks[k := job];
    assert after.Keys == tasks.Keys + {k};
    forall t | t in RunTickets(tasks) ensures t in RunTickets(after) {
      var j :| j in tasks && tasks[j].ticket == t;
      assert after[j].ticket == t;
    }
    assert after[k].ticket == job.ticket;
  }

  lemma DispatchKeeps(h: History, idle: multiset<nat>, tasks: map<TaskId, Job>, running: map<TaskId, (Id, bool)>,
                      dispatched: seq<nat>, admitted: nat, spawned: nat, drifted: set<Drift>, job: Job)
    requires Consistent(h, idle, tasks, running, dispatched, admitted, spawned, drifted) && job.ticket in idle
    ensures Consistent(h, idle - multiset{job.ticket}, tasks[spawned := job],
                       running[spawned := (job.channel, job.answer.Mention?)], dispatched + [job.ticket],
                       admitted, spawned + 1,
                       drifted + DriftOf(h, job.ticket, job.guild))
  {
    Dispatching(h, idle, tasks, dispatched, job);
    RememberOneMore(running, tasks, spawned, job);
    DispatchingGuild(h, tasks, spawned, job, drifted);
  }

  /** A task ends and closes its admission; the in-flight counter does not saturate. */
  lemma Joining(h: History, x: Record, idle: multiset<nat>, tasks: map<TaskId, Job>, dispatched: seq<nat>, k: TaskId)
    requires Placed(h, idle, tasks, dispatched)
    requires k in tasks && x.Finished? && x.ticket == tasks[k].ticket
    ensures InFlight(h) > 0 && Placed(h + [x], idle, tasks - {k}, dispatched)
    ensures forall drifted :: GuildsMatch(h, tasks, drifted) && (x.tokens == 0 || x.guild == tasks[k].guild)
              ==> GuildsMatch(h + [x], tasks - {k}, drifted)
  {
    var rest := tasks - {k};
    assert x.ticket in RunTickets(tasks);
    HistoryAfterFinish(h, x);
    assert tasks.Keys == rest.Keys + {k};
    assert multiset(dispatched)[x.ticket] >= 1 && idle[x.ticket] == 0;
    RunsOneLess(tasks, idle, dispatched, Admissions(h), k);
  }

  lemma RunsOneLess(tasks: map<TaskId, Job>, idle: multiset<nat>, dispatched: seq<nat>, n: nat, k: TaskId)
    requires Numbered(tasks, dispatched) && Once(idle, dispatched, n) && k in tasks
    ensures RunTickets(tasks - {k}) == RunTickets(tasks) - {tasks[k].ticket}
  {
    var rest, ticket := tasks - {k}, tasks[k].ticket;
    assert multiset(dispatched)[ticket] <= 1;
    forall j | j in rest ensures rest[j].ticket != ticket {
      if rest[j].ticket == ticket {
        if j < k { TwiceCounts(dispatched, j, k); } else { TwiceCounts(dispatched, k, j); }
      }
    }
    forall t | t in RunTickets(tasks) && t != ticket ensures t in RunTickets(rest) {
      var j :| j in tasks && tasks[j].ticket == t;
      assert j in rest && rest[j].ticket == t;
    }
  }

  // ---------------------------------------------------------------- what is sent

  /** A reply as the messages that carry it. */
  function Spoken(channel: Id, answer: Answer, text: string): seq<Outgoing> {
    match answer
    case Mention(to) =>
      var parts := Split.Parts(Text.Trim(text), MAX_MESSAGE_BYTES, MAX_PARTS);
      seq(|parts|, i requires 0 <= i < |parts| =>
        if i == 0 then ReplyTo(channel, parts[i], to) else Send(channel, parts[i]))
    case Ask(invocation) =>
      var parts := Split.Parts(Text.Trim(text), MAX_COMMAND_REPLY, 1);
      if parts == [] then [] else [Respond(invocation, parts[0])]
  }

  /** What a message says; the others say nothing. */
  function TextIn(out: Outgoing): string {
    match out
    case ReplyTo(_, text, _) => text
    case Send(_, text) => text
    case Respond(_, text) => text
    case _ => ""
  }

  function Texts(sent: seq<Outgoing>): seq<string> {
    seq(|sent|, i requires 0 <= i < |sent| => TextIn(sent[i]))
  }

  /** A mention is answered by a reply to it and further messages in its channel, a command by one response to it. */
  ghost predicate Addressed(sent: seq<Outgoing>, channel: Id, answer: Answer) {
    match answer
    case Mention(to) =>
      forall i :: 0 <= i < |sent| ==>
        sent[i] == if i == 0 then ReplyTo(channel, TextIn(sent[i]), to) else Send(channel, TextIn(sent[i]))
    case Ask(invocation) => forall i :: 0 <= i < |sent| ==> sent[i] == Respond(invocation, TextIn(sent[i]))
  }

  /**
    The messages deliver a text to whoever asked: in order they hold all of it, or as much as so many messages can and
    a sign that there is more.  None is empty or longer than 2000 bytes, a text within that is one message as it is, and
    only a blank text is not sent at all.
  */
  ghost predicate Delivers(sent: seq<Outgoing>, channel: Id, answer: Answer, text: string) {
    var most, said := if answer.Mention? then 4 else 1, Text.Trim(text);
    && Addressed(sent, channel, answer)
    && |sent| <= most && Split.Carries(said, Texts(sent), most)
    && (forall i :: 0 <= i < |sent| ==> TextIn(sent[i]) != "" && Text.Bytes(TextIn(sent[i])) <= 2000)
    && (sent == [] <==> said == "")
    && (said != "" && Text.Bytes(said) <= 2000 ==> Texts(sent) == [said])
  }

  /** Whatever is to be said is delivered. */
  lemma SpokenDelivers(channel: Id, answer: Answer, text: string)
    ensures Delivers(Spoken(channel, answer, text), channel, answer, text)
  {
    hide Text.Bytes, Text.Trim, Split.Parts, Split.Carries, Spoken;
    SpokenAre(channel, answer, text);
    Split.SplitKeepsItsPromise(text, 2000, if answer.Mention? then 4 else 1);
  }

  /** The messages are the parts, as they are, each where it belongs. */
  lemma SpokenAre(channel: Id, answer: Answer, text: string)
    ensures var sent, parts := Spoken(channel, answer, text),
                               Split.Parts(Text.Trim(text), 2000, if answer.Mention? then 4 else 1);
            Addressed(sent, channel, answer) && |sent| == |parts| && Texts(sent) == parts &&
            forall i :: 0 <= i < |sent| ==> TextIn(sent[i]) == parts[i]
  {
    hide Text.Bytes, Text.Trim, Split.Parts;
    if answer.Ask? {
      AtMostOne(Text.Trim(text));
    }
  }

  lemma AtMostOne(text: string)
    ensures |Split.Parts(text, 2000, 1)| <= 1
  {
  }

  function Notice(r: Refusal): string {
    match r
    case MemberRate => "You've asked me a lot this hour. Try again later."
    case DailyBudget => "I've used up today's budget. I'll be back tomorrow (UTC)."
    case GuildBudget => "This guild has used today's share of my budget. I'll be back tomorrow (UTC)."
    case Busy => "I'm answering a few others right now. Ask again in a moment."
  }

  /** A refused command is always told so; a refused mention only when the notice is new. */
  function Announced(channel: Id, answer: Answer, verdict: Verdict): seq<Outgoing> {
    match verdict
    case Admitted => (if answer.Mention? then [Typing(channel)] else []) + [FetchHistory(channel)]
    case Refused(why, notify) => if notify || answer.Ask? then Spoken(channel, answer, Notice(why)) else []
  }

  /**
    Who is admitted has the channel's history fetched, and typing shown if the answer will be public; who is refused is
    told why, except for a mention that was told before.
  */
  lemma AnnouncedMeans(channel: Id, answer: Answer, verdict: Verdict)
    ensures var sent := Announced(channel, answer, verdict);
            match verdict
            case Admitted =>
              && sent != [] && sent[|sent| - 1] == FetchHistory(channel)
              && sent[..|sent| - 1] == if answer.Mention? then [Typing(channel)] else []
            case Refused(why, notify) =>
              if answer.Mention? && !notify then sent == []
              else Delivers(sent, channel, answer,
                            match why
                            case MemberRate => "You've asked me a lot this hour. Try again later."
                            case DailyBudget => "I've used up today's budget. I'll be back tomorrow (UTC)."
                            case GuildBudget =>
                              "This guild has used today's share of my budget. I'll be back tomorrow (UTC)."
                            case Busy => "I'm answering a few others right now. Ask again in a moment.")
  {
    hide Delivers, Spoken;
    if verdict.Refused? {
      SpokenDelivers(channel, answer, Notice(verdict.why));
    }
  }

  /** An admitted trigger joins its channel's list, unless the run is over. */
  function Queued(waiting: map<Id, seq<Waiting>>, w: Waiting, verdict: Verdict, flow: Flow): map<Id, seq<Waiting>> {
    if verdict.Refused? || flow == Broken then waiting
    else waiting[w.channel := Lookup(waiting, w.channel, []) + [w]]
  }

  function TokensOf(result: Result<Reply, HarnessError>): nat {
    match result
    case Ok(reply) => reply.tokens
    case Err(Declined(tokens)) => tokens
    case Err(Empty(tokens)) => tokens
    case Err(Unreachable) => 0
  }

  const UNREACHED: string := "I couldn't reach my model just now. Try again in a bit."

  function TextOf(result: Result<Reply, HarnessError>): string {
    match result
    case Ok(reply) => reply.text
    case Err(Declined(_)) => "I can't help with that one."
    case Err(_) => UNREACHED
  }

  // ---------------------------------------------------------------- what tasks are spawned

  /** What a dispatch takes from the agent. */
  datatype Setting = Setting(guildOf: map<Id, Id>, me: string, contextTokens: nat)

  function GuildIn(guildOf: map<Id, Id>, channel: Id): Option<Id> {
    if channel in guildOf then Some(guildOf[channel]) else None
  }

  /** The task's job answers `w` from the given history. */
  ghost predicate Answers(job: Job, w: Waiting, history: seq<Context.Message>, setting: Setting) {
    && job.channel == w.channel && job.answer == w.answer && job.ticket == w.ticket
    && job.guild == (if w.channel in setting.guildOf then Some(setting.guildOf[w.channel]) else None)
    && Context.IsPrompt(job.turns, history, w.trigger, setting.me, setting.contextTokens)
  }

  /** The triggers among `ws` whose channel is now in another guild than they were admitted for. */
  ghost function DriftsOf(h: History, ws: seq<Waiting>, guildOf: map<Id, Id>): set<Drift> {
    if ws == [] then {}
    else
      var w := ws[|ws| - 1];
      DriftsOf(h, ws[..|ws| - 1], guildOf) + DriftOf(h, w.ticket, GuildIn(guildOf, w.channel))
  }

  lemma OneMoreDrift(h: History, ws: seq<Waiting>, i: nat, guildOf: map<Id, Id>)
    requires i < |ws|
    ensures DriftsOf(h, ws[..i + 1], guildOf)
         == DriftsOf(h, ws[..i], guildOf) + DriftOf(h, ws[i].ticket, GuildIn(guildOf, ws[i].channel))
  {
    assert ws[..i + 1][..i] == ws[..i];
  }

  /** From number `n` on, one new task for each of `ws`, in order; nothing else changes. */
  ghost predicate Spawned(before: map<TaskId, Job>, after: map<TaskId, Job>, n: nat, ws: seq<Waiting>,
                          history: seq<Context.Message>, setting: Setting) {
    && (forall k :: k in after <==> k in before || n <= k < n + |ws|)
    && (forall k :: k in before && k < n ==> after[k] == before[k])
    && (forall k :: n <= k < n + |ws| ==> Answers(after[k], ws[k - n], history, setting))
  }

  lemma SpawnedOneMore(before: map<TaskId, Job>, after: map<TaskId, Job>, n: nat, ws: seq<Waiting>, w: Waiting,
                       history: seq<Context.Message>, setting: Setting, job: Job)
    requires Spawned(before, after, n, ws, history, setting) && Answers(job, w, history, setting)
    ensures Spawned(before, after[n + |ws| := job], n, ws + [w], history, setting)
  {
    hide Answers;
  }

  lemma EndsOfList(ws: seq<Waiting>, history: seq<Context.Message>, tasks: map<TaskId, Job>, n: nat, setting: Setting)
    ensures ws[0..] == ws && ws[..|ws|] == ws && multiset(TicketsOf(ws[|ws|..])) == multiset{}
    ensures TicketsOf(ws[..0]) == [] && Spawned(tasks, tasks, n, ws[..0], history, setting)
  {
    assert TicketsOf(ws[|ws|..]) == [];
  }

  /** A waiting trigger that is now too old to wait on. */
  predicate TooOld(w: Waiting, now: nat) {
    Since(now, w.since) >= HISTORY_WAIT
  }

  function Old(ws: seq<Waiting>, now: nat): seq<Waiting> {
    if ws == [] then []
    else if TooOld(ws[|ws| - 1], now) then Old(ws[..|ws| - 1], now) + [ws[|ws| - 1]]
    else Old(ws[..|ws| - 1], now)
  }

  function Fresh(ws: seq<Waiting>, now: nat): seq<Waiting> {
    if ws == [] then []
    else if TooOld(ws[|ws| - 1], now) then Fresh(ws[..|ws| - 1], now)
    else Fresh(ws[..|ws| - 1], now) + [ws[|ws| - 1]]
  }

  lemma {:induction false} PartitionTickets(ws: seq<Waiting>, now: nat)
    ensures multiset(TicketsOf(Old(ws, now))) + multiset(TicketsOf(Fresh(ws, now))) == multiset(TicketsOf(ws))
  {
    if ws != [] {
      var p, w := ws[..|ws| - 1], ws[|ws| - 1];
      PartitionTickets(p, now);
      assert ws == p + [w];
      assert Old(ws, now) == if TooOld(w, now) then Old(p, now) + [w] else Old(p, now);
      assert Fresh(ws, now) == if TooOld(w, now) then Fresh(p, now) else Fresh(p, now) + [w];
      hide *;
      TicketsSplit(p, w);
      TicketsSplit(Old(p, now), w);
      TicketsSplit(Fresh(p, now), w);
      MoveOne(multiset(TicketsOf(Old(p, now))), multiset(TicketsOf(Fresh(p, now))), multiset{w.ticket});
    }
  }

  lemma MoveOne(a: multiset<nat>, b: multiset<nat>, one: multiset<nat>)
    ensures (a + one) + b == (a + b) + one == a + (b + one)
  {
  }

  lemma {:induction false} PartitionByAge(ws: seq<Waiting>, now: nat)
    ensures forall w :: w in Old(ws, now) <==> w in ws && TooOld(w, now)
    ensures forall w :: w in Fresh(ws, now) <==> w in ws && !TooOld(w, now)
  {
    if ws != [] {
      PartitionByAge(ws[..|ws| - 1], now);
      assert ws == ws[..|ws| - 1] + [ws[|ws| - 1]];
    }
  }

  lemma {:induction false} FreshInChannel(c: Id, ws: seq<Waiting>, now: nat)
    requires forall i :: 0 <= i < |ws| ==> ws[i].channel == c
    ensures forall i :: 0 <= i < |Fresh(ws, now)| ==> Fresh(ws, now)[i].channel == c
  {
    if ws != [] {
      FreshInChannel(c, ws[..|ws| - 1], now);
    }
  }

  lemma SweepOne(waiting: map<Id, seq<Waiting>>, c: Id, late: seq<Waiting>, now: nat)
    requires c in waiting
    ensures Held(waiting[c := Fresh(waiting[c], now)]) + multiset(TicketsOf(late + Old(waiting[c], now)))
         == Held(waiting) + multiset(TicketsOf(late))
  {
    var ws := waiting[c];
    hide Held, Old, Fresh, TicketsOf;
    HeldAt(waiting, c);
    HeldUpdate(waiting, c, Fresh(ws, now));
    PartitionTickets(ws, now);
    TicketsJoin(late, Old(ws, now));
    hide *;
    Regroup(multiset(TicketsOf(Old(ws, now))), multiset(TicketsOf(Fresh(ws, now))), Held(waiting - {c}),
            multiset(TicketsOf(late)));
  }

  lemma TicketsJoin(a: seq<Waiting>, b: seq<Waiting>)
    ensures multiset(TicketsOf(a + b)) == multiset(TicketsOf(a)) + multiset(TicketsOf(b))
  {
    assert TicketsOf(a + b) == TicketsOf(a) + TicketsOf(b);
  }

  lemma Regroup(aged: multiset<nat>, young: multiset<nat>, rest: multiset<nat>, late: multiset<nat>)
    ensures (young + rest) + (late + aged) == ((aged + young) + rest) + late
  {
  }

  /** The lists without their late entries, and without the lists this leaves empty. */
  function Kept(waiting: map<Id, seq<Waiting>>, now: nat): map<Id, seq<Waiting>> {
    map c | c in waiting && Fresh(waiting[c], now) != [] :: Fresh(waiting[c], now)
  }

  lemma KeptLists(waiting: map<Id, seq<Waiting>>, now: nat)
    requires ListsOf(waiting)
    ensures ListsOf(Kept(waiting, now))
  {
    forall c | c in Kept(waiting, now) ensures ListOf(c, Kept(waiting, now)[c]) {
      assert ListOf(c, waiting[c]);
      FreshInChannel(c, waiting[c], now);
    }
  }

  /** `w` stands in one of the lists. */
  ghost predicate Listed(waiting: map<Id, seq<Waiting>>, w: Waiting) {
    exists c :: c in waiting && w in waiting[c]
  }

  lemma InFlightField(ledger: Ledger)
    requires ledger.Valid()
    ensures ledger.inFlight == InFlight(ledger.history)
  {
  }

  /** The ledger's record of a task's end. */
  function FinishOf(job: Job, joined: Joined, today: Day): Record {
    if joined.Failed? then Finished(0, None, today, job.ticket)
    else Finished(TokensOf(joined.result), job.guild, today, job.ticket)
  }

  lemma NoTickets(held: multiset<nat>)
    ensures held + multiset(TicketsOf([])) == held
  {
  }

  lemma LateOnes(waiting: map<Id, seq<Waiting>>, c: Id, now: nat)
    requires c in waiting
    ensures forall w :: w in Old(waiting[c], now) ==> TooOld(w, now) && Listed(waiting, w)
  {
    PartitionByAge(waiting[c], now);
  }

  lemma LateIsOld(late: seq<Waiting>, now: nat)
    requires forall w :: w in late ==> TooOld(w, now)
    ensures forall w :: w in late ==> now >= w.since + 4_000_000_000
  {
  }

  lemma KeptIsFresh(waiting: map<Id, seq<Waiting>>, now: nat)
    ensures forall c, w :: c in Kept(waiting, now) && w in Kept(waiting, now)[c] ==> now < w.since + HISTORY_WAIT
  {
    forall c, w | c in Kept(waiting, now) && w in Kept(waiting, now)[c] ensures now < w.since + HISTORY_WAIT {
      PartitionByAge(waiting[c], now);
    }
  }

  lemma JoinKeeps(h: History, x: Record, idle: multiset<nat>, tasks: map<TaskId, Job>,
                  running: map<TaskId, (Id, bool)>, dispatched: seq<nat>, admitted: nat, spawned: nat, drifted: set<Drift>,
                  k: TaskId)
    requires Consistent(h, idle, tasks, running, dispatched, admitted, spawned, drifted)
    requires k in tasks && x.Finished? && x.ticket == tasks[k].ticket && (x.tokens == 0 || x.guild == tasks[k].guild)
    ensures Consistent(h + [x], idle, tasks - {k}, running - {k}, dispatched, admitted, spawned, drifted)
    ensures InFlight(h) > 0
  {
    Joining(h, x, idle, tasks, dispatched, k);
    Snoc(h, x);
  }

  // ---------------------------------------------------------------- the agent

  class Agent {
    const ledger: Ledger
    const me: string
    const contextTokens: nat
    const onlyFrom: Option<string>
    /** Every name a guild knows the agent by. */
    var names: set<string>
    var waiting: map<Id, seq<Waiting>>
    var tasks: map<TaskId, Job>
    var running: map<TaskId, (Id, bool)>
    var guildOf: map<Id, Id>
    /** How many triggers were admitted: the next ticket. */
    var admitted: nat
    /** How many tasks were spawned: the next task's number. */
    var spawned: nat
    /** The ticket of every task ever spawned, by task number. */
    ghost var dispatched: seq<nat>
    /** The tickets that were dispatched under another guild than they were admitted for. */
    ghost var drifted: set<Drift>

    function Settings(): Setting
      reads this`guildOf
    {
      Setting(guildOf, me, contextTokens)
    }

    ghost predicate ValidWith(inHand: multiset<nat>)
      reads this, ledger
    {
      ledger.Valid() &&
      Consistent(ledger.history, Held(waiting) + inHand, tasks, running, dispatched, admitted, spawned, drifted)
    }

    /** Holds whenever the run loop waits for its next event. */
    ghost predicate Valid()
      reads this, ledger
    {
      ListsOf(waiting) && ValidWith(multiset{})
    }

    constructor (caps: Caps, me: string, name: string, contextTokens: nat, onlyFrom: Option<string>)
      ensures Valid() && fresh(ledger) && ledger.caps == caps && ledger.history == []
      ensures waiting == map[] && tasks == map[] && guildOf == map[] && drifted == {}
    {
      ledger := new Ledger(caps);
      this.me, this.contextTokens, this.onlyFrom, names := me, contextTokens, onlyFrom, {name};
      waiting, tasks, running, guildOf := map[], map[], map[], map[];
      dispatched, drifted, admitted, spawned := [], {}, 0, 0;
    }

    method LearnChannels(channels: map<Id, Id>)
      requires Valid()
      modifies this`guildOf
      ensures Valid() && guildOf == old(guildOf) + channels
    {
      hide Consistent, Ledger.Valid, ListsOf, Held;
      guildOf := guildOf + channels;
    }

    /** Asks the ledger; an admission puts a fresh ticket in hand. */
    method Consult(member: Member, guild: Option<Id>, now: nat, today: Day) returns (verdict: Verdict)
      requires Valid() && now >= Clock(ledger.history)
      modifies this`admitted, ledger
      ensures verdict == Decide(ledger.caps, old(ledger.history), member, guild, now, today)
      ensures ledger.history == old(ledger.history) + [Asked(member, guild, now, today, verdict)]
      ensures if verdict.Refused? then Valid() else ListsOf(waiting) && ValidWith(multiset{old(admitted)})
      ensures admitted == old(admitted) + if verdict.Admitted? then 1 else 0
    {
      hide Consistent, Ledger.Valid, ListsOf, Held, Decide, Clock;
      verdict := ledger.Admit(member, guild, now, today);
      ghost var x, idle := Asked(member, guild, now, today, verdict), Held(waiting);
      assert idle + multiset{} == idle;
      AskKeeps(old(ledger.history), x, idle, tasks, running, dispatched, admitted, spawned, drifted);
      if verdict.Admitted? {
        admitted := admitted + 1;
      }
    }

    /** The ticket in hand goes to the end of its channel's list. */
    method Enqueue(w: Waiting)
      requires ListsOf(waiting) && ValidWith(multiset{w.ticket})
      modifies this`waiting
      ensures Valid() && waiting == old(waiting)[w.channel := Lookup(old(waiting), w.channel, []) + [w]]
    {
      HeldAppend(waiting, w);
      ListsAppend(waiting, w);
      waiting := waiting[w.channel := Lookup(waiting, w.channel, []) + [w]];
      assert Held(waiting) + multiset{} == Held(waiting);
    }

    /** Admits a trigger and asks for its channel's history; refusals are told or passed over. */
    method Start(trigger: Context.Message, channel: Id, answer: Answer,
                 now: nat, since: nat, today: Day, gatewayUp: bool) returns (flow: Flow, sent: seq<Outgoing>)
      requires Valid() && now >= Clock(ledger.history)
      modifies this`waiting, this`admitted, ledger
      ensures flow == Continue ==> Valid()
      ensures flow == Broken ==> !gatewayUp
      ensures var h := old(ledger.history);
              var guild := GuildIn(guildOf, channel);
              var verdict := Decide(ledger.caps, h, trigger.author, guild, now, today);
              && ledger.history == h + [Asked(trigger.author, guild, now, today, verdict)]
              && guild == (if channel in guildOf then Some(guildOf[channel]) else None)
              && sent == Announced(channel, answer, verdict)
              && waiting == Queued(old(waiting), Waiting(trigger, channel, answer, since, old(admitted)), verdict, flow)
    {
      var guild := GuildIn(guildOf, channel);
      hide Consistent, Ledger.Valid, Held, Announced, Decide, ListsOf;
      var verdict := Consult(trigger.author, guild, now, today);
      sent := Announced(channel, answer, verdict);
      flow := if sent == [] || gatewayUp then Continue else Broken;
      if verdict.Admitted? && flow == Continue {
        Enqueue(Waiting(trigger, channel, answer, since, admitted - 1));
      }
    }

    /** A message in a channel: asks the ledger if it is for the agent, and does nothing otherwise. */
    method OnMessage(m: Incoming, mentions: Mentions, now: nat, since: nat, today: Day, gatewayUp: bool)
      returns (flow: Flow, sent: seq<Outgoing>)
      requires Valid() && now >= Clock(ledger.history)
      modifies this`waiting, this`admitted, ledger
      ensures flow == Continue ==> Valid()
      ensures var h, verdict := old(ledger.history),
                old(Decide(ledger.caps, ledger.history, m.message.author, GuildIn(guildOf, m.channel), now, today));
              if Triggered(m, me, names, onlyFrom, mentions) then
                && ledger.history == h + [Asked(m.message.author, GuildIn(guildOf, m.channel), now, today, verdict)]
                && sent == Announced(m.channel, Mention(m.message.id), verdict)
                && waiting == Queued(old(waiting), Waiting(m.message, m.channel, Mention(m.message.id), since,
                                                           old(admitted)), verdict, flow)
              else flow == Continue && sent == [] && ledger.history == h && waiting == old(waiting)
      ensures |ledger.history| > |old(ledger.history)| <==>
                && m.message.author != me && !m.authorBot && Text.Trim(m.message.content) != ""
                && (onlyFrom == None || onlyFrom == Some(m.message.author))
                && (m.repliesTo == Some(me) || exists n :: n in names && mentions(m.message.content, n))
    {
      if Triggered(m, me, names, onlyFrom, mentions) {
        hide *;
        flow, sent := Start(m.message, m.channel, Mention(m.message.id), now, since, today, gatewayUp);
      } else {
        flow, sent := Continue, [];
      }
    }

    /** The agent's command: answered in private, at least with a reason. */
    method OnCommand(invocation: Id, trigger: Context.Message, channel: Id, now: nat, since: nat, today: Day,
                     gatewayUp: bool) returns (flow: Flow, sent: seq<Outgoing>)
      requires Valid() && now >= Clock(ledger.history)
      modifies this`waiting, this`admitted, ledger
      ensures flow == Continue ==> Valid()
      ensures var h, verdict := old(ledger.history),
                old(Decide(ledger.caps, ledger.history, trigger.author, GuildIn(guildOf, channel), now, today));
              match TurnedAway(trigger.content, trigger.author, onlyFrom)
              case Some(reason) => sent == [Respond(invocation, reason)] && ledger.history == h && waiting == old(waiting)
              case None =>
                && ledger.history == h + [Asked(trigger.author, GuildIn(guildOf, channel), now, today, verdict)]
                && sent == Announced(channel, Ask(invocation), verdict)
                && waiting == Queued(old(waiting), Waiting(trigger.(content := Text.Trim(trigger.content)), channel,
                                                           Ask(invocation), since, old(admitted)), verdict, flow)
      ensures |ledger.history| > |old(ledger.history)| <==>
                Text.Trim(trigger.content) != "" && (onlyFrom == None || onlyFrom == Some(trigger.author))
    {
      match TurnedAway(trigger.content, trigger.author, onlyFrom) {
        case Some(reason) =>
          sent := [Respond(invocation, reason)];
          flow := if gatewayUp then Continue else Broken;
        case None =>
          hide *;
          var question := trigger.(content := Text.Trim(trigger.content));
          flow, sent := Start(question, channel, Ask(invocation), now, since, today, gatewayUp);
      }
    }

    /** Spawns the task for one trigger in hand. */
    method Dispatch(w: Waiting, history: seq<Context.Message>, ghost inHand: multiset<nat>) returns (ghost job: Job)
      requires ValidWith(inHand) && w.ticket in inHand
      modifies this`tasks, this`running, this`dispatched, this`spawned, this`drifted
      ensures ValidWith(inHand - multiset{w.ticket})
      ensures dispatched == old(dispatched) + [w.ticket] && spawned == old(spawned) + 1
      ensures Answers(job, w, history, Settings()) && tasks == old(tasks)[old(spawned) := job]
      ensures drifted == old(drifted) + DriftOf(ledger.history, w.ticket, GuildIn(guildOf, w.channel))
    {
      hide Consistent, Ledger.Valid, Held, Context.IsPrompt;
      var turns := Context.Build(history, w.trigger, me, contextTokens);
      var task := Job(w.channel, GuildIn(guildOf, w.channel), w.answer, turns, w.ticket);
      job := task;
      ghost var h, idle := ledger.history, Held(waiting) + inHand;
      DispatchKeeps(h, idle, tasks, running, dispatched, admitted, spawned, drifted, job);
      assert idle - multiset{w.ticket} == Held(waiting) + (inHand - multiset{w.ticket});
      tasks := tasks[spawned := task];
      running := running[spawned := (w.channel, w.answer.Mention?)];
      dispatched, spawned := dispatched + [w.ticket], spawned + 1;
      drifted := drifted + DriftOf(h, w.ticket, job.guild);
    }

    /** Spawns the tasks for all triggers in hand. */
    method DispatchAll(ws: seq<Waiting>, history: seq<Context.Message>)
      requires ValidWith(multiset(TicketsOf(ws)))
      modifies this`tasks, this`running, this`dispatched, this`spawned, this`drifted
      ensures ValidWith(multiset{})
      ensures Spawned(old(tasks), tasks, old(spawned), ws, history, Settings())
      ensures dispatched == old(dispatched) + TicketsOf(ws)
      ensures drifted == old(drifted) + DriftsOf(ledger.history, ws, guildOf)
    {
      hide Consistent, Ledger.Valid, Held, Answers, TicketsOf, Spawned, DriftOf, Settings, GuildIn;
      EndsOfList(ws, history, tasks, spawned, Settings());
      for i := 0 to |ws|
        invariant ValidWith(multiset(TicketsOf(ws[i..])))
        invariant Spawned(old(tasks), tasks, old(spawned), ws[..i], history, Settings())
        invariant spawned == old(spawned) + i && dispatched == old(dispatched) + TicketsOf(ws[..i])
        invariant drifted == old(drifted) + DriftsOf(ledger.history, ws[..i], guildOf)
      {
        label Before:
        OneFewerInHand(ws, i);
        OneMoreDrift(ledger.history, ws, i, guildOf);
        ghost var job := Dispatch(ws[i], history, multiset(TicketsOf(ws[i..])));
        SpawnedOneMore(old(tasks), old@Before(tasks), old(spawned), ws[..i], ws[i], history, Settings(), job);
      }
    }

    /** A channel's history has come: everything that waits for it runs. */
    method OnHistory(channel: Id, messages: seq<Context.Message>)
      requires Valid()
      modifies this`waiting, this`tasks, this`running, this`dispatched, this`spawned, this`drifted
      ensures Valid() && waiting == old(waiting) - {channel}
      ensures var ws := Lookup(old(waiting), channel, []);
              && Spawned(old(tasks), tasks, old(spawned), ws, messages, Settings())
              && dispatched == old(dispatched) + TicketsOf(ws)
              && drifted == old(drifted) + DriftsOf(ledger.history, ws, guildOf)
    {
      hide Consistent, Ledger.Valid, Held, TicketsOf, Spawned, DriftsOf, Settings;
      var ws := Lookup(waiting, channel, []);
      Removing(waiting, channel);
      assert Held(waiting) + multiset{} == Held(waiting - {channel}) + multiset(TicketsOf(ws));
      waiting := waiting - {channel};
      DispatchAll(ws, messages);
    }

    /** Takes the late entries out of their lists, list by list in no fixed order. */
    method Sweep(now: nat) returns (late: seq<Waiting>)
      modifies this`waiting
      ensures waiting == Kept(old(waiting), now)
      ensures Held(waiting) + multiset(TicketsOf(late)) == Held(old(waiting))
      ensures forall w :: w in late ==> TooOld(w, now) && Listed(old(waiting), w)
    {
      hide TooOld, Held, TicketsOf, Listed, Old, Fresh;
      late := [];
      var todo := waiting.Keys;
      NoTickets(Held(waiting));
      while todo != {}
        invariant todo <= waiting.Keys == old(waiting).Keys
        invariant forall c :: c in waiting ==>
                    waiting[c] == if c in todo then old(waiting)[c] else Fresh(old(waiting)[c], now)
        invariant Held(waiting) + multiset(TicketsOf(late)) == Held(old(waiting))
        invariant forall w :: w in late ==> TooOld(w, now) && Listed(old(waiting), w)
        decreases todo
      {
        var c :| c in todo;
        SweepOne(waiting, c, late, now);
        LateOnes(old(waiting), c, now);
        late := late + Old(waiting[c], now);
        waiting := waiting[c := Fresh(waiting[c], now)];
        todo := todo - {c};
      }
      HeldRetain(waiting, Kept(old(waiting), now));
      waiting := map c | c in waiting && waiting[c] != [] :: waiting[c];
    }

    /** The clock's tick: what has waited too long runs without history; typing is shown where it is due. */
    method OnTick(now: nat) returns (late: seq<Waiting>, typing: set<Id>)
      requires Valid()
      modifies this`waiting, this`tasks, this`running, this`dispatched, this`spawned, this`drifted
      ensures Valid() && waiting == Kept(old(waiting), now)
      ensures forall c, w :: c in waiting && w in waiting[c] ==> now < w.since + 4_000_000_000
      ensures Held(waiting) + multiset(TicketsOf(late)) == Held(old(waiting))
      ensures forall w :: w in late ==> now >= w.since + 4_000_000_000 && Listed(old(waiting), w)
      ensures Spawned(old(tasks), tasks, old(spawned), late, [], Settings())
      ensures dispatched == old(dispatched) + TicketsOf(late)
      ensures drifted == old(drifted) + DriftsOf(ledger.history, late, guildOf)
      ensures forall c :: c in typing <==>
                || (exists k :: k in tasks && tasks[k].channel == c && tasks[k].answer.Mention?)
                || (c in waiting && exists i :: 0 <= i < |waiting[c]| && waiting[c][i].answer.Mention?)
    {
      hide Consistent, Ledger.Valid, Held, TicketsOf, Spawned, DriftsOf, Settings, TooOld, Listed, ListsOf, Kept;
      KeptLists(waiting, now);
      KeptIsFresh(waiting, now);
      late := Sweep(now);
      LateIsOld(late, now);
      assert Held(old(waiting)) + multiset{} == Held(waiting) + multiset(TicketsOf(late));
      DispatchAll(late, []);
      typing := ShowTyping();
    }

    /** The channels in which someone waits on a public answer. */
    method ShowTyping() returns (typing: set<Id>)
      requires Valid()
      ensures forall c :: c in typing <==>
                || (exists k :: k in tasks && tasks[k].channel == c && tasks[k].answer.Mention?)
                || (c in waiting && exists i :: 0 <= i < |waiting[c]| && waiting[c][i].answer.Mention?)
    {
      hide Placed, GuildsMatch, Ledger.Valid, ListsOf;
      typing := (set k | k in running && running[k].1 :: running[k].0) +
                (set c | c in waiting && exists i :: 0 <= i < |waiting[c]| && waiting[c][i].answer.Mention?);
    }

    /** A task has ended: its admission is closed, its tokens are charged and its answer is delivered. */
    method OnJoined(task: TaskId, joined: Joined, today: Day) returns (sent: seq<Outgoing>)
      requires Valid() && task in tasks
      modifies this`tasks, this`running, ledger
      ensures Valid() && tasks == old(tasks) - {task}
      ensures ledger.inFlight == old(ledger.inFlight) - 1
      ensures var job := old(tasks)[task];
              match joined
              case Failed =>
                ledger.history == old(ledger.history) + [Finished(0, None, today, job.ticket)] && sent == []
              case Done(Ok(Reply(text, tokens))) =>
                && ledger.history == old(ledger.history) + [Finished(tokens, job.guild, today, job.ticket)]
                && Delivers(sent, job.channel, job.answer, text)
              case Done(Err(Declined(tokens))) =>
                && ledger.history == old(ledger.history) + [Finished(tokens, job.guild, today, job.ticket)]
                && Delivers(sent, job.channel, job.answer, "I can't help with that one.")
              case Done(Err(Empty(tokens))) =>
                && ledger.history == old(ledger.history) + [Finished(tokens, job.guild, today, job.ticket)]
                && Delivers(sent, job.channel, job.answer, UNREACHED)
              case Done(Err(Unreachable)) =>
                && ledger.history == old(ledger.history) + [Finished(0, job.guild, today, job.ticket)]
                && Delivers(sent, job.channel, job.answer, UNREACHED)
    {
      hide Placed, GuildsMatch, Ledger.Valid, ListsOf, Held, Spoken, Remembered, Delivers;
      var job := tasks[task];
      ghost var idle := Held(waiting) + multiset{};
      JoinKeeps(ledger.history, FinishOf(job, joined, today), idle, tasks, running, dispatched, admitted, spawned,
                drifted, task);
      InFlightField(ledger);
      running := running - {task};
      tasks := tasks - {task};
      if joined.Failed? {
        ledger.Finish(0, None, today, job.ticket);
        sent := [];
      } else {
        ledger.Finish(TokensOf(joined.result), job.guild, today, job.ticket);
        sent := Spoken(job.channel, job.answer, TextOf(joined.result));
        SpokenDelivers(job.channel, job.answer, TextOf(joined.result));
      }
    }
  }

  // ---------------------------------------------------------------- what holds whenever the loop waits

  /** Conservation: the ledger counts exactly the triggers that wait or run, within its cap. */
  lemma NothingIsLost(a: Agent)
    requires a.Valid()
    ensures a.ledger.inFlight == |Held(a.waiting)| + |a.tasks| <= a.ledger.caps.inFlight
    ensures a.running.Keys == a.tasks.Keys
    ensures forall t: nat :: t < a.admitted ==> Held(a.waiting)[t] + multiset(a.dispatched)[t] == 1
    ensures forall t: nat :: t in Open(a.ledger.history) <==> t in Held(a.waiting) || t in RunTickets(a.tasks)
  {
    assert Held(a.waiting) + multiset{} == Held(a.waiting);
    InFlightIsOpen(a.ledger.caps, a.ledger.history);
    InFlightField(a.ledger);
  }

  /**
    The overspend bound for a running agent, on any date and for any guild: only what strayed to that
    guild on that date adds to it, and nothing strays where no dispatch found a changed guild.
  */
  lemma AgentOverspend(a: Agent, today: Day, who: Option<Id>, most: nat)
    requires a.Valid() && RepliesCost(a.ledger.history, most) && BudgetOf(a.ledger.caps, who).Some?
    ensures var h, ceiling := a.ledger.history, Ceiling(a.ledger.caps, BudgetOf(a.ledger.caps, who).value, most);
            && Charged(h, today, who) + |OpenFor(h, who)| * most <= ceiling + Strayed(h, today, who)
            && ((forall t :: Drift(t, who) !in a.drifted) ==> Strayed(h, today, who) == 0)
  {
    hide Held, Once, OpenAre, Numbered, Remembered, ListsOf, QueuesMatch, CountersMatch, Charged;
    Overspend(a.ledger.caps, a.ledger.history, today, who, most);
    if who.Some? && forall t :: Drift(t, who) !in a.drifted {
      NoDriftNoStray(a.ledger.history, a.drifted, today, who.value);
    }
  }
}
