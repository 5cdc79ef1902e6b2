/**
  The spending ledger: who may ask, and how much may be spent.

  The ledger keeps pruned, constant-size state.  Its reference is the full history of
  calls: every decision is defined here on the history alone, and the class proves
  that its fields always give the same decision.
*/
module Limits {
  import opened Wrappers

  type Member = string
  type Id = nat
  type Day = int

  /** Instants count nanoseconds. */
  const HOUR: nat := 3600_000_000_000
  const U64_MAX: nat := 0xFFFF_FFFF_FFFF_FFFF

  datatype Caps = Caps(perMemberPerHour: nat, dailyTokens: nat, guildDailyTokens: Option<nat>, inFlight: nat)

  datatype Refusal = MemberRate | DailyBudget | GuildBudget | Busy {
    predicate OfBudget() { DailyBudget? || GuildBudget? }
  }

  datatype Verdict = Admitted | Refused(why: Refusal, notify: bool)

  /** One call of the ledger.  `ticket` numbers the admission that a finish closes. */
  datatype Record =
    | Asked(member: Member, guild: Option<Id>, now: nat, today: Day, verdict: Verdict)
    | Finished(tokens: nat, guild: Option<Id>, today: Day, ticket: nat)
  {
    predicate Admits() { Asked? && verdict.Admitted? }

    predicate AdmitsMember(m: Member) { Admits() && member == m }

    predicate Refuses(m: Member, r: Refusal) { Asked? && member == m && verdict.Refused? && verdict.why == r }
  }

  type History = seq<Record>

  function Past(h: History): History
    requires h != []
  {
    h[..|h| - 1]
  }

  function Last(h: History): Record
    requires h != []
  {
    h[|h| - 1]
  }

  lemma Snoc(h: History, x: Record)
    ensures Past(h + [x]) == h && Last(h + [x]) == x && h + [x] != []
  {
  }

  // ---------------------------------------------------------------- reference quantities

  function SatAdd(a: nat, b: nat): nat {
    if a + b <= U64_MAX then a + b else U64_MAX
  }

  function Cost(x: Record, who: Option<Id>): nat {
    if x.Finished? && (who.None? || x.guild == who) then x.tokens else 0
  }

  /** Tokens charged since the date last became `today`: to guild `who`, or to anyone for `None`. */
  function Charged(h: History, today: Day, who: Option<Id>): nat {
    if h == [] || Last(h).today != today then 0
    else SatAdd(Charged(Past(h), today, who), Cost(Last(h), who))
  }

  function Since(now: nat, t: nat): nat {
    if now >= t then now - t else 0
  }

  /** When member `m` was let through, over all time. */
  function Times(h: History, m: Member): seq<nat> {
    if h == [] then []
    else if Last(h).AdmitsMember(m) then Times(Past(h), m) + [Last(h).now]
    else Times(Past(h), m)
  }

  function Young(ts: seq<nat>, now: nat): nat {
    if ts == [] then 0
    else Young(ts[..|ts| - 1], now) + (if Since(now, ts[|ts| - 1]) < HOUR then 1 else 0)
  }

  function InFlight(h: History): nat {
    if h == [] then 0
    else if Last(h).Admits() then InFlight(Past(h)) + 1
    else if Last(h).Finished? && InFlight(Past(h)) > 0 then InFlight(Past(h)) - 1
    else InFlight(Past(h))
  }

  /** Member `m` has been told of refusal `r` and nothing has cleared that since. */
  predicate Told(h: History, m: Member, r: Refusal, today: Day) {
    h != [] && (r.OfBudget() ==> Last(h).today == today) && !Last(h).AdmitsMember(m) &&
    (Last(h).Refuses(m, r) || Told(Past(h), m, r, today))
  }

  function Refuse(caps: Caps, h: History, m: Member, guild: Option<Id>, now: nat, today: Day): Option<Refusal> {
    if Charged(h, today, None) >= caps.dailyTokens then Some(DailyBudget)
    else if guild.Some? && caps.guildDailyTokens.Some? && Charged(h, today, guild) >= caps.guildDailyTokens.value
    then Some(GuildBudget)
    else if Young(Times(h, m), now) >= caps.perMemberPerHour then Some(MemberRate)
    else if InFlight(h) >= caps.inFlight then Some(Busy)
    else None
  }

  function Decide(caps: Caps, h: History, m: Member, guild: Option<Id>, now: nat, today: Day): Verdict {
    match Refuse(caps, h, m, guild, now, today)
    case None => Admitted
    case Some(r) => Refused(r, !Told(h, m, r, today))
  }

  /** The latest instant at which anyone asked. */
  function Clock(h: History): nat {
    if h == [] then 0 else if Last(h).Asked? then Last(h).now else Clock(Past(h))
  }

  /** The histories of a ledger under a monotone clock: every verdict follows from what came before. */
  ghost predicate Legal(caps: Caps, h: History) {
    h != [] ==>
      var x := Last(h);
      Legal(caps, Past(h)) &&
      (x.Asked? ==> x.now >= Clock(Past(h)) &&
                    x.verdict == Decide(caps, Past(h), x.member, x.guild, x.now, x.today))
  }

  // ---------------------------------------------------------------- why the pruned state is enough

  /** `q` is what is left of `full` after dropping a prefix of admissions at least an hour old. */
  ghost predicate Tracks(q: seq<nat>, full: seq<nat>, now: nat) {
    |q| <= |full| && q == full[|full| - |q|..] &&
    forall i :: 0 <= i < |full| - |q| ==> Since(now, full[i]) >= HOUR
  }

  ghost predicate InOrder(ts: seq<nat>) {
    forall i, j :: 0 <= i <= j < |ts| ==> ts[i] <= ts[j]
  }

  lemma {:induction false} AdmissionsInOrder(caps: Caps, h: History, m: Member)
    requires Legal(caps, h)
    ensures InOrder(Times(h, m)) && forall i :: 0 <= i < |Times(h, m)| ==> Times(h, m)[i] <= Clock(h)
  {
    if h != [] {
      AdmissionsInOrder(caps, Past(h), m);
    }
  }

  lemma {:induction false} YoungSplit(ts: seq<nat>, k: nat, now: nat)
    requires k <= |ts|
    ensures Young(ts, now) == Young(ts[..k], now) + Young(ts[k..], now)
  {
    if k == |ts| {
      assert ts[..k] == ts && ts[k..] == [];
    } else {
      YoungSplit(ts[..|ts| - 1], k, now);
      assert ts[..|ts| - 1][..k] == ts[..k];
      assert ts[..|ts| - 1][k..] == ts[k..][..|ts[k..]| - 1];
    }
  }

  lemma {:induction false} YoungExtremes(ts: seq<nat>, now: nat)
    ensures (forall i :: 0 <= i < |ts| ==> Since(now, ts[i]) >= HOUR) ==> Young(ts, now) == 0
    ensures (forall i :: 0 <= i < |ts| ==> Since(now, ts[i]) < HOUR) ==> Young(ts, now) == |ts|
  {
    if ts != [] {
      YoungExtremes(ts[..|ts| - 1], now);
    }
  }

  lemma PrunedCount(q: seq<nat>, full: seq<nat>, now: nat)
    requires Tracks(q, full, now) && InOrder(full)
    requires q != [] ==> Since(now, q[0]) < HOUR
    ensures Young(full, now) == |q|
  {
    var k := |full| - |q|;
    YoungSplit(full, k, now);
    assert full[k..] == q;
    hide Young;
    forall i | 0 <= i < k ensures Since(now, full[..k][i]) >= HOUR {
      assert full[..k][i] == full[i];
    }
    YoungExtremes(full[..k], now);
    forall i | 0 <= i < |q| ensures Since(now, q[i]) < HOUR {
      assert q[i] == full[k + i] && q[0] == full[k] && full[k] <= full[k + i];
    }
    YoungExtremes(q, now);
  }

  lemma {:induction false} ToldAnyDay(h: History, m: Member, r: Refusal, d: Day, e: Day)
    requires !r.OfBudget()
    ensures Told(h, m, r, d) == Told(h, m, r, e)
  {
    if h != [] {
      ToldAnyDay(Past(h), m, r, d, e);
    }
  }

  function Lookup<K, V>(m: map<K, V>, k: K, default: V): V {
    if k in m then m[k] else default
  }

  /** The deques hold every admission not yet known to be an hour old. */
  ghost predicate QueuesMatch(h: History, asked: map<Member, seq<nat>>) {
    forall m :: Tracks(Lookup(asked, m, []), Times(h, m), Clock(h))
  }

  /** The counters are those of the history, seen on date `today`. */
  ghost predicate CountersMatch(h: History, today: Day, spent: nat, guildSpent: map<Id, nat>,
                                noticed: set<(Member, Refusal)>) {
    && spent == Charged(h, today, None)
    && (forall g :: Lookup(guildSpent, g, 0) == Charged(h, today, Some(g)))
    && (forall m, r :: (m, r) in noticed <==> Told(h, m, r, today))
  }

  lemma TracksLater(q: seq<nat>, full: seq<nat>, now: nat, later: nat)
    requires Tracks(q, full, now) && now <= later
    ensures Tracks(q, full, later)
  {
  }

  lemma TracksAppend(q: seq<nat>, full: seq<nat>, now: nat)
    requires Tracks(q, full, now)
    ensures Tracks(q + [now], full + [now], now)
  {
    assert (full + [now])[|full| - |q|..] == full[|full| - |q|..] + [now];
  }

  lemma TracksPop(q: seq<nat>, full: seq<nat>, now: nat)
    requires Tracks(q, full, now) && q != [] && Since(now, q[0]) >= HOUR
    ensures Tracks(q[1..], full, now)
  {
    assert full[|full| - |q|] == q[0];
    assert full[|full| - |q| + 1..] == q[1..];
  }

  lemma LegalAfterAsk(caps: Caps, h: History, x: Record)
    requires Legal(caps, h) && x.Asked? && x.now >= Clock(h)
    requires x.verdict == Decide(caps, h, x.member, x.guild, x.now, x.today)
    ensures Legal(caps, h + [x]) && InFlight(h + [x]) == InFlight(h) + if x.Admits() then 1 else 0
  {
    Snoc(h, x);
  }

  lemma QueuesAfter(h: History, asked: map<Member, seq<nat>>, x: Record, times: seq<nat>)
    requires QueuesMatch(h, asked) && x.Asked? && x.now >= Clock(h)
    requires Tracks(times, Times(h, x.member), x.now)
    ensures QueuesMatch(h + [x], asked[x.member := if x.Admits() then times + [x.now] else times])
  {
    Snoc(h, x);
    assert Clock(h + [x]) == x.now;
    hide Tracks, Times, Clock;
    forall m ensures Tracks(Lookup(asked[x.member := if x.Admits() then times + [x.now] else times], m, []),
                            Times(h + [x], m), x.now)
    {
      QueueAfter(h, Lookup(asked, m, []), x, times, m);
    }
  }

  /** One member's deque, `q` before, when `x` is asked and prunes the asker's to `times`. */
  lemma QueueAfter(h: History, q: seq<nat>, x: Record, times: seq<nat>, m: Member)
    requires Tracks(q, Times(h, m), Clock(h)) && x.Asked? && x.now >= Clock(h)
    requires Tracks(times, Times(h, x.member), x.now)
    ensures Tracks(if m != x.member then q else if x.Admits() then times + [x.now] else times, Times(h + [x], m), x.now)
  {
    TimesGrow(h, x, m);
    hide *;
    if m == x.member {
      TracksAppend(times, Times(h, m), x.now);
    } else {
      TracksLater(q, Times(h, m), Clock(h), x.now);
    }
  }

  lemma TimesGrow(h: History, x: Record, m: Member)
    requires x.Asked?
    ensures Times(h + [x], m) == if x.member == m && x.Admits() then Times(h, m) + [x.now] else Times(h, m)
  {
    Snoc(h, x);
  }

  lemma QueuesAfterFinish(h: History, asked: map<Member, seq<nat>>, x: Record)
    requires QueuesMatch(h, asked) && x.Finished?
    ensures QueuesMatch(h + [x], asked)
  {
    Snoc(h, x);
    forall m ensures Tracks(Lookup(asked, m, []), Times(h + [x], m), Clock(h + [x])) {
      assert Tracks(Lookup(asked, m, []), Times(h, m), Clock(h));
    }
  }

  lemma CountersAfterAsk(h: History, spent: nat, guildSpent: map<Id, nat>, noticed: set<(Member, Refusal)>,
                         x: Record, after: set<(Member, Refusal)>)
    requires x.Asked? && CountersMatch(h, x.today, spent, guildSpent, noticed)
    requires after == if x.Admits() then set y | y in noticed && y.0 != x.member
                      else noticed + {(x.member, x.verdict.why)}
    ensures CountersMatch(h + [x], x.today, spent, guildSpent, after)
  {
    Snoc(h, x);
    ChargedBounded(h, x.today, None);
    forall g ensures Lookup(guildSpent, g, 0) == Charged(h + [x], x.today, Some(g)) {
      assert Lookup(guildSpent, g, 0) == Charged(h, x.today, Some(g));
      ChargedBounded(h, x.today, Some(g));
    }
    forall m, r ensures (m, r) in after <==> Told(h + [x], m, r, x.today) {
      assert (m, r) in noticed <==> Told(h, m, r, x.today);
    }
  }

  lemma CountersAfterFinish(h: History, spent: nat, guildSpent: map<Id, nat>, noticed: set<(Member, Refusal)>, x: Record)
    requires x.Finished? && CountersMatch(h, x.today, spent, guildSpent, noticed)
    ensures CountersMatch(h + [x], x.today, SatAdd(spent, x.tokens),
                          if x.guild.None? then guildSpent else
                            guildSpent[x.guild.value := SatAdd(Lookup(guildSpent, x.guild.value, 0), x.tokens)],
                          noticed)
  {
    Snoc(h, x);
    var after := if x.guild.None? then guildSpent else
      guildSpent[x.guild.value := SatAdd(Lookup(guildSpent, x.guild.value, 0), x.tokens)];
    forall g ensures Lookup(after, g, 0) == Charged(h + [x], x.today, Some(g)) {
      assert Lookup(guildSpent, g, 0) == Charged(h, x.today, Some(g));
      ChargedBounded(h, x.today, Some(g));
    }
    forall m, r ensures (m, r) in noticed <==> Told(h + [x], m, r, x.today) {
      assert (m, r) in noticed <==> Told(h, m, r, x.today);
    }
  }

  lemma ChargedBounded(h: History, today: Day, who: Option<Id>)
    ensures Charged(h, today, who) <= U64_MAX
  {
  }

  // ---------------------------------------------------------------- the ledger

  class Ledger {
    const caps: Caps
    var asked: map<Member, seq<nat>>
    var noticed: set<(Member, Refusal)>
    var day: Option<Day>
    var spent: nat
    var guildSpent: map<Id, nat>
    var inFlight: nat
    ghost var history: History

    ghost predicate CountersOn(today: Day)
      reads this
    {
      CountersMatch(history, today, spent, guildSpent, noticed)
    }

    ghost predicate DayValid()
      reads this
    {
      if history == [] then day == None && spent == 0 && guildSpent == map[] && noticed == {}
      else day == Some(Last(history).today) && CountersOn(Last(history).today)
    }

    ghost predicate Valid()
      reads this
    {
      Legal(caps, history) && QueuesMatch(history, asked) && DayValid() && inFlight == InFlight(history)
    }

    constructor (caps: Caps)
      ensures Valid() && this.caps == caps && history == []
    {
      this.caps := caps;
      asked, noticed, day := map[], {}, None;
      spent, guildSpent, inFlight := 0, map[], 0;
      history := [];
    }

    /** Starts the day's counters over when the date has changed. */
    method Roll(today: Day)
      requires DayValid()
      modifies this`day, this`spent, this`guildSpent, this`noticed
      ensures day == Some(today) && CountersOn(today)
    {
      if day != Some(today) {
        day, spent, guildSpent := Some(today), 0, map[];
        noticed := set x | x in noticed && !x.1.OfBudget();
        if history != [] {
          forall m, r ensures (m, r) in noticed <==> Told(history, m, r, today) {
            if !r.OfBudget() {
              ToldAnyDay(history, m, r, Last(history).today, today);
            }
          }
        }
      }
    }

    method Admit(member: Member, guild: Option<Id>, now: nat, today: Day) returns (verdict: Verdict)
      requires Valid() && now >= Clock(history)
      modifies this
      ensures Valid()
      ensures verdict == Decide(caps, old(history), member, guild, now, today)
      ensures history == old(history) + [Asked(member, guild, now, today, verdict)]
    {
      Roll(today);
      var times := Prune(member, now);
      var refusal := Weigh(member, guild, |times|, now, today);
      hide *;
      verdict := Enter(member, guild, now, today, times, refusal);
    }

    /** Writes the decision down; `times` is the member's pruned deque. */
    method Enter(member: Member, guild: Option<Id>, now: nat, today: Day, times: seq<nat>, refusal: Option<Refusal>)
      returns (verdict: Verdict)
      requires Legal(caps, history) && QueuesMatch(history, asked) && day == Some(today) && CountersOn(today)
      requires inFlight == InFlight(history) && now >= Clock(history) && Tracks(times, Times(history, member), now)
      requires refusal == Refuse(caps, history, member, guild, now, today)
      modifies this`asked, this`noticed, this`inFlight, this`history
      ensures Valid()
      ensures verdict == Decide(caps, old(history), member, guild, now, today)
      ensures history == old(history) + [Asked(member, guild, now, today, verdict)]
    {
      hide Tracks, Times, Charged, Told, CountersMatch, QueuesMatch, Refuse, Clock, Legal, InFlight;
      match refusal {
        case Some(r) =>
          assert (member, r) in noticed <==> Told(history, member, r, today) by { NoticedIsTold(member, r, today); }
          verdict := Refused(r, (member, r) !in noticed);
          noticed := noticed + {(member, r)};
          asked := asked[member := times];
        case None =>
          verdict := Admitted;
          asked := asked[member := times + [now]];
          inFlight := inFlight + 1;
          noticed := set x | x in noticed && x.0 != member;
      }
      ghost var x := Asked(member, guild, now, today, verdict);
      Snoc(history, x);
      LegalAfterAsk(caps, history, x);
      CountersAfterAsk(history, spent, guildSpent, old(noticed), x, noticed);
      QueuesAfter(history, old(asked), x, times);
      history := history + [x];
    }

    lemma NoticedIsTold(m: Member, r: Refusal, today: Day)
      requires CountersOn(today)
      ensures (m, r) in noticed <==> Told(history, m, r, today)
    {
    }

    /** The limits in the order in which they are tried. */
    method Weigh(member: Member, guild: Option<Id>, recent: nat, ghost now: nat, today: Day)
      returns (refusal: Option<Refusal>)
      requires CountersOn(today) && inFlight == InFlight(history)
      requires recent == Young(Times(history, member), now)
      ensures refusal == Refuse(caps, history, member, guild, now, today)
    {
      var guildTotal := if guild.Some? then Lookup(guildSpent, guild.value, 0) else 0;
      refusal :=
        if spent >= caps.dailyTokens then Some(DailyBudget)
        else if guild.Some? && caps.guildDailyTokens.Some? && guildTotal >= caps.guildDailyTokens.value
        then Some(GuildBudget)
        else if recent >= caps.perMemberPerHour then Some(MemberRate)
        else if inFlight >= caps.inFlight then Some(Busy)
        else None;
    }

    /** Drops what is an hour old from the front of the member's deque. */
    method Prune(member: Member, now: nat) returns (times: seq<nat>)
      requires Legal(caps, history) && QueuesMatch(history, asked) && now >= Clock(history)
      ensures Tracks(times, Times(history, member), now)
      ensures |times| == Young(Times(history, member), now)
    {
      times := Lookup(asked, member, []);
      ghost var full := Times(history, member);
      AdmissionsInOrder(caps, history, member);
      TracksLater(times, full, Clock(history), now);
      while |times| > 0 && Since(now, times[0]) >= HOUR
        invariant Tracks(times, full, now)
      {
        TracksPop(times, full, now);
        times := times[1..];
      }
      PrunedCount(times, full, now);
    }

    /** `ticket` says which admission ends here; the counters do not depend on it. */
    method Finish(tokens: nat, guild: Option<Id>, today: Day, ghost ticket: nat)
      requires Valid()
      modifies this
      ensures Valid()
      ensures history == old(history) + [Finished(tokens, guild, today, ticket)]
      ensures inFlight == if old(inFlight) > 0 then old(inFlight) - 1 else 0
    {
      inFlight := if inFlight > 0 then inFlight - 1 else 0;
      Roll(today);
      ghost var x := Finished(tokens, guild, today, ticket);
      Snoc(history, x);
      CountersAfterFinish(history, spent, guildSpent, noticed, x);
      QueuesAfterFinish(history, asked, x);
      spent := SatAdd(spent, tokens);
      if guild.Some? {
        guildSpent := guildSpent[guild.value := SatAdd(Lookup(guildSpent, guild.value, 0), tokens)];
      }
      history := history + [x];
    }
  }
}
