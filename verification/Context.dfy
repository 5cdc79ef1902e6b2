/** What the model is shown: the newest history that fits a budget, as alternating turns. */
module Context {
  import opened Text

  datatype Message = Message(id: nat, author: string, username: string, content: string, createdAt: int)

  datatype Role = User | Assistant

  datatype Turn = Turn(role: Role, text: string)

  function Estimate(text: string): nat {
    Bytes(text) / 4 + 4
  }

  function AsTurn(m: Message, me: string): Turn {
    if m.author == me then Turn(Assistant, Trim(m.content)) else Turn(User, m.username + ": " + Trim(m.content))
  }

  function AsTurns(ms: seq<Message>, me: string): seq<Turn> {
    seq(|ms|, i requires 0 <= i < |ms| => AsTurn(ms[i], me))
  }

  predicate Eligible(m: Message, trigger: Message) {
    m.id != trigger.id && m.createdAt <= trigger.createdAt && Trim(m.content) != ""
  }

  function Picked(history: seq<Message>, trigger: Message): seq<Message> {
    if history == [] then []
    else if Eligible(history[0], trigger) then [history[0]] + Picked(history[1..], trigger)
    else Picked(history[1..], trigger)
  }

  // ---------------------------------------------------------------- time order

  predicate InTimeOrder(ms: seq<Message>) {
    forall i, j :: 0 <= i < j < |ms| ==> ms[i].createdAt <= ms[j].createdAt
  }

  function Insert(m: Message, ms: seq<Message>): seq<Message> {
    if ms == [] || m.createdAt <= ms[0].createdAt then [m] + ms else [ms[0]] + Insert(m, ms[1..])
  }

  /** The library's stable sort: a message goes before later-listed ones of the same instant. */
  function SortByTime(ms: seq<Message>): seq<Message> {
    if ms == [] then [] else Insert(ms[0], SortByTime(ms[1..]))
  }

  lemma {:induction false} InsertIsPermutation(m: Message, ms: seq<Message>)
    ensures multiset(Insert(m, ms)) == multiset{m} + multiset(ms)
  {
    if ms != [] && m.createdAt > ms[0].createdAt {
      InsertIsPermutation(m, ms[1..]);
      assert ms == [ms[0]] + ms[1..];
    }
  }

  lemma {:induction false} InsertIsSorted(m: Message, ms: seq<Message>)
    requires InTimeOrder(ms)
    ensures InTimeOrder(Insert(m, ms))
    ensures Insert(m, ms)[0].createdAt == if ms == [] || m.createdAt <= ms[0].createdAt then m.createdAt else ms[0].createdAt
  {
    if ms != [] && m.createdAt > ms[0].createdAt {
      InsertIsSorted(m, ms[1..]);
      EarlierFirst(ms[0], Insert(m, ms[1..]));
    }
  }

  lemma EarlierFirst(m: Message, ms: seq<Message>)
    requires InTimeOrder(ms) && (ms != [] ==> m.createdAt <= ms[0].createdAt)
    ensures InTimeOrder([m] + ms)
  {
  }

  lemma {:induction false} SortIsSorted(ms: seq<Message>)
    ensures InTimeOrder(SortByTime(ms)) && multiset(SortByTime(ms)) == multiset(ms)
  {
    if ms != [] {
      SortIsSorted(ms[1..]);
      InsertIsSorted(ms[0], SortByTime(ms[1..]));
      InsertIsPermutation(ms[0], SortByTime(ms[1..]));
      assert ms == [ms[0]] + ms[1..];
    }
  }

  /** Listed order survives among messages of the same instant. */
  lemma {:induction false} SortIsStable(ms: seq<Message>, t: int)
    ensures At(SortByTime(ms), t) == At(ms, t)
  {
    if ms != [] {
      SortIsStable(ms[1..], t);
      InsertIsStable(ms[0], SortByTime(ms[1..]), t);
    }
  }

  function At(ms: seq<Message>, t: int): seq<Message> {
    if ms == [] then [] else if ms[0].createdAt == t then [ms[0]] + At(ms[1..], t) else At(ms[1..], t)
  }

  lemma {:induction false} InsertIsStable(m: Message, ms: seq<Message>, t: int)
    ensures At(Insert(m, ms), t) == At([m] + ms, t)
  {
    assert ([m] + ms)[1..] == ms;
    if ms != [] && m.createdAt > ms[0].createdAt {
      InsertIsStable(m, ms[1..], t);
      assert ([m] + ms[1..])[1..] == ms[1..];
      assert ([ms[0]] + Insert(m, ms[1..]))[1..] == Insert(m, ms[1..]);
    }
  }

  ghost predicate DistinctTimes(ms: seq<Message>) {
    forall t :: |At(ms, t)| <= 1
  }

  /** Time-ordered lists that agree at every instant are the same list. */
  lemma {:induction false} OrderIsCanonical(a: seq<Message>, b: seq<Message>)
    requires InTimeOrder(a) && InTimeOrder(b)
    requires forall t :: At(a, t) == At(b, t)
    ensures a == b
  {
    HeadIsThere(a);
    HeadIsThere(b);
    if a != [] {
      assert At(b, a[0].createdAt) == At(a, a[0].createdAt) != [];
      NotBefore(b, a[0].createdAt);
      assert At(a, b[0].createdAt) == At(b, b[0].createdAt) != [];
      NotBefore(a, b[0].createdAt);
      assert a[0] == At(a, a[0].createdAt)[0] == b[0];
      forall t ensures At(a[1..], t) == At(b[1..], t) {
        assert At(a, t) == At(b, t);
        assert a[0].createdAt == t ==> At(a, t)[1..] == At(a[1..], t) && At(b, t)[1..] == At(b[1..], t);
      }
      OrderIsCanonical(a[1..], b[1..]);
      assert a == [a[0]] + a[1..] && b == [b[0]] + b[1..];
    }
  }

  lemma HeadIsThere(ms: seq<Message>)
    ensures ms != [] ==> At(ms, ms[0].createdAt) != []
  {
  }

  lemma {:induction false} NotBefore(ms: seq<Message>, t: int)
    requires InTimeOrder(ms) && At(ms, t) != []
    ensures ms != [] && ms[0].createdAt <= t
  {
    if ms[0].createdAt != t {
      NotBefore(ms[1..], t);
    }
  }

  lemma {:induction false} PickedCounts(history: seq<Message>, trigger: Message, m: Message)
    ensures multiset(Picked(history, trigger))[m] == if Eligible(m, trigger) then multiset(history)[m] else 0
  {
    if history != [] {
      PickedCounts(history[1..], trigger, m);
      assert history == [history[0]] + history[1..];
    }
  }

  lemma {:induction false} AtCounts(ms: seq<Message>, t: int, m: Message)
    ensures multiset(At(ms, t))[m] == if m.createdAt == t then multiset(ms)[m] else 0
  {
    if ms != [] {
      AtCounts(ms[1..], t, m);
      assert ms == [ms[0]] + ms[1..];
    }
  }

  lemma AtMostOneIsSame(a: seq<Message>, b: seq<Message>)
    requires |a| <= 1 && multiset(a) == multiset(b)
    ensures a == b
  {
    assert |multiset(a)| == |multiset(b)|;
    if a != [] {
      assert a[0] in multiset(b);
    }
  }

  /** Any reordering of a history with distinct timestamps is sorted to the same list. */
  lemma SortForgetsOrder(h1: seq<Message>, h2: seq<Message>, trigger: Message)
    requires multiset(h1) == multiset(h2) && DistinctTimes(Picked(h1, trigger))
    ensures SortByTime(Picked(h1, trigger)) == SortByTime(Picked(h2, trigger))
  {
    var p1, p2 := Picked(h1, trigger), Picked(h2, trigger);
    SortIsSorted(p1);
    SortIsSorted(p2);
    forall t ensures At(SortByTime(p1), t) == At(SortByTime(p2), t) {
      SortIsStable(p1, t);
      SortIsStable(p2, t);
      forall m ensures multiset(At(p1, t))[m] == multiset(At(p2, t))[m] {
        AtCounts(p1, t, m);
        AtCounts(p2, t, m);
        PickedCounts(h1, trigger, m);
        PickedCounts(h2, trigger, m);
      }
      assert multiset(At(p1, t)) == multiset(At(p2, t));
      AtMostOneIsSame(At(p1, t), At(p2, t));
    }
    OrderIsCanonical(SortByTime(p1), SortByTime(p2));
  }

  // ---------------------------------------------------------------- the budget

  function Cost(turns: seq<Turn>): nat {
    if turns == [] then 0 else Estimate(turns[0].text) + Cost(turns[1..])
  }

  lemma {:induction false} CostAppend(a: seq<Turn>, b: seq<Turn>)
    ensures Cost(a + b) == Cost(a) + Cost(b)
  {
    if a == [] {
      assert a + b == b;
    } else {
      CostAppend(a[1..], b);
      assert (a + b)[1..] == a[1..] + b;
    }
  }

  /** The last `n` turns. */
  function Newest(turns: seq<Turn>, n: nat): seq<Turn>
    requires n <= |turns|
  {
    turns[|turns| - n..]
  }

  /** `kept` is the longest suffix of `turns` that fits the budget beside the last turn. */
  ghost predicate LongestSuffix(kept: seq<Turn>, turns: seq<Turn>, last: Turn, budget: nat) {
    && |kept| <= |turns| && kept == Newest(turns, |kept|)
    && (kept != [] ==> Cost(kept) + Estimate(last.text) <= budget)
    && forall n :: |kept| < n <= |turns| ==> Cost(Newest(turns, n)) + Estimate(last.text) > budget
  }

  lemma NewestCost(turns: seq<Turn>, n: nat)
    requires n < |turns|
    ensures Newest(turns, n + 1) == [turns[|turns| - n - 1]] + Newest(turns, n)
    ensures Cost(Newest(turns, n + 1)) == Estimate(turns[|turns| - n - 1].text) + Cost(Newest(turns, n))
  {
    assert Newest(turns, n + 1)[1..] == Newest(turns, n);
  }

  lemma {:induction false} LongerCostsMore(turns: seq<Turn>, n: nat, k: nat)
    requires n <= k <= |turns|
    ensures Cost(Newest(turns, n)) <= Cost(Newest(turns, k))
    decreases k
  {
    if n < k {
      LongerCostsMore(turns, n, k - 1);
      NewestCost(turns, k - 1);
    }
  }

  method KeepNewest(turns: seq<Turn>, last: Turn, budget: nat) returns (kept: seq<Turn>)
    ensures LongestSuffix(kept, turns, last, budget)
  {
    var spent := Estimate(last.text);
    kept := [];
    var i := |turns|;
    while i > 0
      invariant 0 <= i && i + |kept| == |turns| && kept == Newest(turns, |kept|)
      invariant spent == Estimate(last.text) + Cost(kept)
      invariant kept != [] ==> spent <= budget
    {
      var turn := turns[i - 1];
      spent := spent + Estimate(turn.text);
      NewestCost(turns, |kept|);
      if spent > budget {
        forall n | |kept| < n <= |turns| ensures Cost(Newest(turns, n)) + Estimate(last.text) > budget {
          LongerCostsMore(turns, |kept| + 1, n);
        }
        return;
      }
      kept := [turn] + kept;
      i := i - 1;
    }
  }

  lemma LongestIsUnique(a: seq<Turn>, b: seq<Turn>, turns: seq<Turn>, last: Turn, budget: nat)
    requires LongestSuffix(a, turns, last, budget) && LongestSuffix(b, turns, last, budget)
    ensures a == b
  {
  }

  // ---------------------------------------------------------------- alternating turns

  function DropAssistants(turns: seq<Turn>): seq<Turn> {
    if turns != [] && turns[0].role == Assistant then DropAssistants(turns[1..]) else turns
  }

  function Join(turns: seq<Turn>): string {
    if turns == [] then "" else if |turns| == 1 then turns[0].text
    else Join(turns[..|turns| - 1]) + "\n" + turns[|turns| - 1].text
  }

  function Flatten(runs: seq<seq<Turn>>): seq<Turn> {
    if runs == [] then [] else Flatten(runs[..|runs| - 1]) + runs[|runs| - 1]
  }

  predicate IsRun(run: seq<Turn>) {
    run != [] && forall i :: 0 <= i < |run| ==> run[i].role == run[0].role
  }

  /** `runs` cuts `turns` into maximal stretches of one role. */
  ghost predicate AreRuns(runs: seq<seq<Turn>>, turns: seq<Turn>) {
    && Flatten(runs) == turns
    && (forall i :: 0 <= i < |runs| ==> IsRun(runs[i]))
    && forall i :: 0 < i < |runs| ==> runs[i][0].role != runs[i - 1][0].role
  }

  /** One turn for each run, its texts joined by line breaks. */
  ghost predicate MergesAs(out: seq<Turn>, runs: seq<seq<Turn>>) {
    |out| == |runs| && forall i :: 0 <= i < |runs| ==> IsRun(runs[i]) && out[i] == Turn(runs[i][0].role, Join(runs[i]))
  }

  ghost predicate IsMerge(out: seq<Turn>, turns: seq<Turn>) {
    exists runs :: AreRuns(runs, DropAssistants(turns)) && MergesAs(out, runs)
  }

  method Merge(turns: seq<Turn>) returns (out: seq<Turn>)
    ensures IsMerge(out, turns)
  {
    out := [];
    var rest := DropAssistants(turns);
    ghost var runs: seq<seq<Turn>> := [];
    for i := 0 to |rest|
      invariant AreRuns(runs, rest[..i]) && MergesAs(out, runs)
    {
      var t := rest[i];
      assert rest[..i + 1] == rest[..i] + [t];
      if out != [] && out[|out| - 1].role == t.role {
        var prev := out[|out| - 1];
        assert IsRun(runs[|runs| - 1]);
        LongerRun(runs, rest[..i], out, t);
        runs := runs[..|runs| - 1] + [runs[|runs| - 1] + [t]];
        out := out[..|out| - 1] + [Turn(prev.role, prev.text + "\n" + t.text)];
      } else {
        assert runs != [] ==> IsRun(runs[|runs| - 1]);
        NewRun(runs, rest[..i], out, t);
        runs := runs + [[t]];
        out := out + [t];
      }
    }
    assert rest[..|rest|] == rest;
  }

  lemma LongerRun(runs: seq<seq<Turn>>, turns: seq<Turn>, out: seq<Turn>, t: Turn)
    requires AreRuns(runs, turns) && MergesAs(out, runs)
    requires runs != [] && runs[|runs| - 1] != [] && runs[|runs| - 1][0].role == t.role
    ensures var n := |runs| - 1;
            AreRuns(runs[..n] + [runs[n] + [t]], turns + [t]) &&
            MergesAs(out[..n] + [Turn(out[n].role, out[n].text + "\n" + t.text)], runs[..n] + [runs[n] + [t]])
  {
    var n := |runs| - 1;
    var head, last := runs[..n], runs[n];
    assert IsRun(last);
    RunGrows(last, t);
    FlattenSnoc(head, last);
    FlattenSnoc(head, last + [t]);
    assert runs == head + [last];
    hide Flatten, Join, IsRun;
    assert Flatten(head) + (last + [t]) == (Flatten(head) + last) + [t];
    assert (last + [t])[0] == last[0];
  }

  lemma RunGrows(run: seq<Turn>, t: Turn)
    requires IsRun(run) && run[0].role == t.role
    ensures IsRun(run + [t]) && Join(run + [t]) == Join(run) + "\n" + t.text
  {
    assert (run + [t])[..|run|] == run;
  }

  lemma FlattenSnoc(runs: seq<seq<Turn>>, run: seq<Turn>)
    ensures Flatten(runs + [run]) == Flatten(runs) + run
  {
    assert (runs + [run])[..|runs|] == runs;
  }

  lemma NewRun(runs: seq<seq<Turn>>, turns: seq<Turn>, out: seq<Turn>, t: Turn)
    requires AreRuns(runs, turns) && MergesAs(out, runs)
    requires runs != [] ==> runs[|runs| - 1] != [] && runs[|runs| - 1][0].role != t.role
    ensures AreRuns(runs + [[t]], turns + [t]) && MergesAs(out + [t], runs + [[t]])
  {
    assert (runs + [[t]])[..|runs|] == runs;
    assert IsRun([t]) && Join([t]) == t.text;
  }

  // ---------------------------------------------------------------- the prompt

  /** The prompt's turns, as the service promises them to a provider. */
  ghost predicate IsPrompt(out: seq<Turn>, history: seq<Message>, trigger: Message, me: string, budget: nat) {
    exists kept ::
      LongestSuffix(kept, AsTurns(SortByTime(Picked(history, trigger)), me), AsTurn(trigger, me), budget) &&
      IsMerge(out, kept + [AsTurn(trigger, me)])
  }

  method Build(history: seq<Message>, trigger: Message, me: string, budget: nat) returns (out: seq<Turn>)
    ensures IsPrompt(out, history, trigger, me, budget)
  {
    var turns := AsTurns(SortByTime(Picked(history, trigger)), me);
    var last := AsTurn(trigger, me);
    var kept := KeepNewest(turns, last, budget);
    out := Merge(kept + [last]);
  }

  // ---------------------------------------------------------------- what a provider can rely on

  ghost predicate Alternates(out: seq<Turn>) {
    && (out != [] ==> out[0].role == User)
    && forall i :: 0 < i < |out| ==> out[i].role != out[i - 1].role
  }

  predicate EndsWith(s: string, t: string) {
    |t| <= |s| && s[|s| - |t|..] == t
  }

  lemma {:induction false} RunsCoverEnds(runs: seq<seq<Turn>>, turns: seq<Turn>)
    requires AreRuns(runs, turns)
    ensures turns == [] <==> runs == []
    ensures runs != [] ==> runs[0][0] == turns[0] && runs[|runs| - 1][|runs[|runs| - 1]| - 1] == turns[|turns| - 1]
  {
    if runs != [] {
      var head, last := runs[..|runs| - 1], runs[|runs| - 1];
      assert turns == Flatten(head) + last && IsRun(last);
      RunsCoverEnds(head, Flatten(head));
    }
  }

  lemma JoinEnds(run: seq<Turn>)
    requires run != []
    ensures EndsWith(Join(run), run[|run| - 1].text)
  {
  }

  lemma {:induction false} DropKeepsEnd(turns: seq<Turn>, last: Turn)
    requires last.role == User
    ensures DropAssistants(turns + [last]) != []
    ensures DropAssistants(turns + [last])[|DropAssistants(turns + [last])| - 1] == last
  {
    if turns != [] && turns[0].role == Assistant {
      assert (turns + [last])[1..] == turns[1..] + [last];
      DropKeepsEnd(turns[1..], last);
    }
  }

  lemma {:induction false} DropStartsWithUser(turns: seq<Turn>)
    ensures DropAssistants(turns) != [] ==> DropAssistants(turns)[0].role == User
    ensures DropAssistants(turns) == [] <==> forall i :: 0 <= i < |turns| ==> turns[i].role == Assistant
    ensures Cost(DropAssistants(turns)) <= Cost(turns)
  {
    if turns != [] && turns[0].role == Assistant {
      DropStartsWithUser(turns[1..]);
      assert turns == [turns[0]] + turns[1..];
    }
  }

  lemma MergeAlternates(out: seq<Turn>, turns: seq<Turn>)
    requires IsMerge(out, turns)
    ensures Alternates(out)
    ensures out == [] <==> forall i :: 0 <= i < |turns| ==> turns[i].role == Assistant
  {
    var runs :| AreRuns(runs, DropAssistants(turns)) && MergesAs(out, runs);
    RunsCoverEnds(runs, DropAssistants(turns));
    DropStartsWithUser(turns);
    forall i | 0 < i < |out| ensures out[i].role != out[i - 1].role {
      assert IsRun(runs[i]) && IsRun(runs[i - 1]);
    }
  }

  lemma MergeEnds(out: seq<Turn>, turns: seq<Turn>, last: Turn)
    requires IsMerge(out, turns + [last]) && last.role == User
    ensures out != [] && out[|out| - 1].role == User && EndsWith(out[|out| - 1].text, last.text)
  {
    var all := DropAssistants(turns + [last]);
    var runs :| AreRuns(runs, all) && MergesAs(out, runs);
    DropKeepsEnd(turns, last);
    RunsCoverEnds(runs, all);
    var run := runs[|runs| - 1];
    assert IsRun(run) && run[|run| - 1] == last;
    JoinEnds(run);
  }

  function TotalBytes(turns: seq<Turn>): nat {
    if turns == [] then 0 else TotalBytes(turns[..|turns| - 1]) + Bytes(turns[|turns| - 1].text)
  }

  lemma {:induction false} JoinBytes(run: seq<Turn>)
    requires run != []
    ensures Bytes(Join(run)) + 1 <= 4 * Cost(run)
  {
    var n := |run| - 1;
    assert run == run[..n] + [run[n]];
    CostAppend(run[..n], [run[n]]);
    assert Cost([run[n]]) == Estimate(run[n].text);
    if n > 0 {
      JoinBytes(run[..n]);
      BytesAppend(Join(run[..n]) + "\n", run[n].text);
      BytesAppend(Join(run[..n]), "\n");
      assert Bytes("\n") == 1;
    }
  }

  lemma {:induction false} MergedBytes(out: seq<Turn>, runs: seq<seq<Turn>>)
    requires MergesAs(out, runs)
    ensures TotalBytes(out) <= 4 * Cost(Flatten(runs))
  {
    if out != [] {
      var n := |out| - 1;
      MergedBytes(out[..n], runs[..n]);
      assert IsRun(runs[n]);
      JoinBytes(runs[n]);
      CostAppend(Flatten(runs[..n]), runs[n]);
    }
  }

  lemma {:induction false} RunsAreUnique(a: seq<seq<Turn>>, b: seq<seq<Turn>>, turns: seq<Turn>)
    requires AreRuns(a, turns) && AreRuns(b, turns)
    ensures a == b
    decreases |a|
  {
    RunsCoverEnds(a, turns);
    RunsCoverEnds(b, turns);
    if a != [] {
      var n, m := |a| - 1, |b| - 1;
      LastRunNotLonger(a, b, turns);
      LastRunNotLonger(b, a, turns);
      assert a[n] == turns[|turns| - |a[n]|..] == b[m];
      assert Flatten(a[..n]) == turns[..|turns| - |a[n]|] == Flatten(b[..m]);
      hide Flatten, Join;
      RunsAreUnique(a[..n], b[..m], Flatten(a[..n]));
      assert a == a[..n] + [a[n]] && b == b[..m] + [b[m]];
    }
  }

  lemma LastRunNotLonger(a: seq<seq<Turn>>, b: seq<seq<Turn>>, turns: seq<Turn>)
    requires AreRuns(a, turns) && AreRuns(b, turns) && a != [] && b != []
    ensures |b[|b| - 1]| <= |a[|a| - 1]|
  {
    LastRunStart(a, turns);
    LastRunStart(b, turns);
  }

  lemma LastRunStart(runs: seq<seq<Turn>>, turns: seq<Turn>)
    requires AreRuns(runs, turns) && runs != []
    ensures var start := |turns| - |runs[|runs| - 1]|;
            && 0 <= start < |turns|
            && (start > 0 ==> turns[start].role != turns[start - 1].role)
            && forall p :: start < p < |turns| ==> turns[p].role == turns[p - 1].role
  {
    var n := |runs| - 1;
    var head, last := Flatten(runs[..n]), runs[n];
    assert turns == head + last && IsRun(last);
    RunsCoverEnds(runs[..n], head);
    assert forall p :: |head| <= p < |turns| ==> turns[p] == last[p - |head|];
    if n > 0 {
      assert IsRun(runs[n - 1]) && turns[|head| - 1] == runs[n - 1][|runs[n - 1]| - 1];
    }
  }

  /** A prompt is the same whatever order the gateway returned the history in. */
  lemma PromptForgetsOrder(h1: seq<Message>, h2: seq<Message>, trigger: Message, me: string, budget: nat,
                           out1: seq<Turn>, out2: seq<Turn>)
    requires multiset(h1) == multiset(h2) && DistinctTimes(Picked(h1, trigger))
    requires IsPrompt(out1, h1, trigger, me, budget) && IsPrompt(out2, h2, trigger, me, budget)
    ensures out1 == out2
  {
    SortForgetsOrder(h1, h2, trigger);
    var turns, last := AsTurns(SortByTime(Picked(h1, trigger)), me), AsTurn(trigger, me);
    var kept1 :| LongestSuffix(kept1, turns, last, budget) && IsMerge(out1, kept1 + [last]);
    var kept2 :| LongestSuffix(kept2, turns, last, budget) && IsMerge(out2, kept2 + [last]);
    LongestIsUnique(kept1, kept2, turns, last, budget);
    var all := DropAssistants(kept1 + [last]);
    var runs1 :| AreRuns(runs1, all) && MergesAs(out1, runs1);
    var runs2 :| AreRuns(runs2, all) && MergesAs(out2, runs2);
    RunsAreUnique(runs1, runs2, all);
  }

  /** Turns alternate from a user's, end with the trigger, and stay within the estimated budget. */
  lemma PromptKeepsItsPromise(out: seq<Turn>, history: seq<Message>, trigger: Message, me: string, budget: nat)
    requires IsPrompt(out, history, trigger, me, budget)
    ensures Alternates(out)
    ensures trigger.author != me ==>
              out != [] && out[|out| - 1].role == User && EndsWith(out[|out| - 1].text, AsTurn(trigger, me).text)
    ensures var own := Estimate(AsTurn(trigger, me).text);
            TotalBytes(out) <= 4 * (if budget >= own then budget else own)
  {
    var turns, last := AsTurns(SortByTime(Picked(history, trigger)), me), AsTurn(trigger, me);
    var kept :| LongestSuffix(kept, turns, last, budget) && IsMerge(out, kept + [last]);
    MergeAlternates(out, kept + [last]);
    if trigger.author != me {
      MergeEnds(out, kept, last);
    }
    MergeWithinCost(out, kept, last);
  }

  lemma MergeWithinCost(out: seq<Turn>, kept: seq<Turn>, last: Turn)
    requires IsMerge(out, kept + [last])
    ensures TotalBytes(out) <= 4 * (Cost(kept) + Estimate(last.text))
  {
    var runs :| AreRuns(runs, DropAssistants(kept + [last])) && MergesAs(out, runs);
    MergedBytes(out, runs);
    DropStartsWithUser(kept + [last]);
    CostAppend(kept, [last]);
    assert Cost([last]) == Estimate(last.text);
  }

  // ---------------------------------------------------------------- what the prompt says

  lemma {:induction false} PickedAppend(a: seq<Message>, b: seq<Message>, trigger: Message)
    ensures Picked(a + b, trigger) == Picked(a, trigger) + Picked(b, trigger)
  {
    if a == [] {
      assert a + b == b;
    } else {
      PickedAppend(a[1..], b, trigger);
      assert (a + b)[1..] == a[1..] + b;
    }
  }

  /** A fetched copy of the trigger, a later message and a blank one make no difference, wherever they are listed. */
  lemma PromptIgnores(a: seq<Message>, m: Message, b: seq<Message>, trigger: Message, me: string, budget: nat,
                      out: seq<Turn>)
    requires m.id == trigger.id || m.createdAt > trigger.createdAt || Trim(m.content) == ""
    ensures IsPrompt(out, a + [m] + b, trigger, me, budget) <==> IsPrompt(out, a + b, trigger, me, budget)
  {
    PickedAppend(a + [m], b, trigger);
    PickedAppend(a, [m], trigger);
    PickedAppend(a, b, trigger);
    assert Picked([m], trigger) == [] && Picked(a, trigger) + [] == Picked(a, trigger);
    hide Picked, SortByTime;
    assert Picked(a + [m] + b, trigger) == Picked(a + b, trigger);
  }

  /** The history without all such messages. */
  function Without(history: seq<Message>, trigger: Message): seq<Message> {
    if history == [] then []
    else
      var m, rest := history[0], Without(history[1..], trigger);
      if m.id == trigger.id || m.createdAt > trigger.createdAt || Trim(m.content) == "" then rest else [m] + rest
  }

  /** Histories that differ only in such messages give the same prompts. */
  lemma PromptIgnoresAll(h1: seq<Message>, h2: seq<Message>, trigger: Message, me: string, budget: nat, out: seq<Turn>)
    requires Without(h1, trigger) == Without(h2, trigger)
    ensures IsPrompt(out, h1, trigger, me, budget) <==> IsPrompt(out, h2, trigger, me, budget)
  {
    PickedWithout(h1, trigger);
    PickedWithout(h2, trigger);
  }

  lemma {:induction false} PickedWithout(history: seq<Message>, trigger: Message)
    ensures Picked(history, trigger) == Picked(Without(history, trigger), trigger)
  {
    if history != [] {
      PickedWithout(history[1..], trigger);
    }
  }

  /** An own message is said as it is, another's behind the name of its author. */
  ghost predicate Says(t: Turn, m: Message, me: string) {
    if m.author == me then t == Turn(Assistant, Trim(m.content)) else t == Turn(User, m.username + ": " + Trim(m.content))
  }

  ghost predicate SayAll(turns: seq<Turn>, ms: seq<Message>, me: string) {
    |turns| == |ms| && forall i :: 0 <= i < |ms| ==> Says(turns[i], ms[i], me)
  }

  /** `ms` are all messages of the history but the trigger, later ones and blank ones, in order of time. */
  ghost predicate Counting(ms: seq<Message>, history: seq<Message>, trigger: Message) {
    && InTimeOrder(ms)
    && forall m: Message :: multiset(ms)[m] ==
                   if m.id != trigger.id && m.createdAt <= trigger.createdAt && Trim(m.content) != ""
                   then multiset(history)[m] else 0
  }

  /** Four bytes a token, and four tokens for each turn. */
  ghost predicate Affordable(turns: seq<Turn>, budget: nat) {
    TotalBytes(turns) + 16 * |turns| <= 4 * budget
  }

  /** The prompt merges what the newest `n` of the counting messages and the trigger say; all of them if affordable. */
  ghost predicate Presents(out: seq<Turn>, ms: seq<Message>, n: nat, all: seq<Turn>, trigger: Message, me: string,
                           budget: nat) {
    && n <= |ms| && SayAll(all, ms + [trigger], me)
    && IsMerge(out, all[|ms| - n..])
    && (Affordable(all, budget) ==> n == |ms|)
  }

  /** What counts is in the prompt, the newest first to stay, and with budget enough all of it. */
  lemma PromptSays(out: seq<Turn>, history: seq<Message>, trigger: Message, me: string, budget: nat)
    requires IsPrompt(out, history, trigger, me, budget)
    ensures exists ms, n: nat, all ::
              Counting(ms, history, trigger) && Presents(out, ms, n, all, trigger, me, budget)
  {
    var ms := SortByTime(Picked(history, trigger));
    var turns, last := AsTurns(ms, me), AsTurn(trigger, me);
    var kept :| LongestSuffix(kept, turns, last, budget) && IsMerge(out, kept + [last]);
    assert |turns| == |ms|;
    hide *;
    PickedCountsAll(history, trigger);
    KeptPresents(out, kept, ms, trigger, me, budget);
  }

  lemma KeptPresents(out: seq<Turn>, kept: seq<Turn>, ms: seq<Message>, trigger: Message, me: string, budget: nat)
    requires LongestSuffix(kept, AsTurns(ms, me), AsTurn(trigger, me), budget)
    requires IsMerge(out, kept + [AsTurn(trigger, me)])
    ensures Presents(out, ms, |kept|, AsTurns(ms, me) + [AsTurn(trigger, me)], trigger, me, budget)
  {
    var turns, last := AsTurns(ms, me), AsTurn(trigger, me);
    KeptIsNewest(kept, turns, last, budget);
    assert |turns| == |ms|;
    hide *;
    TurnsSay(ms, trigger, me);
    AffordableIsKept(kept, turns, last, budget);
    NewestAndLast(turns, |kept|, last);
    PresentsNewest(out, ms, |kept|, turns + [last], trigger, me, budget);
  }

  lemma KeptIsNewest(kept: seq<Turn>, turns: seq<Turn>, last: Turn, budget: nat)
    requires LongestSuffix(kept, turns, last, budget)
    ensures |kept| <= |turns| && kept == Newest(turns, |kept|)
  {
  }

  lemma PresentsNewest(out: seq<Turn>, ms: seq<Message>, n: nat, all: seq<Turn>, trigger: Message, me: string,
                       budget: nat)
    requires n <= |ms| && |ms| - n <= |all| && SayAll(all, ms + [trigger], me) && IsMerge(out, all[|ms| - n..])
    requires Affordable(all, budget) ==> n == |ms|
    ensures Presents(out, ms, n, all, trigger, me, budget)
  {
  }

  lemma PickedCountsAll(history: seq<Message>, trigger: Message)
    ensures Counting(SortByTime(Picked(history, trigger)), history, trigger)
  {
    var ms := SortByTime(Picked(history, trigger));
    SortIsSorted(Picked(history, trigger));
    hide SortByTime, Picked, InTimeOrder;
    forall m: Message ensures multiset(ms)[m] ==
                              if m.id != trigger.id && m.createdAt <= trigger.createdAt && Trim(m.content) != ""
                              then multiset(history)[m] else 0
    {
      PickedCounts(history, trigger, m);
    }
  }

  lemma TurnsSay(ms: seq<Message>, trigger: Message, me: string)
    ensures SayAll(AsTurns(ms, me) + [AsTurn(trigger, me)], ms + [trigger], me)
  {
  }

  lemma NewestAndLast(turns: seq<Turn>, n: nat, last: Turn)
    requires n <= |turns|
    ensures (turns + [last])[|turns| - n..] == Newest(turns, n) + [last]
  {
  }

  lemma AffordableIsKept(kept: seq<Turn>, turns: seq<Turn>, last: Turn, budget: nat)
    requires LongestSuffix(kept, turns, last, budget)
    ensures Affordable(turns + [last], budget) ==> |kept| == |turns|
  {
    CostOfBytes(turns + [last]);
    CostAppend(turns, [last]);
    assert Cost([last]) == Estimate(last.text) && Newest(turns, |turns|) == turns;
  }

  lemma {:induction false} CostOfBytes(turns: seq<Turn>)
    ensures 4 * Cost(turns) <= TotalBytes(turns) + 16 * |turns|
  {
    if turns != [] {
      var n := |turns| - 1;
      CostOfBytes(turns[..n]);
      CostAppend(turns[..n], [turns[n]]);
      assert turns == turns[..n] + [turns[n]] && Cost([turns[n]]) == Estimate(turns[n].text);
    }
  }

  /** The texts of the turns, a line break between any two. */
  function Lines(turns: seq<Turn>): string {
    if turns == [] then ""
    else if |turns| == 1 then turns[0].text
    else turns[0].text + "\n" + Lines(turns[1..])
  }

  lemma {:induction false} LinesAppend(a: seq<Turn>, b: seq<Turn>)
    requires a != [] && b != []
    ensures Lines(a + b) == Lines(a) + "\n" + Lines(b)
  {
    assert (a + b)[1..] == a[1..] + b;
    if |a| > 1 {
      LinesAppend(a[1..], b);
    } else {
      assert a[1..] + b == b;
    }
  }

  lemma {:induction false} JoinIsLines(run: seq<Turn>)
    requires run != []
    ensures Join(run) == Lines(run)
  {
    if |run| > 1 {
      var n := |run| - 1;
      JoinIsLines(run[..n]);
      LinesAppend(run[..n], [run[n]]);
      assert run == run[..n] + [run[n]];
    }
  }

  lemma {:induction false} MergedLines(out: seq<Turn>, runs: seq<seq<Turn>>)
    requires MergesAs(out, runs)
    ensures Lines(out) == Lines(Flatten(runs)) && (out != [] ==> Flatten(runs) != [])
  {
    if out != [] {
      var n := |out| - 1;
      var head := Flatten(runs[..n]);
      MergedLines(out[..n], runs[..n]);
      assert IsRun(runs[n]);
      JoinIsLines(runs[n]);
      assert out == out[..n] + [out[n]];
      if n > 0 {
        LinesAppend(out[..n], [out[n]]);
        LinesAppend(head, runs[n]);
      } else {
        assert head == [] && head + runs[n] == runs[n] && out == [out[n]];
      }
    }
  }

  /** Merging says the same lines in the same order, but for leading turns of the agent's own. */
  lemma MergeKeepsLines(out: seq<Turn>, turns: seq<Turn>)
    requires IsMerge(out, turns)
    ensures exists k: nat :: k <= |turns| && (forall i :: 0 <= i < k ==> turns[i].role == Assistant) &&
                             (k < |turns| ==> turns[k].role == User) && Lines(out) == Lines(turns[k..])
  {
    var runs :| AreRuns(runs, DropAssistants(turns)) && MergesAs(out, runs);
    MergedLines(out, runs);
    DropIsSuffix(turns);
  }

  lemma {:induction false} DropIsSuffix(turns: seq<Turn>)
    ensures var k := |turns| - |DropAssistants(turns)|;
            && 0 <= k && DropAssistants(turns) == turns[k..]
            && (forall i :: 0 <= i < k ==> turns[i].role == Assistant)
            && (k < |turns| ==> turns[k].role == User)
  {
    if turns != [] && turns[0].role == Assistant {
      DropIsSuffix(turns[1..]);
    }
  }
}
