/** Asking a question again after it failed (apps/web/components/mia-home.tsx): which history goes with it, and when it is
    the one the question had. */
module MiaRetries {
  import opened Basics
  import opened Text
  import opened Conversation
  import opened Mia
  import opened MiaRuns

  /** `asked` is the question of the exchange at `p`, asked with what stands before it. */
  predicate Stands(m: Machine, p: nat, asked: Entry) {
    && asked.Asked?
    && p < |m.exchanges|
    && m.scope == asked.scope
    && m.exchanges[p].id == asked.id && m.exchanges[p].question == asked.question
    && HistoryOf(m.exchanges[..p]) == asked.history
    && (m.token in m.pending ==> m.pending[m.token].id == asked.id)
  }

  predicate OnlyAnswers(events: seq<Event>) {
    forall i :: 0 <= i < |events| ==> events[i].Lands?
  }

  lemma AnAnswerLeavesItStanding(m: Machine, p: nat, asked: Entry, token: nat, result: ApiResult<AskResponse>)
    requires Inv(m) && Stands(m, p, asked)
    ensures Stands(Land(m, token, result), p, asked)
  {
    if token in m.pending {
      if token != m.token {
        LateAnswer(m, token, result);
      } else {
        SettledIsUpdated(m.exchanges, p, StateFromResult(result));
        assert Land(m, token, result).exchanges[..p] == m.exchanges[..p];
      }
    }
  }

  lemma {:induction false} AnswersLeaveItStanding(m: Machine, p: nat, asked: Entry, events: seq<Event>)
    requires Inv(m) && Stands(m, p, asked) && OnlyAnswers(events)
    ensures Stands(Run(m, events), p, asked)
    decreases |events|
  {
    hide Inv;
    hide Stands;
    hide Land;
    if events != [] {
      var front, e := events[..|events| - 1], events[|events| - 1];
      AnswersLeaveItStanding(m, p, asked, front);
      RunKeeps(m, front);
      AnAnswerLeavesItStanding(Run(m, front), p, asked, e.token, e.result);
    }
  }

  lemma ExchangeIsPlaced(m: Machine, e: Event)
    requires Inv(m) && (e.Sends? || e.Retries?)
    requires Next(m, e).log != m.log
    ensures var after := Next(m, e);
            && |after.log| == |m.log| + 1
            && exists p :: Stands(after, p, after.log[|m.log|])
  {
    var after := Next(m, e);
    if e.Sends? {
      SendNewIs(m, e.text);
      var kept := m.exchanges[PushedOut(m)..];
      assert after.exchanges[..|kept|] == kept;
      assert Stands(after, |kept|, after.log[|m.log|]);
    } else {
      ResendIs(m, e.position);
      assert after.exchanges[..e.position] == m.exchanges[..e.position];
      assert Stands(after, e.position, after.log[|m.log|]);
    }
  }

  /** A question, or a retry of one, that fails can be retried: with nothing but answers in between (late ones of
      other analyses included), the retry sends the very same question with the very same history. */
  lemma ARetryRepeatsTheQuestion(m: Machine, e: Event, answers: seq<Event>, later: Machine, p: nat)
    requires Reachable(m) && (e.Sends? || e.Retries?) && |Next(m, e).log| > |m.log|
    requires OnlyAnswers(answers) && later == Run(Next(m, e), answers)
    requires p < |later.exchanges| && later.exchanges[p].id == Next(m, e).log[|m.log|].id
    requires Retryable(later.exchanges[p]) && !later.inFlight
    ensures Retry(later, p).log == later.log + [Next(m, e).log[|m.log|]]
  {
    hide HistoryOf;
    hide Trim;
    hide SettledAll;
    ReachableKeeps(m);
    ExchangeIsPlaced(m, e);
    NextKeeps(m, e);
    var asked := Next(m, e).log[|m.log|];
    var q :| Stands(Next(m, e), q, asked);
    AnswersLeaveItStanding(Next(m, e), q, asked, answers);
    RunKeeps(Next(m, e), answers);
    PositionIs(later.exchanges, p);
    PositionIs(later.exchanges, q);
    ResendIs(later, p);
  }

  /** While an exchange that was asked is on screen, it is the same question of the same analysis. */
  ghost predicate SameQuestion(m: Machine, asked: Entry) {
    && asked.Asked? && asked.id < m.nextId
    && forall i :: 0 <= i < |m.exchanges| && m.exchanges[i].id == asked.id ==>
         m.exchanges[i].question == asked.question && m.scope == asked.scope
  }

  lemma QuestionStays(m: Machine, e: Event, asked: Entry)
    requires SameQuestion(m, asked)
    ensures SameQuestion(Next(m, e), asked)
  {
    hide Trim;
    hide HistoryOf;
    hide Position;
  }

  lemma {:induction false} QuestionStaysThroughout(m: Machine, events: seq<Event>, asked: Entry)
    requires SameQuestion(m, asked)
    ensures SameQuestion(Run(m, events), asked)
    decreases |events|
  {
    hide Next;
    if events != [] {
      QuestionStaysThroughout(m, events[..|events| - 1], asked);
      QuestionStays(Run(m, events[..|events| - 1]), events[|events| - 1], asked);
    }
  }

  lemma {:induction false} SameMembersInOrder(a: seq<Exchange>, b: seq<Exchange>)
    requires IdsIncrease(a) && IdsIncrease(b)
    requires forall e :: e in a <==> e in b
    ensures a == b
    decreases |a|
  {
    assert a == [] ==> b == [] by {
      if b != [] { assert b[0] in b; }
    }
    if a != [] {
      var x := a[|a| - 1];
      assert x in b;
      var y := b[|b| - 1];
      assert y in a && x == y;
      var front, other := a[..|a| - 1], b[..|b| - 1];
      forall e ensures e in front <==> e in other {
        FrontMembers(a, e);
        FrontMembers(b, e);
      }
      SameMembersInOrder(front, other);
      FrontAndLast(a);
      FrontAndLast(b);
    }
  }

  lemma FrontMembers(a: seq<Exchange>, e: Exchange)
    requires IdsIncrease(a) && a != []
    ensures e in a[..|a| - 1] <==> e in a && e != a[|a| - 1]
  {
    FrontAndLast(a);
  }

  // ---------------------------------------------------------------------------------------------
  // What may have happened to the exchanges before a question
  // ---------------------------------------------------------------------------------------------

  ghost predicate OnScreen(m: Machine, id: nat) {
    exists i :: 0 <= i < |m.exchanges| && m.exchanges[i].id == id
  }

  /** A new question takes the place of exchange `id`. */
  ghost predicate PushesOut(m: Machine, e: Event, id: nat) {
    e.Sends? && OnScreen(m, id) && !OnScreen(Next(m, e), id)
  }

  /** The answer that is waited for gives exchange `id` a text. */
  ghost predicate GivesText(m: Machine, e: Event, id: nat) {
    && e.Lands? && e.token == m.token && e.token in m.pending && m.pending[e.token].id == id
    && AnswerTextOf(StateFromResult(e.result)).Some?
  }

  ghost predicate PushedOutSince(m: Machine, events: seq<Event>, id: nat) {
    exists k :: 0 <= k < |events| && PushesOut(Run(m, events[..k]), events[k], id)
  }

  ghost predicate AnsweredSince(m: Machine, events: seq<Event>, id: nat) {
    exists k :: 0 <= k < |events| && GivesText(Run(m, events[..k]), events[k], id)
  }

  lemma SinceOneMore(m: Machine, events: seq<Event>, e: Event, id: nat)
    ensures PushedOutSince(m, events + [e], id) <==> PushedOutSince(m, events, id) || PushesOut(Run(m, events), e, id)
    ensures AnsweredSince(m, events + [e], id) <==> AnsweredSince(m, events, id) || GivesText(Run(m, events), e, id)
  {
    hide PushesOut;
    hide GivesText;
    hide Run;
    var longer := events + [e];
    assert longer[..|events|] == events && longer[|events|] == e;
    assert forall k :: 0 <= k < |events| ==> longer[..k] == events[..k] && longer[k] == events[k];
  }

  /** How many exchanges an event pushes out. */
  function Dropped(m: Machine, e: Event): nat {
    if e.Sends? && !m.inFlight && Trim(e.text) != "" then PushedOut(m) else 0
  }

  /** `b` is `a` later: the same question, which keeps an answer it has. */
  predicate Continues(a: Exchange, b: Exchange) {
    b.id == a.id && b.question == a.question && (Complete(a) ==> b == a)
  }

  lemma ExchangeAfterSend(m: Machine, text: string, i: nat)
    requires Inv(m) && !m.inFlight && Trim(text) != ""
    requires i < |SendNew(m, text).exchanges| && SendNew(m, text).exchanges[i].id < m.nextId
    ensures i + PushedOut(m) < |m.exchanges| && SendNew(m, text).exchanges[i] == m.exchanges[i + PushedOut(m)]
  {
    hide Inv;
    hide HistoryOf;
    hide Trim;
    InOrder(m);
    SendNewIs(m, text);
    hide SendNew;
  }

  lemma ExchangeAfterRetry(m: Machine, position: nat, i: nat)
    requires Inv(m) && i < |Retry(m, position).exchanges|
    ensures i < |m.exchanges| && Continues(m.exchanges[i], Retry(m, position).exchanges[i])
    ensures Complete(Retry(m, position).exchanges[i]) <==> Complete(m.exchanges[i])
  {
    hide HistoryOf;
    hide Trim;
    if position < |m.exchanges| && Retryable(m.exchanges[position]) && !m.inFlight {
      ResendIs(m, position);
      hide Resend;
    } else {
      assert Retry(m, position) == m;
    }
  }

  /** An exchange that is no newer than the event was on screen before it, so many places further down. */
  lemma ExchangeAfter(m: Machine, e: Event, i: nat)
    requires Inv(m) && i < |Next(m, e).exchanges| && Next(m, e).exchanges[i].id < m.nextId
    ensures i + Dropped(m, e) < |m.exchanges|
    ensures Continues(m.exchanges[i + Dropped(m, e)], Next(m, e).exchanges[i])
    ensures Complete(Next(m, e).exchanges[i])
       <==> Complete(m.exchanges[i + Dropped(m, e)]) || GivesText(m, e, Next(m, e).exchanges[i].id)
  {
    hide Inv;
    hide Trim;
    hide HistoryOf;
    match e
    case Sends(text) =>
      if !m.inFlight && Trim(text) != "" {
        ExchangeAfterSend(m, text, i);
        hide SendNew;
      }
    case Retries(position) =>
      ExchangeAfterRetry(m, position, i);
      hide Retry;
    case Lands(token, result) =>
      ExchangeAfterAnswer(m, token, result, i);
      hide Land;
    case StartsOver =>
    case ChangesScope(_) =>
  }

  lemma ExchangeAfterAnswer(m: Machine, token: nat, result: ApiResult<AskResponse>, i: nat)
    requires Inv(m) && i < |m.exchanges|
    ensures var after := Land(m, token, result);
            && |after.exchanges| == |m.exchanges| && Continues(m.exchanges[i], after.exchanges[i])
            && (Complete(after.exchanges[i]) <==> Complete(m.exchanges[i]) || GivesText(m, Lands(token, result), m.exchanges[i].id))
  {
    if token != m.token {
      LateAnswer(m, token, result);
    } else if token in m.pending {
      var w :| 0 <= w < |m.exchanges| && Awaits(m.exchanges[w], m.pending[token]);
      SettledIsUpdated(m.exchanges, w, StateFromResult(result));
      DifferentIds(m.exchanges, w, i);
    }
  }

  lemma DifferentIds(exchanges: seq<Exchange>, i: nat, j: nat)
    requires IdsIncrease(exchanges) && i < |exchanges| && j < |exchanges|
    ensures exchanges[i].id == exchanges[j].id <==> i == j
  {
  }

  lemma NewScreen(m: Machine, d: nat, after: Machine, i: nat)
    requires IdsIncrease(m.exchanges) && i < |m.exchanges| && m.exchanges[i].id < m.nextId && d <= |m.exchanges|
    requires |after.exchanges| == |m.exchanges| - d + 1 && after.exchanges[|m.exchanges| - d].id == m.nextId
    requires forall j :: 0 <= j < |m.exchanges| - d ==> after.exchanges[j] == m.exchanges[j + d]
    ensures OnScreen(after, m.exchanges[i].id) <==> i >= d
  {
    if i >= d {
      assert after.exchanges[i - d] == m.exchanges[i];
    } else {
      forall j | 0 <= j < |after.exchanges| ensures after.exchanges[j].id != m.exchanges[i].id {
        if j + d < |m.exchanges| {
          DifferentIds(m.exchanges, j + d, i);
        }
      }
    }
  }

  /** A new question takes the place of exactly the first exchanges. */
  lemma PushesOutTheFirst(m: Machine, e: Event, i: nat)
    requires Inv(m) && e.Sends? && i < |m.exchanges|
    ensures PushesOut(m, e, m.exchanges[i].id) <==> i < Dropped(m, e)
  {
    hide Inv;
    hide HistoryOf;
    hide Trim;
    InOrder(m);
    if !m.inFlight && Trim(e.text) != "" {
      SendNewIs(m, e.text);
      hide SendNew;
      NewScreen(m, PushedOut(m), Next(m, e), i);
    } else {
      assert Next(m, e).exchanges[i].id == m.exchanges[i].id;
    }
  }

  // ---------------------------------------------------------------------------------------------
  // From the question to its retry
  // ---------------------------------------------------------------------------------------------

  /** The exchanges up to the one at `p` are the last of those up to the one at `q` before. */
  ghost predicate Aligned(before: seq<Exchange>, q: nat, now: seq<Exchange>, p: nat) {
    && p <= q && q < |before| && p < |now|
    && forall i :: 0 <= i <= p ==> Continues(before[q - p + i], now[i])
  }

  lemma FirstStays(m: Machine, e: Event, id: nat, p: nat)
    requires Inv(m) && id < m.nextId && p < |Next(m, e).exchanges| && Next(m, e).exchanges[p].id == id
    ensures p + Dropped(m, e) < |m.exchanges| && m.exchanges[p + Dropped(m, e)].id == id
    ensures forall i :: 0 <= i <= p ==> Next(m, e).exchanges[i].id < m.nextId
  {
    hide Next;
    hide Inv;
    hide GivesText;
    hide Complete;
    NextKeeps(m, e);
    InOrder(Next(m, e));
    ExchangeAfter(m, e, p);
    forall i | 0 <= i <= p ensures Next(m, e).exchanges[i].id < m.nextId {
      assert i < p ==> Next(m, e).exchanges[i].id < Next(m, e).exchanges[p].id;
    }
  }

  lemma IdIsUsed(m: Machine, q: nat)
    requires Inv(m) && q < |m.exchanges|
    ensures m.exchanges[q].id < m.nextId
  {
    InOrder(m);
  }

  lemma {:induction false} IdStaysUsed(m: Machine, events: seq<Event>)
    ensures Run(m, events).nextId >= m.nextId
    decreases |events|
  {
    if events != [] {
      IdStaysUsed(m, events[..|events| - 1]);
      NextIdGrows(Run(m, events[..|events| - 1]), events[|events| - 1]);
    }
  }

  lemma NextIdGrows(m: Machine, e: Event)
    ensures Next(m, e).nextId >= m.nextId
  {
    hide Trim;
    hide HistoryOf;
    hide SettledAll;
    hide Position;
  }

  /** One event more, while the exchange `id` stays on screen. */
  lemma StepAligned(first: seq<Exchange>, q: nat, before: Machine, e: Event, p: nat)
    requires Inv(before) && q < |first| && first[q].id < before.nextId
    requires p < |Next(before, e).exchanges| && Next(before, e).exchanges[p].id == first[q].id
    requires Aligned(first, q, before.exchanges, p + Dropped(before, e))
    ensures Aligned(first, q, Next(before, e).exchanges, p)
  {
    hide Dropped;
    hide Next;
    hide Inv;
    hide Continues;
    FirstStays(before, e, first[q].id, p);
    var d := Dropped(before, e);
    forall i | 0 <= i <= p ensures Continues(before.exchanges[i + d], Next(before, e).exchanges[i]) {
      ExchangeAfter(before, e, i);
    }
    AlignedOn(first, q, before.exchanges, d, Next(before, e).exchanges, p);
  }

  /** The run up to its last event, while the exchange at `q` stays on screen. */
  lemma BeforeTheLast(m: Machine, q: nat, events: seq<Event>, p: nat)
    requires Inv(m) && q < |m.exchanges| && events != []
    requires p < |Run(m, events).exchanges| && Run(m, events).exchanges[p].id == m.exchanges[q].id
    ensures var before, e := Run(m, events[..|events| - 1]), events[|events| - 1];
            && Inv(before) && m.exchanges[q].id < before.nextId && Run(m, events) == Next(before, e)
            && p + Dropped(before, e) < |before.exchanges| && before.exchanges[p + Dropped(before, e)].id == m.exchanges[q].id
  {
    hide Run;
    hide Next;
    hide Inv;
    hide Dropped;
    var front, e := events[..|events| - 1], events[|events| - 1];
    RunKeeps(m, front);
    IdIsUsed(m, q);
    IdStaysUsed(m, front);
    RunOneMore(m, events);
    FirstStays(Run(m, front), e, m.exchanges[q].id, p);
  }

  /** While the exchange at `q` stays on screen, those before it are pushed out from the first on or stay in line. */
  lemma {:induction false} StaysAligned(m: Machine, q: nat, events: seq<Event>, p: nat)
    requires Inv(m) && q < |m.exchanges|
    requires p < |Run(m, events).exchanges| && Run(m, events).exchanges[p].id == m.exchanges[q].id
    ensures Aligned(m.exchanges, q, Run(m, events).exchanges, p)
    decreases |events|
  {
    hide Run;
    hide Next;
    hide Inv;
    hide Dropped;
    hide Aligned;
    if events == [] {
      AlignedAtFirst(m, q, events, p);
    } else {
      BeforeTheLast(m, q, events, p);
      var front, e := events[..|events| - 1], events[|events| - 1];
      StaysAligned(m, q, front, p + Dropped(Run(m, front), e));
      StepAligned(m.exchanges, q, Run(m, front), e, p);
    }
  }

  lemma AlignedOn(before: seq<Exchange>, q: nat, mid: seq<Exchange>, d: nat, now: seq<Exchange>, p: nat)
    requires Aligned(before, q, mid, p + d) && p < |now|
    requires forall i :: 0 <= i <= p ==> Continues(mid[i + d], now[i])
    ensures Aligned(before, q, now, p)
  {
    forall i | 0 <= i <= p ensures Continues(before[q - p + i], now[i]) {
      assert Continues(before[q - (p + d) + (i + d)], mid[i + d]);
    }
  }

  lemma AlignedAtFirst(m: Machine, q: nat, none: seq<Event>, p: nat)
    requires Inv(m) && q < |m.exchanges| && none == []
    requires p < |Run(m, none).exchanges| && Run(m, none).exchanges[p].id == m.exchanges[q].id
    ensures p == q && Run(m, none) == m && Aligned(m.exchanges, q, m.exchanges, p)
  {
    DifferentIds(m.exchanges, p, q);
  }

  lemma RunOneMore(m: Machine, events: seq<Event>)
    requires events != []
    ensures Run(m, events) == Next(Run(m, events[..|events| - 1]), events[|events| - 1])
  {
  }

  /** An exchange before the one at `q` has been pushed out exactly when it is missing from the line. */
  lemma {:induction false} PushedOutAre(m: Machine, q: nat, events: seq<Event>, p: nat, i: nat)
    requires Inv(m) && i < q < |m.exchanges|
    requires p < |Run(m, events).exchanges| && Run(m, events).exchanges[p].id == m.exchanges[q].id
    ensures p <= q && (PushedOutSince(m, events, m.exchanges[i].id) <==> i < q - p)
    decreases |events|
  {
    hide Run;
    hide Next;
    hide Inv;
    hide Dropped;
    hide PushesOut;
    if events == [] {
      AlignedAtFirst(m, q, events, p);
    } else {
      var front, e := events[..|events| - 1], events[|events| - 1];
      BeforeTheLast(m, q, events, p);
      var before := Run(m, front);
      var d := Dropped(before, e);
      PushedOutAre(m, q, front, p + d, i);
      hide PushedOutSince;
      FrontAndLast(events);
      SinceOneMore(m, front, e, m.exchanges[i].id);
      if i >= q - (p + d) {
        StaysAligned(m, q, front, p + d);
        PushedOutNow(m.exchanges, q, before, e, p + d, i);
      }
    }
  }

  lemma PushedOutNow(first: seq<Exchange>, q: nat, before: Machine, e: Event, p: nat, i: nat)
    requires Inv(before) && Aligned(first, q, before.exchanges, p) && q - p <= i < q
    ensures PushesOut(before, e, first[i].id) <==> i < q - p + Dropped(before, e)
  {
    hide Inv;
    hide Dropped;
    hide PushesOut;
    var k := i - (q - p);
    assert Continues(first[q - p + k], before.exchanges[k]);
    if e.Sends? {
      PushesOutTheFirst(before, e, k);
    } else {
      NothingDropped(before, e, first[i].id);
    }
  }

  lemma NothingDropped(m: Machine, e: Event, id: nat)
    requires !e.Sends?
    ensures Dropped(m, e) == 0 && !PushesOut(m, e, id)
  {
  }

  /** An exchange still in line has a text exactly when it had one or has been given one since. */
  lemma {:induction false} AnsweredAre(m: Machine, q: nat, events: seq<Event>, p: nat, i: nat)
    requires Inv(m) && q < |m.exchanges| && i < p
    requires p < |Run(m, events).exchanges| && Run(m, events).exchanges[p].id == m.exchanges[q].id
    ensures p <= q
    ensures Complete(Run(m, events).exchanges[i])
       <==> Complete(m.exchanges[q - p + i]) || AnsweredSince(m, events, m.exchanges[q - p + i].id)
    decreases |events|
  {
    hide Run;
    hide Next;
    hide Inv;
    hide Dropped;
    hide GivesText;
    hide Complete;
    StaysAligned(m, q, events, p);
    if events == [] {
      AlignedAtFirst(m, q, events, p);
    } else {
      var front, e := events[..|events| - 1], events[|events| - 1];
      BeforeTheLast(m, q, events, p);
      var before := Run(m, front);
      var d := Dropped(before, e);
      FirstStays(before, e, m.exchanges[q].id, p);
      AnsweredAre(m, q, front, p + d, i + d);
      hide AnsweredSince;
      ExchangeAfter(before, e, i);
      FrontAndLast(events);
      SinceOneMore(m, front, e, m.exchanges[q - p + i].id);
      assert Continues(m.exchanges[q - p + i], Next(before, e).exchanges[i]);
    }
  }

  // ---------------------------------------------------------------------------------------------
  // The two histories
  // ---------------------------------------------------------------------------------------------

  /** Two exchanges are told in the same words. */
  predicate SameWords(a: Exchange, b: Exchange) {
    a.question == b.question && AnswerTextOf(a.state) == AnswerTextOf(b.state)
  }

  predicate ToldAlike(a: seq<Exchange>, b: seq<Exchange>) {
    |a| == |b| && forall k :: 0 <= k < |a| ==> SameWords(a[k], b[k])
  }

  /** Histories are the same when what they tell is told in the same words. */
  lemma SameHistories(a: seq<Exchange>, b: seq<Exchange>)
    ensures HistoryOf(a) == HistoryOf(b) <==> ToldAlike(CompleteOnes(a), CompleteOnes(b))
  {
    HistoryTellsTheCompleteOnes(a);
    HistoryTellsTheCompleteOnes(b);
    var h, g, s, t := HistoryOf(a), HistoryOf(b), CompleteOnes(a), CompleteOnes(b);
    hide HistoryOf;
    hide CompleteOnes;
    hide AnswerTextOf;
    if h == g {
      forall k | 0 <= k < |s| ensures SameWords(s[k], t[k]) {
        assert TellsOne(h[2 * k], h[2 * k + 1], s[k]) && TellsOne(g[2 * k], g[2 * k + 1], t[k]);
      }
    }
    if ToldAlike(s, t) {
      forall n | 0 <= n < |h| ensures h[n] == g[n] {
        var k := n / 2;
        assert TellsOne(h[2 * k], h[2 * k + 1], s[k]) && TellsOne(g[2 * k], g[2 * k + 1], t[k]) && SameWords(s[k], t[k]);
        assert n == 2 * k || n == 2 * k + 1;
      }
    }
  }

  /** `now` is what is left in line of `before`: some at the front are gone, some may have got an answer. */
  ghost predicate InLine(before: seq<Exchange>, now: seq<Exchange>) {
    && IdsIncrease(before) && IdsIncrease(now) && |now| <= |before|
    && forall i :: 0 <= i < |now| ==> Continues(before[|before| - |now| + i], now[i])
  }

  /** It was told before and is gone. */
  predicate Lost(before: seq<Exchange>, now: seq<Exchange>, i: int)
    requires |now| <= |before|
  {
    0 <= i < |before| - |now| && Complete(before[i])
  }

  /** It was not told before and has an answer now. */
  predicate Gained(before: seq<Exchange>, now: seq<Exchange>, j: int)
    requires |now| <= |before|
  {
    |before| - |now| <= j < |before| && !Complete(before[j]) && Complete(now[j - (|before| - |now|)])
  }

  lemma LostIsMissed(before: seq<Exchange>, now: seq<Exchange>, i: nat)
    requires InLine(before, now) && Lost(before, now, i)
    ensures before[i] in CompleteOnes(before) && before[i] !in CompleteOnes(now)
  {
    hide Complete;
    hide CompleteOnes;
    var s := |before| - |now|;
    forall e | e in now ensures e != before[i] {
      var k :| 0 <= k < |now| && now[k] == e;
      assert Continues(before[s + k], now[k]);
    }
  }

  lemma GainedIsNew(before: seq<Exchange>, now: seq<Exchange>, j: nat)
    requires InLine(before, now) && Gained(before, now, j)
    ensures now[j - (|before| - |now|)] in CompleteOnes(now) && now[j - (|before| - |now|)] !in CompleteOnes(before)
  {
    hide Complete;
    hide CompleteOnes;
    var s := |before| - |now|;
    assert Continues(before[s + (j - s)], now[j - s]);
    forall e | e in before && Complete(e) ensures e != now[j - s] {
      var k :| 0 <= k < |before| && before[k] == e;
      DifferentIds(before, k, j);
    }
  }

  lemma SameToldExactlyWhen(before: seq<Exchange>, now: seq<Exchange>)
    requires InLine(before, now)
    ensures CompleteOnes(before) == CompleteOnes(now) <==> forall i :: !Lost(before, now, i) && !Gained(before, now, i)
  {
    hide CompleteOnes;
    if i :| Lost(before, now, i) {
      LostIsMissed(before, now, i);
    } else if j :| Gained(before, now, j) {
      GainedIsNew(before, now, j);
    } else {
      hide Complete;
      hide Lost;
      hide Gained;
      forall e ensures e in CompleteOnes(before) <==> e in CompleteOnes(now) {
        SameMember(before, now, e);
      }
      CompleteOnesInOrder(before);
      CompleteOnesInOrder(now);
      SameMembersInOrder(CompleteOnes(before), CompleteOnes(now));
    }
  }

  lemma SameMember(before: seq<Exchange>, now: seq<Exchange>, e: Exchange)
    requires InLine(before, now) && forall i :: !Lost(before, now, i) && !Gained(before, now, i)
    ensures e in before && Complete(e) <==> e in now && Complete(e)
  {
    var s := |before| - |now|;
    hide Complete;
    if e in before && Complete(e) {
      var k :| 0 <= k < |before| && before[k] == e;
      assert !Lost(before, now, k);
      assert Continues(before[s + (k - s)], now[k - s]);
    }
    if e in now && Complete(e) {
      var k :| 0 <= k < |now| && now[k] == e;
      assert !Gained(before, now, s + k);
      assert Continues(before[s + k], now[k]);
    }
  }

  /** The one exchange lost, the one gained and all that is told up to it now have the same words: the history cannot
      tell that it speaks of other exchanges. */
  ghost predicate Coincide(before: seq<Exchange>, now: seq<Exchange>)
    requires |now| <= |before|
  {
    exists i, j :: CoincideAt(before, now, i, j)
  }

  ghost predicate CoincideAt(before: seq<Exchange>, now: seq<Exchange>, i: int, j: int)
    requires |now| <= |before|
  {
    && Lost(before, now, i) && Gained(before, now, j)
    && (forall k :: Lost(before, now, k) ==> k == i) && (forall k :: Gained(before, now, k) ==> k == j)
    && FirstAlike(now, j - (|before| - |now|), before[i])
  }

  /** What is told of the first exchanges, up to `last`, is told in the words of `e`. */
  predicate FirstAlike(exchanges: seq<Exchange>, last: int, e: Exchange)
    requires last < |exchanges|
  {
    forall k :: 0 <= k <= last && Complete(exchanges[k]) ==> SameWords(e, exchanges[k])
  }

  /** What is told of the exchanges no newer than `id` is told in the words of `e`. */
  ghost predicate OlderAlike(exchanges: seq<Exchange>, id: nat, e: Exchange) {
    forall x :: x in exchanges && x.id <= id && Complete(x) ==> SameWords(e, x)
  }

  function Told(e: Exchange): seq<Exchange> {
    if Complete(e) then [e] else []
  }

  lemma OneMoreInLine(prior: seq<Exchange>, e: Exchange)
    ensures CompleteOnes(prior + [e]) == CompleteOnes(prior) + Told(e)
  {
    hide AnswerTextOf;
    assert (prior + [e])[..|prior|] == prior;
    assert CompleteOnes(prior) + [] == CompleteOnes(prior);
  }

  lemma ToldOfOne(exchanges: seq<Exchange>)
    requires |exchanges| == 1
    ensures CompleteOnes(exchanges) == Told(exchanges[0])
  {
    NoneInLine(exchanges[..0]);
    OneMoreInLine(exchanges[..0], exchanges[0]);
    hide CompleteOnes;
    hide Told;
    FrontAndLast(exchanges);
    assert [] + Told(exchanges[0]) == Told(exchanges[0]);
  }

  lemma ToldOfTwo(exchanges: seq<Exchange>)
    requires |exchanges| == 2
    ensures CompleteOnes(exchanges) == Told(exchanges[0]) + Told(exchanges[1])
  {
    hide CompleteOnes;
    hide Told;
    ToldOfOne(exchanges[..1]);
    OneMoreInLine(exchanges[..1], exchanges[1]);
    FrontAndLast(exchanges);
  }

  lemma ToldOfThree(exchanges: seq<Exchange>)
    requires |exchanges| == 3
    ensures CompleteOnes(exchanges) == Told(exchanges[0]) + Told(exchanges[1]) + Told(exchanges[2])
  {
    hide CompleteOnes;
    hide Told;
    ToldOfTwo(exchanges[..2]);
    OneMoreInLine(exchanges[..2], exchanges[2]);
    FrontAndLast(exchanges);
  }

  lemma NoneInLine(none: seq<Exchange>)
    requires none == []
    ensures CompleteOnes(none) == []
  {
  }

  ghost predicate Settled(before: seq<Exchange>, now: seq<Exchange>)
    requires |now| <= |before|
  {
    (forall i :: !Lost(before, now, i) && !Gained(before, now, i)) || Coincide(before, now)
  }

  lemma {:induction false} AlikeWhenNoneLeft(before: seq<Exchange>, now: seq<Exchange>)
    requires InLine(before, now) && now == []
    ensures ToldAlike(CompleteOnes(before), CompleteOnes(now)) <==> Settled(before, now)
  {
    hide AnswerTextOf;
    NoneInLine(now);
    assert forall i :: !Gained(before, now, i);
    assert ToldAlike(CompleteOnes(before), CompleteOnes(now)) <==> CompleteOnes(before) == [];
    if i :| Lost(before, now, i) {
      assert before[i] in CompleteOnes(before);
    }
    if CompleteOnes(before) != [] {
      var e := CompleteOnes(before)[0];
      assert e in CompleteOnes(before);
      var k :| 0 <= k < |before| && before[k] == e;
      assert Lost(before, now, k);
    }
  }

  lemma {:induction false} LongerByTheGained(before: seq<Exchange>, now: seq<Exchange>)
    requires |now| == |before| && forall i :: 0 <= i < |now| ==> Continues(before[i], now[i])
    ensures |CompleteOnes(now)| >= |CompleteOnes(before)|
    ensures (exists j :: Gained(before, now, j)) ==> |CompleteOnes(now)| > |CompleteOnes(before)|
    decreases |before|
  {
    hide CompleteOnes;
    hide AnswerTextOf;
    if before != [] {
      var n := |before| - 1;
      LongerByTheGained(before[..n], now[..n]);
      FrontAndLast(before);
      FrontAndLast(now);
      OneMoreInLine(before[..n], before[n]);
      OneMoreInLine(now[..n], now[n]);
      assert Continues(before[n], now[n]);
      if j :| Gained(before, now, j) {
        assert j < n ==> Gained(before[..n], now[..n], j);
      }
    }
  }

  lemma AlikeWhenAllStay(before: seq<Exchange>, now: seq<Exchange>)
    requires InLine(before, now) && |now| == |before|
    ensures ToldAlike(CompleteOnes(before), CompleteOnes(now)) <==> Settled(before, now)
  {
    hide CompleteOnes;
    hide AnswerTextOf;
    assert forall i :: 0 <= i < |now| ==> Continues(before[i], now[i]);
    LongerByTheGained(before, now);
    SameToldExactlyWhen(before, now);
  }

  predicate TwoOneWords(before: seq<Exchange>, now: seq<Exchange>)
    requires |before| == 2 && |now| == 1
  {
    var gained := !Complete(before[1]) && Complete(now[0]);
    (!Complete(before[0]) && !gained) || (Complete(before[0]) && gained && SameWords(before[0], now[0]))
  }

  lemma TwoOneAlike(before: seq<Exchange>, now: seq<Exchange>)
    requires InLine(before, now) && |before| == 2 && |now| == 1
    ensures ToldAlike(CompleteOnes(before), CompleteOnes(now)) <==> TwoOneWords(before, now)
  {
    ToldOfTwo(before);
    ToldOfOne(now);
    hide CompleteOnes;
    hide AnswerTextOf;
    assert Continues(before[1], now[0]);
  }

  lemma TwoOneSettled(before: seq<Exchange>, now: seq<Exchange>)
    requires InLine(before, now) && |before| == 2 && |now| == 1
    ensures Settled(before, now) <==> TwoOneWords(before, now)
  {
    hide AnswerTextOf;
    hide SameWords;
    assert Continues(before[1], now[0]);
    assert Lost(before, now, 0) <==> Complete(before[0]);
    assert Gained(before, now, 1) <==> !Complete(before[1]) && Complete(now[0]);
    if TwoOneWords(before, now) && Complete(before[0]) {
      assert CoincideAt(before, now, 0, 1);
    }
    if i, j :| CoincideAt(before, now, i, j) {
      assert i == 0 && j == 1;
    }
  }

  predicate ThreeOneWords(before: seq<Exchange>, now: seq<Exchange>)
    requires |before| == 3 && |now| == 1
  {
    var gained := !Complete(before[2]) && Complete(now[0]);
    || (!Complete(before[0]) && !Complete(before[1]) && !gained)
    || (Complete(before[0]) && !Complete(before[1]) && gained && SameWords(before[0], now[0]))
    || (!Complete(before[0]) && Complete(before[1]) && gained && SameWords(before[1], now[0]))
  }

  lemma ThreeOneAlike(before: seq<Exchange>, now: seq<Exchange>)
    requires InLine(before, now) && |before| == 3 && |now| == 1
    ensures ToldAlike(CompleteOnes(before), CompleteOnes(now)) <==> ThreeOneWords(before, now)
  {
    ToldOfThree(before);
    ToldOfOne(now);
    hide CompleteOnes;
    hide AnswerTextOf;
    assert Continues(before[2], now[0]);
  }

  lemma ThreeOneSettled(before: seq<Exchange>, now: seq<Exchange>)
    requires InLine(before, now) && |before| == 3 && |now| == 1
    ensures Settled(before, now) <==> ThreeOneWords(before, now)
  {
    hide AnswerTextOf;
    hide SameWords;
    assert Continues(before[2], now[0]);
    assert Lost(before, now, 0) <==> Complete(before[0]);
    assert Lost(before, now, 1) <==> Complete(before[1]);
    assert Gained(before, now, 2) <==> !Complete(before[2]) && Complete(now[0]);
    if ThreeOneWords(before, now) && (Complete(before[0]) || Complete(before[1])) {
      assert CoincideAt(before, now, if Complete(before[0]) then 0 else 1, 2);
    }
    if i, j :| CoincideAt(before, now, i, j) {
      assert (i == 0 || i == 1) && j == 2;
    }
  }

  predicate ThreeTwoWords(before: seq<Exchange>, now: seq<Exchange>)
    requires |before| == 3 && |now| == 2
  {
    var gained0 := !Complete(before[1]) && Complete(now[0]);
    var gained1 := !Complete(before[2]) && Complete(now[1]);
    || (!Complete(before[0]) && !gained0 && !gained1)
    || (Complete(before[0]) && gained0 && !gained1 && SameWords(before[0], now[0]))
    || (Complete(before[0]) && !gained0 && gained1 && SameWords(before[0], now[1]) && (Complete(now[0]) ==> SameWords(before[0], now[0])))
  }

  lemma ThreeTwoAlike(before: seq<Exchange>, now: seq<Exchange>)
    requires InLine(before, now) && |before| == 3 && |now| == 2
    ensures ToldAlike(CompleteOnes(before), CompleteOnes(now)) <==> ThreeTwoWords(before, now)
  {
    ToldOfThree(before);
    ToldOfTwo(now);
    hide CompleteOnes;
    hide AnswerTextOf;
    assert Continues(before[1], now[0]) && Continues(before[2], now[1]);
    WordsOfOneTwo(before[0], before[1], before[2], now[0], now[1]);
  }

  lemma WordsOfOneTwo(a: Exchange, b: Exchange, c: Exchange, d: Exchange, e: Exchange)
    requires Continues(b, d) && Continues(c, e)
    ensures ToldAlike(Told(a) + Told(b) + Told(c), Told(d) + Told(e)) <==> ThreeTwoWords([a, b, c], [d, e])
  {
    hide AnswerTextOf;
    var s, t := Told(a) + Told(b) + Told(c), Told(d) + Told(e);
    assert t == if Complete(d) then (if Complete(e) then [d, e] else [d]) else Told(e);
    if !Complete(a) {
      assert s == Told(b) + Told(c);
    } else if Complete(b) {
      assert s == if Complete(c) then [a, b, c] else [a, b];
    } else {
      assert s == if Complete(c) then [a, c] else [a];
    }
  }

  lemma ThreeTwoSettled(before: seq<Exchange>, now: seq<Exchange>)
    requires InLine(before, now) && |before| == 3 && |now| == 2
    ensures Settled(before, now) <==> ThreeTwoWords(before, now)
  {
    hide AnswerTextOf;
    hide SameWords;
    assert Continues(before[1], now[0]) && Continues(before[2], now[1]);
    assert Lost(before, now, 0) <==> Complete(before[0]);
    assert Gained(before, now, 1) <==> !Complete(before[1]) && Complete(now[0]);
    assert Gained(before, now, 2) <==> !Complete(before[2]) && Complete(now[1]);
    if ThreeTwoWords(before, now) && Complete(before[0]) {
      assert CoincideAt(before, now, 0, if Gained(before, now, 1) then 1 else 2);
    }
    if i, j :| CoincideAt(before, now, i, j) {
      assert i == 0 && (j == 1 || j == 2);
    }
  }

  /** What stands in line now is told in the same words exactly when nothing was lost or gained, or the words coincide. */
  lemma ToldAlikeExactlyWhen(before: seq<Exchange>, now: seq<Exchange>)
    requires InLine(before, now) && |before| < MAX_EXCHANGES
    ensures ToldAlike(CompleteOnes(before), CompleteOnes(now)) <==> Settled(before, now)
  {
    hide CompleteOnes;
    hide Settled;
    hide ToldAlike;
    if now == [] {
      AlikeWhenNoneLeft(before, now);
    } else if |now| == |before| {
      AlikeWhenAllStay(before, now);
    } else if |before| == 2 {
      TwoOneAlike(before, now);
      TwoOneSettled(before, now);
    } else if |now| == 1 {
      ThreeOneAlike(before, now);
      ThreeOneSettled(before, now);
    } else {
      ThreeTwoAlike(before, now);
      ThreeTwoSettled(before, now);
    }
  }

  // ---------------------------------------------------------------------------------------------
  // When a retry sends what was sent before
  // ---------------------------------------------------------------------------------------------

  /** A new question has pushed out exchange `i`, which had an answer when the question at `q` was asked. */
  ghost predicate ToldThenPushedOut(m: Machine, q: nat, events: seq<Event>, i: int) {
    0 <= i < q < |m.exchanges| && Complete(m.exchanges[i]) && PushedOutSince(m, events, m.exchanges[i].id)
  }

  /** An answer has come to exchange `j`, which had none when the question at `q` was asked, and it is still there. */
  ghost predicate AnsweredAndThere(m: Machine, q: nat, events: seq<Event>, j: int) {
    && 0 <= j < q < |m.exchanges| && !Complete(m.exchanges[j])
    && AnsweredSince(m, events, m.exchanges[j].id) && !PushedOutSince(m, events, m.exchanges[j].id)
  }

  /** Nothing that was told has been pushed out, and nothing before the question has been answered since. */
  ghost predicate NothingHappenedBefore(m: Machine, q: nat, events: seq<Event>) {
    forall i :: !ToldThenPushedOut(m, q, events, i) && !AnsweredAndThere(m, q, events, i)
  }

  /** One answered exchange was pushed out and one was answered, and everything told up to the latter has the words of
      the former. */
  ghost predicate WordsCoincide(m: Machine, q: nat, events: seq<Event>) {
    exists i, j :: WordsCoincideAt(m, q, events, i, j)
  }

  ghost predicate WordsCoincideAt(m: Machine, q: nat, events: seq<Event>, i: int, j: int) {
    && ToldThenPushedOut(m, q, events, i) && AnsweredAndThere(m, q, events, j)
    && (forall k :: ToldThenPushedOut(m, q, events, k) ==> k == i) && (forall k :: AnsweredAndThere(m, q, events, k) ==> k == j)
    && OlderAlike(Run(m, events).exchanges, m.exchanges[j].id, m.exchanges[i])
  }

  /** What the events did is what can be seen in the line. */
  lemma SeenInTheLine(m: Machine, q: nat, events: seq<Event>, p: nat, i: nat)
    requires Inv(m) && i < q < |m.exchanges|
    requires p < |Run(m, events).exchanges| && Run(m, events).exchanges[p].id == m.exchanges[q].id
    ensures p <= q
    ensures ToldThenPushedOut(m, q, events, i) <==> Lost(m.exchanges[..q], Run(m, events).exchanges[..p], i)
    ensures AnsweredAndThere(m, q, events, i) <==> Gained(m.exchanges[..q], Run(m, events).exchanges[..p], i)
  {
    hide Run;
    hide Inv;
    hide Complete;
    hide PushedOutSince;
    hide AnsweredSince;
    PushedOutAre(m, q, events, p, i);
    if i >= q - p {
      AnsweredAre(m, q, events, p, i - (q - p));
    }
  }

  lemma LineOf(m: Machine, q: nat, events: seq<Event>, p: nat)
    requires Inv(m) && q < |m.exchanges|
    requires p < |Run(m, events).exchanges| && Run(m, events).exchanges[p].id == m.exchanges[q].id
    ensures p <= q && InLine(m.exchanges[..q], Run(m, events).exchanges[..p])
  {
    hide Run;
    hide Continues;
    hide Aligned;
    StaysAligned(m, q, events, p);
    LaterIdsIncrease(m, events);
    AlignedIsInLine(m.exchanges, q, Run(m, events).exchanges, p);
  }

  lemma AlignedIsInLine(before: seq<Exchange>, q: nat, now: seq<Exchange>, p: nat)
    requires IdsIncrease(before) && IdsIncrease(now) && Aligned(before, q, now, p)
    ensures InLine(before[..q], now[..p])
  {
    hide Continues;
    forall i | 0 <= i < p ensures Continues(before[..q][q - p + i], now[..p][i]) {
      assert Continues(before[q - p + i], now[i]);
    }
  }

  lemma NothingHappenedIs(m: Machine, q: nat, events: seq<Event>, p: nat)
    requires Inv(m) && q < |m.exchanges|
    requires p < |Run(m, events).exchanges| && Run(m, events).exchanges[p].id == m.exchanges[q].id
    ensures p <= q
    ensures var before, now := m.exchanges[..q], Run(m, events).exchanges[..p];
            NothingHappenedBefore(m, q, events) <==> forall i :: !Lost(before, now, i) && !Gained(before, now, i)
  {
    LineOf(m, q, events, p);
    hide Run;
    hide Inv;
    hide InLine;
    var before, now := m.exchanges[..q], Run(m, events).exchanges[..p];
    forall i | 0 <= i < q
      ensures ToldThenPushedOut(m, q, events, i) <==> Lost(before, now, i)
      ensures AnsweredAndThere(m, q, events, i) <==> Gained(before, now, i)
    {
      SeenInTheLine(m, q, events, p, i);
    }
    hide PushedOutSince;
    hide AnsweredSince;
    hide Complete;
  }

  lemma WordsCoincideIs(m: Machine, q: nat, events: seq<Event>, p: nat)
    requires Inv(m) && q < |m.exchanges|
    requires p < |Run(m, events).exchanges| && Run(m, events).exchanges[p].id == m.exchanges[q].id
    ensures p <= q
    ensures WordsCoincide(m, q, events) <==> Coincide(m.exchanges[..q], Run(m, events).exchanges[..p])
  {
    hide Run;
    hide Inv;
    hide Complete;
    LineOf(m, q, events, p);
    var before, now := m.exchanges[..q], Run(m, events).exchanges[..p];
    forall i, j ensures WordsCoincideAt(m, q, events, i, j) <==> CoincideAt(before, now, i, j) {
      if 0 <= i < q && 0 <= j < q {
        WordsCoincideAtIs(m, q, events, p, i, j);
      }
    }
  }

  lemma WordsCoincideAtIs(m: Machine, q: nat, events: seq<Event>, p: nat, i: nat, j: nat)
    requires Inv(m) && q < |m.exchanges| && i < q && j < q
    requires p < |Run(m, events).exchanges| && Run(m, events).exchanges[p].id == m.exchanges[q].id
    ensures p <= q
    ensures WordsCoincideAt(m, q, events, i, j) <==> CoincideAt(m.exchanges[..q], Run(m, events).exchanges[..p], i, j)
  {
    hide Run;
    hide Complete;
    hide PushedOutSince;
    hide AnsweredSince;
    hide FirstAlike;
    hide OlderAlike;
    LineOf(m, q, events, p);
    RunKeeps(m, events);
    hide Inv;
    hide InLine;
    var later := Run(m, events).exchanges;
    var before, now := m.exchanges[..q], later[..p];
    forall k | 0 <= k < q
      ensures ToldThenPushedOut(m, q, events, k) <==> Lost(before, now, k)
      ensures AnsweredAndThere(m, q, events, k) <==> Gained(before, now, k)
    {
      SeenInTheLine(m, q, events, p, k);
    }
    hide ToldThenPushedOut;
    hide AnsweredAndThere;
    if j >= q - p {
      LaterIdsIncrease(m, events);
      UpToThere(m.exchanges, q, later, p, i, j);
    }
  }

  lemma LaterIdsIncrease(m: Machine, events: seq<Event>)
    requires Inv(m)
    ensures IdsIncrease(Run(m, events).exchanges)
  {
    hide Run;
    hide Inv;
    RunKeeps(m, events);
    InOrder(Run(m, events));
  }

  lemma UpToThere(first: seq<Exchange>, q: nat, later: seq<Exchange>, p: nat, i: nat, j: nat)
    requires p <= q < |first| && p < |later| && IdsIncrease(later) && InLine(first[..q], later[..p]) && i < q && q - p <= j < q
    ensures FirstAlike(later[..p], j - (q - p), first[i]) <==> OlderAlike(later, first[j].id, first[i])
  {
    hide Complete;
    hide SameWords;
    var last := j - (q - p);
    assert Continues(first[..q][q - p + last], later[..p][last]);
    forall k | 0 <= k < |later| ensures later[k].id <= first[j].id <==> k <= last {
      DifferentIds(later, k, last);
    }
    assert forall k :: 0 <= k <= last ==> later[..p][k] == later[k] && later[k] in later;
  }

  /** What is told now is told in the words of then exactly when nothing happened before the question, or the words
      coincide. */
  lemma SameHistoryExactlyWhen(m: Machine, q: nat, events: seq<Event>, p: nat)
    requires Inv(m) && q < |m.exchanges|
    requires p < |Run(m, events).exchanges| && Run(m, events).exchanges[p].id == m.exchanges[q].id
    ensures HistoryOf(m.exchanges[..q]) == HistoryOf(Run(m, events).exchanges[..p])
       <==> NothingHappenedBefore(m, q, events) || WordsCoincide(m, q, events)
    ensures CompleteOnes(m.exchanges[..q]) == CompleteOnes(Run(m, events).exchanges[..p]) <==> NothingHappenedBefore(m, q, events)
  {
    FewBefore(m, q);
    LineOf(m, q, events, p);
    NothingHappenedIs(m, q, events, p);
    WordsCoincideIs(m, q, events, p);
    hide Run;
    hide Inv;
    hide NothingHappenedBefore;
    hide WordsCoincide;
    hide InLine;
    hide CompleteOnes;
    hide HistoryOf;
    var before, now := m.exchanges[..q], Run(m, events).exchanges[..p];
    SameHistories(before, now);
    ToldAlikeExactlyWhen(before, now);
    SameToldExactlyWhen(before, now);
  }

  lemma FewBefore(m: Machine, q: nat)
    requires Inv(m) && q < |m.exchanges|
    ensures q < MAX_EXCHANGES
  {
    InOrder(m);
  }

  lemma RetrySends(asked: Entry, later: Machine, p: nat)
    requires Inv(later) && !later.inFlight && SameQuestion(later, asked)
    requires p < |later.exchanges| && later.exchanges[p].id == asked.id && Retryable(later.exchanges[p])
    ensures Retry(later, p).log == later.log + [Asked(asked.scope, asked.id, asked.question, HistoryOf(later.exchanges[..p]))]
  {
    hide HistoryOf;
    ResendIs(later, p);
    hide Resend;
    hide Inv;
  }

  /** Whatever happened since a question was sent, retrying it adds the very same entry to what was sent, history and
      all, exactly when no exchange told with it has been pushed out and none before it has been answered since, unless
      the words of those happen to coincide. */
  lemma ARetrySendsTheSameExactlyWhen(m: Machine, e: Event, events: seq<Event>, later: Machine, q: nat, p: nat)
    requires Reachable(m) && (e.Sends? || e.Retries?) && |Next(m, e).log| > |m.log|
    requires q < |Next(m, e).exchanges| && Next(m, e).exchanges[q].id == Next(m, e).log[|m.log|].id
    requires later == Run(Next(m, e), events) && !later.inFlight
    requires p < |later.exchanges| && later.exchanges[p].id == Next(m, e).log[|m.log|].id && Retryable(later.exchanges[p])
    ensures Retry(later, p).log == later.log + [Next(m, e).log[|m.log|]]
       <==> NothingHappenedBefore(Next(m, e), q, events) || WordsCoincide(Next(m, e), q, events)
  {
    hide Next;
    hide Run;
    ReachableKeeps(m);
    NextKeeps(m, e);
    var sent := Next(m, e);
    var asked := sent.log[|m.log|];
    ItStands(m, e, q);
    RunKeeps(sent, events);
    OnlyOneHasTheId(sent, q, asked);
    QuestionStaysThroughout(sent, events, asked);
    hide Inv;
    RetrySends(asked, later, p);
    SameHistoryExactlyWhen(sent, q, events, p);
    hide HistoryOf;
    hide CompleteOnes;
    hide Retry;
    hide NothingHappenedBefore;
    hide WordsCoincide;
    assert asked == Asked(asked.scope, asked.id, asked.question, asked.history);
    LastEntries(later.log, Asked(asked.scope, asked.id, asked.question, HistoryOf(later.exchanges[..p])), asked);
  }

  lemma ItStands(m: Machine, e: Event, q: nat)
    requires Inv(m) && (e.Sends? || e.Retries?) && |Next(m, e).log| > |m.log|
    requires q < |Next(m, e).exchanges| && Next(m, e).exchanges[q].id == Next(m, e).log[|m.log|].id
    ensures Stands(Next(m, e), q, Next(m, e).log[|m.log|])
  {
    NextKeeps(m, e);
    ExchangeIsPlaced(m, e);
    hide Next;
    hide HistoryOf;
    var s :| Stands(Next(m, e), s, Next(m, e).log[|m.log|]);
    DifferentIds(Next(m, e).exchanges, s, q);
  }

  lemma LastEntries(log: seq<Entry>, a: Entry, b: Entry)
    ensures log + [a] == log + [b] <==> a == b
  {
    assert (log + [a])[|log|] == a && (log + [b])[|log|] == b;
  }

  lemma OnlyOneHasTheId(m: Machine, q: nat, asked: Entry)
    requires ExchangesOk(m) && Stands(m, q, asked)
    ensures SameQuestion(m, asked)
  {
    assert ExchangeOk(m, m.exchanges[q]);
    forall i | 0 <= i < |m.exchanges| && m.exchanges[i].id == asked.id ensures i == q {
      DifferentIds(m.exchanges, i, q);
    }
    hide ExchangesOk;
  }

  lemma HistoryOfLonger(prior: seq<Exchange>, e: Exchange)
    ensures |HistoryOf(prior + [e])| == |HistoryOf(prior)| + (if Complete(e) then 2 else 0)
  {
    assert (prior + [e])[..|prior|] == prior;
  }

  lemma {:induction false} OneMoreTold(prior: seq<Exchange>, i: nat, answered: Exchange)
    requires i < |prior| && !Complete(prior[i]) && Complete(answered)
    ensures |HistoryOf(prior[i := answered])| == |HistoryOf(prior)| + 2
    decreases |prior|
  {
    var last := |prior| - 1;
    var front := prior[..last];
    FrontAndLast(prior);
    HistoryOfLonger(front, prior[last]);
    if i < last {
      OneMoreTold(front, i, answered);
      HistoryOfLonger(front[i := answered], prior[last]);
      UpdateBeforeLast(prior, i, answered);
    } else {
      HistoryOfLonger(front, answered);
      UpdateLast(prior, answered);
    }
  }

  lemma RetryAsks(m: Machine, j: nat)
    requires Inv(m) && !m.inFlight && j < |m.exchanges| && Retryable(m.exchanges[j])
    ensures Retry(m, j) == Reposed(m, j, HistoryOf(m.exchanges[..j]))
    ensures Inv(Retry(m, j))
  {
    ResendIs(m, j);
    PositionIs(m.exchanges, j);
    ReposedKeeps(m, j, HistoryOf(m.exchanges[..j]));
  }

  lemma AnsweredRetry(m: Machine, i: nat, history: seq<Message>, result: ApiResult<AskResponse>)
    requires Inv(m) && !m.inFlight && i < |m.exchanges|
    requires Inv(Reposed(m, i, history))
    ensures var later := Land(Reposed(m, i, history), m.token + 1, result);
            && Inv(later) && !later.inFlight && later.scope == m.scope
            && later.exchanges == m.exchanges[i := m.exchanges[i].(state := StateFromResult(result))]
  {
    var waiting := Reposed(m, i, history);
    LandKeeps(waiting, m.token + 1, result);
    SettledIsUpdated(waiting.exchanges, i, StateFromResult(result));
  }

  /** `Retry` of exchange `j` asks its question with `history`. */
  ghost predicate RetriedWith(m: Machine, j: nat, history: seq<Message>) {
    && j < |m.exchanges|
    && Retry(m, j).log == m.log + [Asked(m.scope, m.exchanges[j].id, m.exchanges[j].question, history)]
  }

  lemma TheRetried(m: Machine, j: nat)
    requires Inv(m) && !m.inFlight && j < |m.exchanges| && Retryable(m.exchanges[j])
    ensures RetriedWith(m, j, HistoryOf(m.exchanges[..j]))
  {
    RetryAsks(m, j);
  }

  /** A retry does not always repeat the history its question first had: once an earlier question that had failed
      too is retried and answered, Mia is told one question and one answer more. */
  lemma AnEarlierRetryIsTold(m: Machine, i: nat, j: nat, data: AskResponse)
    requires Reachable(m) && !m.inFlight
    requires i < j < |m.exchanges| && Retryable(m.exchanges[i]) && Retryable(m.exchanges[j])
    requires AnswerTextOf(StateFromResponse(data)).Some?
    ensures var later := Land(Retry(m, i), m.token + 1, Ok(data));
            exists first, second :: RetriedWith(m, j, first) && RetriedWith(later, j, second) && |second| == |first| + 2
  {
    ReachableKeeps(m);
    LaterRetryIsLonger(m, i, j, data);
  }

  lemma LaterRetryIsLonger(m: Machine, i: nat, j: nat, data: AskResponse)
    requires Inv(m) && !m.inFlight
    requires i < j < |m.exchanges| && Retryable(m.exchanges[i]) && Retryable(m.exchanges[j])
    requires AnswerTextOf(StateFromResponse(data)).Some?
    ensures var later := Land(Retry(m, i), m.token + 1, Ok(data));
            exists first, second :: RetriedWith(m, j, first) && RetriedWith(later, j, second) && |second| == |first| + 2
  {
    RetryAsks(m, i);
    AnsweredRetry(m, i, HistoryOf(m.exchanges[..i]), Ok(data));
    TheRetried(m, j);
    ToldOneMore(m, Land(Retry(m, i), m.token + 1, Ok(data)), i, j, StateFromResponse(data));
  }

  lemma FailedIsNotTold(e: Exchange)
    requires Retryable(e)
    ensures !Complete(e)
  {
  }

  lemma ToldOneMore(m: Machine, later: Machine, i: nat, j: nat, state: AskState)
    requires Inv(later) && !later.inFlight
    requires i < j < |m.exchanges| && Retryable(m.exchanges[i]) && Retryable(m.exchanges[j])
    requires later.exchanges == m.exchanges[i := m.exchanges[i].(state := state)]
    requires AnswerTextOf(state).Some?
    ensures RetriedWith(later, j, HistoryOf(later.exchanges[..j]))
    ensures |HistoryOf(later.exchanges[..j])| == |HistoryOf(m.exchanges[..j])| + 2
  {
    var answered := m.exchanges[i].(state := state);
    TheRetried(later, j);
    hide Inv;
    FailedIsNotTold(m.exchanges[i]);
    hide AnswerTextOf;
    hide HistoryOf;
    UpdateWithin(m.exchanges, i, j, answered);
    assert m.exchanges[..j][i] == m.exchanges[i];
    OneMoreTold(m.exchanges[..j], i, answered);
  }

  // ---------------------------------------------------------------------------------------------
  // Two runs in which a retry is told something else, or the same by coincidence
  // ---------------------------------------------------------------------------------------------

  lemma ReachableNext(m: Machine, e: Event)
    requires Reachable(m)
    ensures Reachable(Next(m, e))
  {
    hide Next;
    var scope, events :| m == Run(Start(scope), events);
    var longer := events + [e];
    assert longer[..|events|] == events;
    assert Next(m, e) == Run(Start(scope), longer);
  }

  /** A question and its answer. */
  function AskedAndAnswered(m: Machine, text: string, result: ApiResult<AskResponse>): Machine {
    Next(Next(m, Sends(text)), Lands(m.token + 1, result))
  }

  function RetriedAndAnswered(m: Machine, i: nat, result: ApiResult<AskResponse>): Machine {
    Next(Next(m, Retries(i)), Lands(m.token + 1, result))
  }

  /** A reachable state at rest, with these exchanges on screen. */
  ghost predicate Shows(m: Machine, nextId: nat, exchanges: seq<Exchange>) {
    Reachable(m) && !m.inFlight && m.nextId == nextId && m.exchanges == exchanges
  }

  function Recent(exchanges: seq<Exchange>): seq<Exchange> {
    if |exchanges| < MAX_EXCHANGES then exchanges else exchanges[|exchanges| + 1 - MAX_EXCHANGES..]
  }

  lemma AnsweredQuestion(m: Machine, question: string, kept: seq<Exchange>, history: seq<Message>, result: ApiResult<AskResponse>)
    requires !m.inFlight && Inv(Posed(m, question, kept, history))
    ensures var after := Land(Posed(m, question, kept, history), m.token + 1, result);
            && !after.inFlight && after.nextId == m.nextId + 1
            && after.exchanges == kept + [Exchange(m.nextId, question, StateFromResult(result))]
  {
    hide StateFromResult;
    hide Inv;
    var sent := Posed(m, question, kept, history);
    InOrder(sent);
    SettledIsUpdated(sent.exchanges, |kept|, StateFromResult(result));
  }

  lemma AskingIsRun(m: Machine, text: string, result: ApiResult<AskResponse>)
    requires Reachable(m)
    ensures Reachable(Next(m, Sends(text))) && Reachable(AskedAndAnswered(m, text, result))
  {
    hide Next;
    hide Reachable;
    ReachableNext(m, Sends(text));
    ReachableNext(Next(m, Sends(text)), Lands(m.token + 1, result));
  }

  lemma AskedNext(m: Machine, text: string)
    requires Inv(m) && !m.inFlight && Trim(text) == text != ""
    ensures Next(m, Sends(text)) == Posed(m, text, Recent(m.exchanges), HistoryOf(Recent(m.exchanges)))
    ensures Inv(Next(m, Sends(text)))
  {
    hide Inv;
    hide Trim;
    hide HistoryOf;
    InOrder(m);
    NextKeeps(m, Sends(text));
    SendNewIs(m, text);
    hide SendNew;
    assert m.exchanges[0..] == m.exchanges;
  }

  /** Asking and answering adds an exchange behind the most recent ones. */
  lemma AskedShows(m: Machine, nextId: nat, exchanges: seq<Exchange>, text: string, result: ApiResult<AskResponse>, state: AskState)
    requires Shows(m, nextId, exchanges) && |text| == 1 && 'a' <= text[0] <= 'z' && StateFromResult(result) == state
    ensures Shows(AskedAndAnswered(m, text, result), nextId + 1, Recent(exchanges) + [Exchange(nextId, text, state)])
  {
    hide Inv;
    hide StateFromResult;
    hide HistoryOf;
    hide Trim;
    hide Next;
    hide Posed;
    hide Recent;
    hide Land;
    hide AskedAndAnswered;
    hide Reachable;
    AskingIsRun(m, text, result);
    ReachableKeeps(m);
    OneLetter(text);
    AskedNext(m, text);
    AnsweredQuestion(m, text, Recent(exchanges), HistoryOf(Recent(exchanges)), result);
    AnsweredIsLand(m, text, result);
  }

  lemma AnsweredIsLand(m: Machine, text: string, result: ApiResult<AskResponse>)
    ensures AskedAndAnswered(m, text, result) == Land(Next(m, Sends(text)), m.token + 1, result)
  {
    hide SendNew;
    hide Land;
  }

  lemma RetryingIsRun(m: Machine, i: nat, result: ApiResult<AskResponse>)
    requires Reachable(m)
    ensures Reachable(RetriedAndAnswered(m, i, result))
  {
    hide Next;
    hide Reachable;
    ReachableNext(m, Retries(i));
    ReachableNext(Next(m, Retries(i)), Lands(m.token + 1, result));
  }

  lemma RetriedNextId(m: Machine, i: nat, history: seq<Message>, result: ApiResult<AskResponse>)
    requires i < |m.exchanges|
    ensures Land(Reposed(m, i, history), m.token + 1, result).nextId == m.nextId
  {
    hide SettledAll;
    hide StateFromResult;
  }

  /** Retrying and answering changes the exchange retried. */
  lemma RetriedShows(m: Machine, nextId: nat, exchanges: seq<Exchange>, i: nat, result: ApiResult<AskResponse>, state: AskState)
    requires Shows(m, nextId, exchanges) && i < |exchanges| && exchanges[i].state == Error && StateFromResult(result) == state
    ensures Shows(RetriedAndAnswered(m, i, result), nextId, exchanges[i := exchanges[i].(state := state)])
  {
    hide Inv;
    hide Retry;
    hide StateFromResult;
    hide HistoryOf;
    hide Land;
    hide Reposed;
    hide Reachable;
    hide RetriedAndAnswered;
    RetriedIs(m, i, result);
    RetryingIsRun(m, i, result);
    ReachableKeeps(m);
    RetryAsks(m, i);
    RetriedNextId(m, i, HistoryOf(m.exchanges[..i]), result);
    AnsweredRetry(m, i, HistoryOf(m.exchanges[..i]), result);
  }

  lemma RetriedIs(m: Machine, i: nat, result: ApiResult<AskResponse>)
    ensures RetriedAndAnswered(m, i, result) == Land(Retry(m, i), m.token + 1, result)
  {
    hide Land;
    hide Retry;
  }

  const FAILS: ApiResult<AskResponse> := Failed("NETWORK")
  const YES := AskResponse(ANSWERED, Some("yes"), [])
  const SAYS_YES := Answered("yes", [])

  lemma StatesOfResults()
    ensures StateFromResult(FAILS) == Error && StateFromResult(Ok(YES)) == SAYS_YES
    ensures AnswerTextOf(Error) == None && AnswerTextOf(SAYS_YES) == Some("yes")
  {
    TrimOfTrimmed("yes");
  }

  lemma StartShows(scope: Scope)
    ensures Shows(Start(scope), 0, [])
  {
    var none: seq<Event> := [];
    assert Start(scope) == Run(Start(scope), none);
  }

  lemma OneLetter(text: string)
    requires |text| == 1 && 'a' <= text[0] <= 'z'
    ensures Trimmed(text) && Trim(text) == text
  {
    TrimOfTrimmed(text);
  }

  lemma FirstShows(scope: Scope, text: string, result: ApiResult<AskResponse>, state: AskState)
    requires |text| == 1 && 'a' <= text[0] <= 'z' && StateFromResult(result) == state
    ensures Shows(AskedAndAnswered(Start(scope), text, result), 1, [Exchange(0, text, state)])
  {
    hide AskedAndAnswered;
    hide StateFromResult;
    StartShows(scope);
    AskedShows(Start(scope), 0, [], text, result, state);
    NothingBefore(Exchange(0, text, state));
    hide Shows;
  }

  lemma NothingBefore(e: Exchange)
    ensures Recent([]) + [e] == [e]
  {
  }

  function TwoFailed(scope: Scope): Machine {
    AskedAndAnswered(AskedAndAnswered(Start(scope), "a", FAILS), "b", FAILS)
  }

  lemma TwoFailedShows(scope: Scope)
    ensures Shows(TwoFailed(scope), 2, [Exchange(0, "a", Error), Exchange(1, "b", Error)])
  {
    hide AskedAndAnswered;
    hide StateFromResult;
    hide AnswerTextOf;
    hide Shows;
    StatesOfResults();
    FirstShows(scope, "a", FAILS, Error);
    AskedShows(AskedAndAnswered(Start(scope), "a", FAILS), 1, [Exchange(0, "a", Error)], "b", FAILS, Error);
    assert Recent([Exchange(0, "a", Error)]) + [Exchange(1, "b", Error)] == [Exchange(0, "a", Error), Exchange(1, "b", Error)];
  }

  lemma RetryOf(m: Machine, nextId: nat, exchanges: seq<Exchange>, j: nat, history: seq<Message>)
    requires Shows(m, nextId, exchanges) && j < |exchanges| && exchanges[j].state == Error && HistoryOf(exchanges[..j]) == history
    ensures RetriedWith(m, j, history)
  {
    hide Inv;
    ReachableKeeps(m);
    hide RetriedWith;
    hide HistoryOf;
    hide Reachable;
    TheRetried(m, j);
  }

  /** "a" and "b" fail, "a" is retried and answered: "b" was asked with nothing before it and is retried with "a" and its
      answer. */
  lemma ARetryToldMore(scope: Scope)
    ensures Reachable(TwoFailed(scope)) && Reachable(RetriedAndAnswered(TwoFailed(scope), 0, Ok(YES)))
    ensures RetriedWith(TwoFailed(scope), 1, [])
    ensures RetriedWith(RetriedAndAnswered(TwoFailed(scope), 0, Ok(YES)), 1, [Message(User, "a"), Message(Assistant, "yes")])
  {
    hide TwoFailed;
    hide RetriedAndAnswered;
    hide StateFromResult;
    hide AnswerTextOf;
    hide RetriedWith;
    hide HistoryOf;
    TwoFailedShows(scope);
    StatesOfResults();
    var m, failed := TwoFailed(scope), [Exchange(0, "a", Error), Exchange(1, "b", Error)];
    RetriedShows(m, 2, failed, 0, Ok(YES), SAYS_YES);
    var answered := failed[0 := Exchange(0, "a", SAYS_YES)];
    HistoryOfOne(failed[..1]);
    HistoryOfOne(answered[..1]);
    hide Reachable;
    RetryOf(m, 2, failed, 1, []);
    RetryOf(RetriedAndAnswered(m, 0, Ok(YES)), 2, answered, 1, [Message(User, "a"), Message(Assistant, "yes")]);
  }

  lemma HistoryOfOne(prior: seq<Exchange>)
    requires |prior| == 1
    ensures HistoryOf(prior) == MessagesOf(prior[0])
  {
    assert prior[..0] == [];
    assert HistoryOf(prior[..0]) == [];
  }

  lemma RunTwoMore(m: Machine, events: seq<Event>, e: Event, f: Event)
    ensures Run(m, events + [e, f]) == Next(Next(Run(m, events), e), f)
  {
    hide Next;
    var longer := events + [e, f];
    assert longer[..|longer| - 1] == events + [e];
    assert (events + [e])[..|events|] == events;
  }

  /** "q" is answered, asked again it fails, and "c" is about to be asked. */
  function QuestionTwice(scope: Scope): Machine {
    AskedAndAnswered(AskedAndAnswered(Start(scope), "q", Ok(YES)), "q", FAILS)
  }

  lemma QuestionTwiceShows(scope: Scope)
    ensures Shows(QuestionTwice(scope), 2, [Exchange(0, "q", SAYS_YES), Exchange(1, "q", Error)])
  {
    hide AskedAndAnswered;
    hide StateFromResult;
    hide AnswerTextOf;
    hide Shows;
    StatesOfResults();
    FirstShows(scope, "q", Ok(YES), SAYS_YES);
    AskedShows(AskedAndAnswered(Start(scope), "q", Ok(YES)), 1, [Exchange(0, "q", SAYS_YES)], "q", FAILS, Error);
    assert Recent([Exchange(0, "q", SAYS_YES)]) + [Exchange(1, "q", Error)] == [Exchange(0, "q", SAYS_YES), Exchange(1, "q", Error)];
  }

  /** "c" fails, the second "q" is retried and answered like the first, and two questions more push the first out. */
  function AndThen(m: Machine): Machine {
    AskedAndAnswered(AskedAndAnswered(RetriedAndAnswered(AskedAndAnswered(m, "c", FAILS), 1, Ok(YES)), "d", FAILS), "e", FAILS)
  }

  function Between(m: Machine): seq<Event> {
    var failed := AskedAndAnswered(m, "c", FAILS);
    var retried := RetriedAndAnswered(failed, 1, Ok(YES));
    var full := AskedAndAnswered(retried, "d", FAILS);
    [Lands(m.token + 1, FAILS)] + [Retries(1), Lands(failed.token + 1, Ok(YES))]
      + [Sends("d"), Lands(retried.token + 1, FAILS)] + [Sends("e"), Lands(full.token + 1, FAILS)]
  }

  lemma AndThenIsARun(m: Machine)
    ensures AndThen(m) == Run(Next(m, Sends("c")), Between(m))
  {
    hide Next;
    var sent := Next(m, Sends("c"));
    var failed := AskedAndAnswered(m, "c", FAILS);
    var retried := RetriedAndAnswered(failed, 1, Ok(YES));
    var full := AskedAndAnswered(retried, "d", FAILS);
    var first := [Lands(m.token + 1, FAILS)];
    assert first[..0] == [];
    assert Run(sent, first[..0]) == sent;
    assert Run(sent, first) == failed;
    hide Run;
    var second := first + [Retries(1), Lands(failed.token + 1, Ok(YES))];
    RunTwoMore(sent, first, Retries(1), Lands(failed.token + 1, Ok(YES)));
    assert Run(sent, second) == retried;
    RunTwoMore(sent, second, Sends("d"), Lands(retried.token + 1, FAILS));
    RunTwoMore(sent, second + [Sends("d"), Lands(retried.token + 1, FAILS)], Sends("e"), Lands(full.token + 1, FAILS));
  }

  lemma AndThenShows(m: Machine)
    requires Shows(m, 2, [Exchange(0, "q", SAYS_YES), Exchange(1, "q", Error)])
    ensures Shows(AndThen(m), 5, [Exchange(1, "q", SAYS_YES), Exchange(2, "c", Error), Exchange(3, "d", Error), Exchange(4, "e", Error)])
  {
    hide AskedAndAnswered;
    hide RetriedAndAnswered;
    hide StateFromResult;
    hide AnswerTextOf;
    hide Shows;
    StatesOfResults();
    var one, two, three := [Exchange(0, "q", SAYS_YES), Exchange(1, "q", Error)], Exchange(2, "c", Error), Exchange(3, "d", Error);
    AskedShows(m, 2, one, "c", FAILS, Error);
    var failed := AskedAndAnswered(m, "c", FAILS);
    assert Recent(one) + [two] == [one[0], one[1], two];
    RetriedShows(failed, 3, [one[0], one[1], two], 1, Ok(YES), SAYS_YES);
    var retried := RetriedAndAnswered(failed, 1, Ok(YES));
    var answered := Exchange(1, "q", SAYS_YES);
    assert [one[0], one[1], two][1 := answered] == [one[0], answered, two];
    AskedShows(retried, 3, [one[0], answered, two], "d", FAILS, Error);
    var full := AskedAndAnswered(retried, "d", FAILS);
    assert Recent([one[0], answered, two]) + [three] == [one[0], answered, two, three];
    AskedShows(full, 4, [one[0], answered, two, three], "e", FAILS, Error);
    assert Recent([one[0], answered, two, three]) + [Exchange(4, "e", Error)] == [answered, two, three, Exchange(4, "e", Error)];
  }

  lemma QuestionSent(m: Machine, exchanges: seq<Exchange>)
    requires Shows(m, 2, exchanges) && |exchanges| == 2
    ensures var sent := Next(m, Sends("c"));
            && Inv(sent) && |sent.log| == |m.log| + 1 && sent.log[|m.log|].Asked? && sent.log[|m.log|].id == 2
            && sent.exchanges == [exchanges[0], exchanges[1], Exchange(2, "c", Loading)]
  {
    hide Inv;
    hide HistoryOf;
    ReachableKeeps(m);
    hide Reachable;
    OneLetter("c");
    hide Trim;
    AskedNext(m, "c");
    hide SendNew;
  }

  lemma CoincidingTexts(before: seq<Exchange>, now: seq<Exchange>)
    requires before == [Exchange(0, "q", SAYS_YES), Exchange(1, "q", Error)] && now == [Exchange(1, "q", SAYS_YES)]
    ensures HistoryOf(before) == HistoryOf(now) && CompleteOnes(before) != CompleteOnes(now)
  {
    hide AnswerTextOf;
    hide CompleteOnes;
    hide HistoryOf;
    StatesOfResults();
    ToldOfTwo(before);
    ToldOfOne(now);
    assert Told(before[0]) + Told(before[1]) == [before[0]];
    SameHistories(before, now);
  }

  lemma SameByCoincidence(m: Machine, sent: Machine, events: seq<Event>, later: Machine)
    requires Reachable(m) && sent == Next(m, Sends("c")) && later == Run(sent, events) && Inv(sent)
    requires |sent.log| == |m.log| + 1 && sent.log[|m.log|].Asked? && sent.log[|m.log|].id == 2
    requires sent.exchanges == [Exchange(0, "q", SAYS_YES), Exchange(1, "q", Error), Exchange(2, "c", Loading)]
    requires Shows(later, 5, [Exchange(1, "q", SAYS_YES), Exchange(2, "c", Error), Exchange(3, "d", Error), Exchange(4, "e", Error)])
    ensures !NothingHappenedBefore(sent, 2, events)
    ensures Retry(later, 1).log == later.log + [sent.log[|m.log|]]
  {
    hide Reachable;
    hide Inv;
    hide Next;
    hide Run;
    hide Retry;
    hide NothingHappenedBefore;
    hide WordsCoincide;
    hide HistoryOf;
    hide CompleteOnes;
    ARetrySendsTheSameExactlyWhen(m, Sends("c"), events, later, 2, 1);
    SameHistoryExactlyWhen(sent, 2, events, 1);
    CoincidingTexts(sent.exchanges[..2], later.exchanges[..1]);
  }

  /** In this run what happened does show on screen, and the retry of "c" still sends what was sent. */
  lemma WordsMayCoincide(scope: Scope)
    ensures var m, later := QuestionTwice(scope), AndThen(QuestionTwice(scope));
            && Reachable(m) && |Next(m, Sends("c")).log| == |m.log| + 1 && later == Run(Next(m, Sends("c")), Between(m))
            && !NothingHappenedBefore(Next(m, Sends("c")), 2, Between(m))
            && Retry(later, 1).log == later.log + [Next(m, Sends("c")).log[|m.log|]]
  {
    hide QuestionTwice;
    hide AndThen;
    hide Between;
    hide Reachable;
    hide Inv;
    hide Next;
    hide Run;
    hide Retry;
    hide NothingHappenedBefore;
    QuestionTwiceShows(scope);
    var m := QuestionTwice(scope);
    AndThenShows(m);
    AndThenIsARun(m);
    QuestionSent(m, [Exchange(0, "q", SAYS_YES), Exchange(1, "q", Error)]);
    SameByCoincidence(m, Next(m, Sends("c")), Between(m), AndThen(m));
  }
}
