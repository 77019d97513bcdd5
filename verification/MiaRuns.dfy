/** What every run of the Mia conversation keeps. */
module MiaRuns {
  import opened Basics
  import opened Text
  import opened Conversation
  import opened Mia

  /** The backend answered this very exchange, in this analysis, with the text it shows. */
  ghost predicate ReallyAnswered(log: seq<Entry>, scope: Scope, e: Exchange) {
    exists data: AskResponse :: Replied(scope, e.id, e.question, Ok(data)) in log && StateFromResponse(data) == e.state
  }

  /** The history is at most three exchanges older than the one asked, oldest first, each a question and the text
      the backend, by then, had answered it with in the same analysis. */
  ghost predicate HistoryOk(before: seq<Entry>, asked: Entry)
    requires asked.Asked?
  {
    exists told: seq<Exchange> ::
      && Tells(asked.history, told)
      && |told| < MAX_EXCHANGES
      && IdsIncrease(told)
      && forall e :: e in told ==> e.id < asked.id && ReallyAnswered(before, asked.scope, e)
  }

  ghost predicate ExchangesOk(m: Machine) {
    && |m.exchanges| <= MAX_EXCHANGES
    && IdsIncrease(m.exchanges)
    && forall i :: 0 <= i < |m.exchanges| ==> ExchangeOk(m, m.exchanges[i])
  }

  ghost predicate ExchangeOk(m: Machine, e: Exchange) {
    && e.id < m.nextId
    && e.question != "" && Trimmed(e.question)
    && (Complete(e) ==> ReallyAnswered(m.log, m.scope, e))
    && (e.state.Loading? ==> m.inFlight && m.token in m.pending && m.pending[m.token].id == e.id)
  }

  /** The request the conversation waits for: its exchange is on screen, loading. */
  ghost predicate Awaited(m: Machine) {
    && m.token in m.pending
    && m.pending[m.token].scope == m.scope
    && exists i :: 0 <= i < |m.exchanges| && Awaits(m.exchanges[i], m.pending[m.token])
  }

  predicate Awaits(e: Exchange, r: Request) {
    e.state.Loading? && e.id == r.id && e.question == r.question
  }

  /** A request no longer waited for: its exchange is gone for good. */
  ghost predicate Abandoned(m: Machine, r: Request) {
    r.id < m.nextId && forall e :: e in m.exchanges ==> e.id != r.id
  }

  ghost predicate PendingOk(m: Machine) {
    && (m.inFlight <==> m.token in m.pending)
    && (m.inFlight ==> Awaited(m))
    && forall t :: t in m.pending ==> t <= m.token && (t < m.token ==> Abandoned(m, m.pending[t]))
  }

  ghost predicate LogOk(log: seq<Entry>) {
    forall k :: 0 <= k < |log| && log[k].Asked? ==> HistoryOk(log[..k], log[k])
  }

  ghost predicate Inv(m: Machine) {
    ExchangesOk(m) && PendingOk(m) && LogOk(m.log)
  }

  lemma AnswersStay(log: seq<Entry>, e: Entry, scope: Scope, x: Exchange)
    requires ReallyAnswered(log, scope, x)
    ensures ReallyAnswered(log + [e], scope, x)
  {
    var data: AskResponse :| Replied(scope, x.id, x.question, Ok(data)) in log && StateFromResponse(data) == x.state;
    assert Replied(scope, x.id, x.question, Ok(data)) in log + [e];
  }

  lemma LogStaysOk(log: seq<Entry>, e: Entry)
    requires LogOk(log)
    requires e.Asked? ==> HistoryOk(log, e)
    ensures LogOk(log + [e])
  {
    var longer := log + [e];
    forall k | 0 <= k < |longer| && longer[k].Asked? ensures HistoryOk(longer[..k], longer[k]) {
      if k < |log| {
        assert longer[..k] == log[..k];
      } else {
        assert longer[..k] == log;
      }
    }
  }

  lemma HistoryIsOk(m: Machine, prior: seq<Exchange>, asked: Entry)
    requires asked.Asked? && asked.scope == m.scope && asked.history == HistoryOf(prior)
    requires |prior| < MAX_EXCHANGES && IdsIncrease(prior)
    requires forall e :: e in prior ==> e.id < asked.id && (Complete(e) ==> ReallyAnswered(m.log, m.scope, e))
    ensures HistoryOk(m.log, asked)
  {
    HistoryTellsTheCompleteOnes(prior);
    CompleteOnesInOrder(prior);
    assert Tells(asked.history, CompleteOnes(prior));
  }

  /** `after` is `m` waiting for the answer to `asked`, whose exchange is the one at `i`. */
  ghost predicate Waits(m: Machine, after: Machine, i: nat, asked: Entry) {
    && asked.Asked? && asked.scope == m.scope && asked.id < after.nextId
    && asked.question != "" && Trimmed(asked.question)
    && after.scope == m.scope && after.inFlight && after.token == m.token + 1 && after.nextId >= m.nextId
    && after.log == m.log + [asked]
    && after.pending == m.pending[after.token := Request(asked.id, asked.scope, asked.question, asked.history)]
    && |after.exchanges| <= MAX_EXCHANGES && IdsIncrease(after.exchanges)
    && i < |after.exchanges| && after.exchanges[i] == Exchange(asked.id, asked.question, Loading)
    && (forall j :: 0 <= j < |after.exchanges| && j != i ==> after.exchanges[j] in m.exchanges)
    && (forall t :: t in m.pending ==> m.pending[t].id != asked.id)
  }

  lemma AskingKeepsExchanges(m: Machine, after: Machine, i: nat, asked: Entry)
    requires Inv(m) && !m.inFlight && Waits(m, after, i, asked)
    ensures ExchangesOk(after)
  {
    forall j | 0 <= j < |after.exchanges| ensures ExchangeOk(after, after.exchanges[j]) {
      var e := after.exchanges[j];
      if j != i {
        var k :| 0 <= k < |m.exchanges| && m.exchanges[k] == e;
        assert ExchangeOk(m, m.exchanges[k]);
        if Complete(e) {
          AnswersStay(m.log, asked, m.scope, e);
        }
      }
    }
  }

  lemma AskingKeepsPending(m: Machine, after: Machine, i: nat, asked: Entry)
    requires Inv(m) && !m.inFlight && Waits(m, after, i, asked)
    ensures PendingOk(after)
  {
    assert Awaits(after.exchanges[i], after.pending[after.token]);
    forall t | t in after.pending && t < after.token ensures Abandoned(after, after.pending[t]) {
      assert t in m.pending && t < m.token;
      forall e | e in after.exchanges ensures e.id != m.pending[t].id {
        var j :| 0 <= j < |after.exchanges| && after.exchanges[j] == e;
      }
    }
  }

  lemma AskingKeeps(m: Machine, after: Machine, i: nat, asked: Entry)
    requires Inv(m) && !m.inFlight && Waits(m, after, i, asked) && HistoryOk(m.log, asked)
    ensures Inv(after)
  {
    AskingKeepsExchanges(m, after, i, asked);
    AskingKeepsPending(m, after, i, asked);
    LogStaysOk(m.log, asked);
  }

  lemma InOrder(m: Machine)
    requires Inv(m)
    ensures IdsIncrease(m.exchanges) && |m.exchanges| <= MAX_EXCHANGES
    ensures forall i :: 0 <= i < |m.exchanges| ==> m.exchanges[i].id < m.nextId
  {
    forall i | 0 <= i < |m.exchanges| ensures m.exchanges[i].id < m.nextId {
      assert ExchangeOk(m, m.exchanges[i]);
    }
  }

  /** How many exchanges a new question pushes out. */
  function PushedOut(m: Machine): nat {
    if |m.exchanges| < MAX_EXCHANGES then 0 else |m.exchanges| + 1 - MAX_EXCHANGES
  }

  function Posed(m: Machine, question: string, kept: seq<Exchange>, history: seq<Message>): Machine {
    Ask(m.(inFlight := true, token := m.token + 1, nextId := m.nextId + 1,
           exchanges := kept + [Exchange(m.nextId, question, Loading)]),
        m.nextId, question, history)
  }

  function Reposed(m: Machine, i: nat, history: seq<Message>): Machine
    requires i < |m.exchanges|
  {
    var e := m.exchanges[i];
    Ask(m.(inFlight := true, token := m.token + 1, exchanges := m.exchanges[i := e.(state := Loading)]),
        e.id, e.question, history)
  }

  lemma RetainedAre(exchanges: seq<Exchange>, latest: Exchange)
    requires |exchanges| <= MAX_EXCHANGES
    ensures var out := if |exchanges| < MAX_EXCHANGES then 0 else |exchanges| + 1 - MAX_EXCHANGES;
            RetainRecent(exchanges + [latest]) == exchanges[out..] + [latest]
  {
  }

  lemma SendNewIs(m: Machine, text: string)
    requires !m.inFlight && Trim(text) != "" && |m.exchanges| <= MAX_EXCHANGES
    ensures var kept := m.exchanges[PushedOut(m)..];
            SendNew(m, text) == Posed(m, Trim(text), kept, HistoryOf(kept))
  {
    var kept := m.exchanges[PushedOut(m)..];
    var latest := Exchange(m.nextId, Trim(text), Loading);
    RetainedAre(m.exchanges, latest);
    assert (kept + [latest])[..|kept|] == kept;
  }

  lemma KeptHistoryIsOk(m: Machine, from: nat, to: nat, asked: Entry)
    requires ExchangesOk(m) && from <= to <= |m.exchanges| && to - from < MAX_EXCHANGES
    requires asked.Asked? && asked.scope == m.scope && asked.history == HistoryOf(m.exchanges[from..to])
    requires forall j :: from <= j < to ==> m.exchanges[j].id < asked.id
    ensures HistoryOk(m.log, asked)
  {
    hide HistoryOf;
    hide HistoryOk;
    hide AnswerTextOf;
    hide IsSpace;
    var kept := m.exchanges[from..to];
    forall e | e in kept ensures e.id < asked.id && (Complete(e) ==> ReallyAnswered(m.log, m.scope, e)) {
      var j :| 0 <= j < |kept| && kept[j] == e;
      assert ExchangeOk(m, m.exchanges[from + j]);
    }
    HistoryIsOk(m, kept, asked);
  }

  lemma PosedWaits(m: Machine, question: string, history: seq<Message>)
    requires Inv(m) && !m.inFlight && question != "" && Trimmed(question)
    ensures var kept := m.exchanges[PushedOut(m)..];
            Waits(m, Posed(m, question, kept, history), |kept|, Asked(m.scope, m.nextId, question, history))
  {
    var kept := m.exchanges[PushedOut(m)..];
    InOrder(m);
    PendingIdsAreUsed(m);
    hide Inv;
    hide IsSpace;
    forall i | 0 <= i < |kept| ensures kept[i] in m.exchanges && kept[i].id < m.nextId {
      assert kept[i] == m.exchanges[i + PushedOut(m)];
    }
  }

  lemma PendingIdsAreUsed(m: Machine)
    requires Inv(m)
    ensures forall t :: t in m.pending ==> m.pending[t].id < m.nextId
  {
    forall t | t in m.pending ensures m.pending[t].id < m.nextId {
      if t == m.token {
        var i :| 0 <= i < |m.exchanges| && Awaits(m.exchanges[i], m.pending[m.token]);
        assert ExchangeOk(m, m.exchanges[i]);
      } else {
        assert Abandoned(m, m.pending[t]);
      }
    }
  }

  lemma SendNewKeeps(m: Machine, text: string)
    requires Inv(m)
    ensures Inv(SendNew(m, text))
  {
    if !m.inFlight && Trim(text) != "" {
      var kept := m.exchanges[PushedOut(m)..];
      SendNewIs(m, text);
      PosedKeeps(m, Trim(text), HistoryOf(kept));
    }
  }

  lemma PosedKeeps(m: Machine, question: string, history: seq<Message>)
    requires Inv(m) && !m.inFlight && question != "" && Trimmed(question)
    requires history == HistoryOf(m.exchanges[PushedOut(m)..])
    ensures Inv(Posed(m, question, m.exchanges[PushedOut(m)..], history))
  {
    hide HistoryOf;
    hide IsSpace;
    var kept := m.exchanges[PushedOut(m)..];
    var asked := Asked(m.scope, m.nextId, question, history);
    PosedWaits(m, question, history);
    InOrder(m);
    assert kept == m.exchanges[PushedOut(m)..|m.exchanges|];
    KeptHistoryIsOk(m, PushedOut(m), |m.exchanges|, asked);
    AskingKeeps(m, Posed(m, question, kept, history), |kept|, asked);
  }

  lemma ReposedWaits(m: Machine, i: nat, history: seq<Message>)
    requires Inv(m) && !m.inFlight && i < |m.exchanges|
    ensures var e := m.exchanges[i];
            Waits(m, Reposed(m, i, history), i, Asked(m.scope, e.id, e.question, history))
  {
    hide IsSpace;
    hide HistoryOf;
    hide HistoryOk;
    var e := m.exchanges[i];
    assert ExchangeOk(m, m.exchanges[i]);
    forall t | t in m.pending ensures m.pending[t].id != e.id {
      assert Abandoned(m, m.pending[t]) && e in m.exchanges;
    }
  }

  lemma ReposedKeeps(m: Machine, i: nat, history: seq<Message>)
    requires Inv(m) && !m.inFlight && i < |m.exchanges| && history == HistoryOf(m.exchanges[..i])
    ensures Inv(Reposed(m, i, history))
  {
    var e := m.exchanges[i];
    var asked := Asked(m.scope, e.id, e.question, history);
    ReposedWaits(m, i, history);
    assert m.exchanges[0..i] == m.exchanges[..i];
    KeptHistoryIsOk(m, 0, i, asked);
    AskingKeeps(m, Reposed(m, i, history), i, asked);
  }

  lemma ResendKeeps(m: Machine, i: nat)
    requires Inv(m) && i < |m.exchanges|
    ensures Inv(Resend(m, m.exchanges[i].question, m.exchanges[i].id))
  {
    if !m.inFlight {
      ResendIs(m, i);
      ReposedKeeps(m, i, HistoryOf(m.exchanges[..i]));
    }
  }

  lemma ResendIs(m: Machine, i: nat)
    requires ExchangesOk(m) && !m.inFlight && i < |m.exchanges|
    ensures Resend(m, m.exchanges[i].question, m.exchanges[i].id) == Reposed(m, i, HistoryOf(m.exchanges[..i]))
  {
    var e := m.exchanges[i];
    assert ExchangeOk(m, m.exchanges[i]);
    TrimOfTrimmed(e.question);
    PositionIs(m.exchanges, i);
    SettledIsUpdated(m.exchanges, i, Loading);
  }

  lemma SettledIsUpdated(exchanges: seq<Exchange>, i: nat, state: AskState)
    requires IdsIncrease(exchanges) && i < |exchanges|
    ensures SettledAll(exchanges, exchanges[i].id, state) == exchanges[i := exchanges[i].(state := state)]
  {
    forall j | 0 <= j < |exchanges| && j != i
      ensures SettledOne(exchanges[j], exchanges[i].id, state) == exchanges[j]
    {
      assert exchanges[if i < j then i else j].id < exchanges[if i < j then j else i].id;
    }
  }

  lemma PositionIs(exchanges: seq<Exchange>, i: nat)
    requires IdsIncrease(exchanges) && i < |exchanges|
    ensures Position(exchanges, exchanges[i].id) == i && Before(exchanges, exchanges[i].id) == exchanges[..i]
  {
  }

  /** Requests given up before stay given up while no exchange comes back. */
  lemma StillAbandoned(m: Machine, after: Machine)
    requires forall t :: t in m.pending && t < after.token ==> Abandoned(m, m.pending[t])
    requires after.nextId >= m.nextId
    requires |after.exchanges| == |m.exchanges| && forall j :: 0 <= j < |m.exchanges| ==> after.exchanges[j].id == m.exchanges[j].id
    requires forall t :: t in after.pending && t < after.token ==> t in m.pending && after.pending[t] == m.pending[t]
    ensures forall t :: t in after.pending && t < after.token ==> Abandoned(after, after.pending[t])
  {
    forall t, x | t in after.pending && t < after.token && x in after.exchanges
      ensures x.id != after.pending[t].id
    {
      var j :| 0 <= j < |after.exchanges| && after.exchanges[j] == x;
      assert m.exchanges[j] in m.exchanges;
    }
  }

  lemma LandKeeps(m: Machine, token: nat, result: ApiResult<AskResponse>)
    requires Inv(m)
    ensures Inv(Land(m, token, result))
  {
    if token in m.pending {
      var r := m.pending[token];
      var said := Replied(r.scope, r.id, r.question, result);
      var after := Land(m, token, result);
      LogStaysOk(m.log, said);
      if token != m.token {
        LateAnswer(m, token, result);
      }
      forall j | 0 <= j < |after.exchanges| ensures ExchangeOk(after, after.exchanges[j]) {
        assert ExchangeOk(m, m.exchanges[j]);
        LandedExchange(m, token, result, j);
      }
      StillAbandoned(m, after);
      if after.inFlight {
        var i :| 0 <= i < |m.exchanges| && Awaits(m.exchanges[i], m.pending[m.token]);
        assert Awaits(after.exchanges[i], after.pending[after.token]);
      }
    }
  }

  lemma LandedExchange(m: Machine, token: nat, result: ApiResult<AskResponse>, j: nat)
    requires Inv(m) && token in m.pending && j < |m.exchanges|
    requires token != m.token ==> Land(m, token, result).exchanges == m.exchanges
    ensures var after := Land(m, token, result);
            && (Complete(after.exchanges[j]) ==> ReallyAnswered(after.log, after.scope, after.exchanges[j]))
            && (after.exchanges[j].state.Loading? ==> after.inFlight && m.exchanges[j].state.Loading?)
  {
    var after := Land(m, token, result);
    var r := m.pending[token];
    assert ExchangeOk(m, m.exchanges[j]);
    if after.exchanges[j] == m.exchanges[j] {
      if Complete(m.exchanges[j]) {
        AnswersStay(m.log, Replied(r.scope, r.id, r.question, result), m.scope, m.exchanges[j]);
      }
    } else if Complete(after.exchanges[j]) {
      var i :| 0 <= i < |m.exchanges| && Awaits(m.exchanges[i], r);
      assert i == j;
      assert Replied(m.scope, r.id, r.question, Ok(result.data)) in after.log;
    }
  }

  /** An answer to a request that is no longer waited for changes nothing on screen and blocks nothing. */
  lemma LateAnswer(m: Machine, token: nat, result: ApiResult<AskResponse>)
    requires Inv(m) && token != m.token
    ensures var after := Land(m, token, result);
            after == m.(pending := after.pending, log := after.log)
  {
    if token in m.pending {
      var r := m.pending[token];
      assert Abandoned(m, r);
      forall j | 0 <= j < |m.exchanges| ensures SettledOne(m.exchanges[j], r.id, StateFromResult(result)) == m.exchanges[j] {
        assert m.exchanges[j] in m.exchanges;
      }
      assert SettledAll(m.exchanges, r.id, StateFromResult(result)) == m.exchanges;
    }
  }

  lemma NextKeeps(m: Machine, e: Event)
    requires Inv(m)
    ensures Inv(Next(m, e))
  {
    match e
    case Sends(text) => SendNewKeeps(m, text);
    case Retries(position) =>
      if position < |m.exchanges| && Retryable(m.exchanges[position]) {
        ResendKeeps(m, position);
      }
    case Lands(token, result) => LandKeeps(m, token, result);
    case StartsOver =>
    case ChangesScope(scope) =>
      var after := Next(m, e);
      forall t | t in after.pending && t < after.token ensures Abandoned(after, after.pending[t]) {
        if t == m.token && scope != m.scope {
          var i :| 0 <= i < |m.exchanges| && Awaits(m.exchanges[i], m.pending[m.token]);
          assert ExchangeOk(m, m.exchanges[i]);
        }
      }
  }

  lemma {:induction false} RunKeeps(m: Machine, events: seq<Event>)
    requires Inv(m)
    ensures Inv(Run(m, events))
    decreases |events|
  {
    if events != [] {
      RunKeeps(m, events[..|events| - 1]);
      NextKeeps(Run(m, events[..|events| - 1]), events[|events| - 1]);
    }
  }

  // ---------------------------------------------------------------------------------------------
  // What that means
  // ---------------------------------------------------------------------------------------------

  /** A state some run of the conversation gets to. */
  ghost predicate Reachable(m: Machine) {
    exists scope, events :: m == Run(Start(scope), events)
  }

  lemma ReachableKeeps(m: Machine)
    requires Reachable(m)
    ensures Inv(m)
  {
    var scope, events :| m == Run(Start(scope), events);
    RunKeeps(Start(scope), events);
  }

  /** In every reachable state an exchange is loading exactly when a request is in flight, and never two. */
  lemma OneLoadingIffInFlight(m: Machine)
    requires Reachable(m)
    ensures m.inFlight <==> exists i :: 0 <= i < |m.exchanges| && m.exchanges[i].state.Loading?
    ensures forall i, j :: 0 <= i < j < |m.exchanges| ==> !(m.exchanges[i].state.Loading? && m.exchanges[j].state.Loading?)
  {
    ReachableKeeps(m);
    if m.inFlight {
      var i :| 0 <= i < |m.exchanges| && Awaits(m.exchanges[i], m.pending[m.token]);
    }
    forall i, j | 0 <= i < j < |m.exchanges|
      ensures !(m.exchanges[i].state.Loading? && m.exchanges[j].state.Loading?)
    {
      assert ExchangeOk(m, m.exchanges[i]) && ExchangeOk(m, m.exchanges[j]);
    }
  }

  /** An answer that is waited for changes the one exchange whose question it answers, which was loading, and frees
      the composer; any other answer changes nothing on screen. */
  lemma AnAnswerChangesItsOwnExchange(m: Machine, token: nat, result: ApiResult<AskResponse>)
    requires Reachable(m) && token in m.pending
    ensures var after := Land(m, token, result);
            token != m.token ==> after == m.(pending := after.pending, log := after.log)
    ensures var after := Land(m, token, result);
            token == m.token ==>
              && !after.inFlight
              && exists i :: 0 <= i < |m.exchanges| && Awaits(m.exchanges[i], m.pending[token])
                             && after.exchanges == m.exchanges[i := m.exchanges[i].(state := StateFromResult(result))]
  {
    ReachableKeeps(m);
    if token != m.token {
      LateAnswer(m, token, result);
    } else {
      var i :| 0 <= i < |m.exchanges| && Awaits(m.exchanges[i], m.pending[token]);
      SettledIsUpdated(m.exchanges, i, StateFromResult(result));
    }
  }

  /** A step never takes a token back, and sends only with a new one. */
  lemma TokenGrows(m: Machine, e: Event)
    ensures Next(m, e).token >= m.token
    ensures forall t :: t in Next(m, e).pending && t <= m.token ==> t in m.pending && Next(m, e).pending[t] == m.pending[t]
  {
    hide Trim;
    hide HistoryOf;
    hide RetainRecent;
    hide SettledAll;
    hide Position;
  }

  lemma {:induction false} TokensOnlyGrow(m: Machine, events: seq<Event>)
    ensures Run(m, events).token >= m.token
    ensures forall t :: t in Run(m, events).pending && t <= m.token ==> t in m.pending && Run(m, events).pending[t] == m.pending[t]
    decreases |events|
  {
    hide Next;
    if events != [] {
      TokensOnlyGrow(m, events[..|events| - 1]);
      TokenGrows(Run(m, events[..|events| - 1]), events[|events| - 1]);
    }
  }

  /** Whatever was asked before a change of property or date changes nothing afterwards, however late its answer
      is and wherever the person has gone meanwhile: back to the same analysis included. */
  lemma AbandonedRequestsChangeNothing(m: Machine, away: Scope, since: seq<Event>, token: nat, result: ApiResult<AskResponse>)
    requires Reachable(m) && token in m.pending && away != m.scope
    ensures var later := Run(ChangeScope(m, away), since);
            var after := Land(later, token, result);
            after == later.(pending := after.pending, log := after.log)
  {
    ReachableKeeps(m);
    NextKeeps(m, ChangesScope(away));
    RunKeeps(ChangeScope(m, away), since);
    TokensOnlyGrow(ChangeScope(m, away), since);
    LateAnswer(Run(ChangeScope(m, away), since), token, result);
  }

  /** Every history ever sent alternates user and assistant, holds at most three exchanges, oldest first, and each
      of its answers is the trimmed text the backend had given, in the same analysis, to the question before it. */
  lemma EveryHistoryIsTrue(m: Machine, k: nat)
    requires Reachable(m) && k < |m.log| && m.log[k].Asked?
    ensures HistoryOk(m.log[..k], m.log[k])
  {
    ReachableKeeps(m);
  }

  /** The exchange asked, at `p`, is loading, and its history tells every complete exchange before it and no other. */
  ghost predicate TellsWhatStandsBefore(m: Machine, p: nat, asked: Entry) {
    && asked.Asked?
    && p < |m.exchanges| && m.exchanges[p] == Exchange(asked.id, asked.question, Loading)
    && Tells(asked.history, CompleteOnes(m.exchanges[..p]))
  }

  /** A new question stands last, behind the newest exchanges there is room for, and is told with everything answered
      in them: nothing on screen is withheld from Mia. */
  lemma ANewQuestionTellsTheScreen(m: Machine, text: string)
    requires Reachable(m) && |SendNew(m, text).log| > |m.log|
    ensures var after, kept := SendNew(m, text), m.exchanges[PushedOut(m)..];
            after.exchanges[..|after.exchanges| - 1] == kept && TellsWhatStandsBefore(after, |kept|, after.log[|m.log|])
  {
    ReachableKeeps(m);
    SendNewIs(m, text);
    var kept := m.exchanges[PushedOut(m)..];
    HistoryTellsTheCompleteOnes(kept);
    hide HistoryOf;
    hide CompleteOnes;
    hide Inv;
    hide SendNew;
    assert (kept + [Exchange(m.nextId, Trim(text), Loading)])[..|kept|] == kept;
  }

  /** A retried question stands where it stood, nothing else on screen changes, and it is told with everything answered
      that stands before it now. */
  lemma ARetryTellsWhatStandsBefore(m: Machine, position: nat)
    requires Reachable(m) && |Retry(m, position).log| > |m.log|
    ensures var after := Retry(m, position);
            && |after.exchanges| == |m.exchanges|
            && (forall j :: 0 <= j < |m.exchanges| && j != position ==> after.exchanges[j] == m.exchanges[j])
            && TellsWhatStandsBefore(after, position, after.log[|m.log|])
  {
    ReachableKeeps(m);
    ResendIs(m, position);
    HistoryTellsTheCompleteOnes(m.exchanges[..position]);
    hide HistoryOf;
    hide CompleteOnes;
    hide Inv;
    hide Resend;
    assert Retry(m, position).exchanges[..position] == m.exchanges[..position];
  }

  lemma LastIsAwaited(m: Machine)
    requires Inv(m) && m.inFlight && m.exchanges != [] && m.exchanges[|m.exchanges| - 1].state.Loading?
    ensures m.token in m.pending && Awaits(m.exchanges[|m.exchanges| - 1], m.pending[m.token])
    ensures forall result :: Land(m, m.token, result).exchanges
              == m.exchanges[..|m.exchanges| - 1] + [Exchange(m.pending[m.token].id, m.pending[m.token].question, StateFromResult(result))]
  {
    var last := |m.exchanges| - 1;
    assert ExchangeOk(m, m.exchanges[last]);
    var i :| 0 <= i < |m.exchanges| && Awaits(m.exchanges[i], m.pending[m.token]);
    assert i == last;
    forall result
      ensures Land(m, m.token, result).exchanges
           == m.exchanges[..last] + [Exchange(m.pending[m.token].id, m.pending[m.token].question, StateFromResult(result))]
    {
      SettledIsUpdated(m.exchanges, last, StateFromResult(result));
      UpdateLast(m.exchanges, m.exchanges[last].(state := StateFromResult(result)));
    }
  }

  /** Whatever the backend answers to the newest question, the next one tells Mia what it said: the history ends in that
      question and the text given to it, if there is one. */
  lemma TheNextQuestionTellsTheAnswer(m: Machine, data: AskResponse, text: string)
    requires Reachable(m) && m.inFlight && m.exchanges != [] && m.exchanges[|m.exchanges| - 1].state.Loading? && Trim(text) != ""
    ensures m.token in m.pending
    ensures var answered := Land(m, m.token, Ok(data));
            var after := SendNew(answered, text);
            var told := m.exchanges[if |m.exchanges| == 4 then 1 else 0..|m.exchanges| - 1];
            && |after.log| == |answered.log| + 1
            && after.log[|answered.log|] == Asked(m.scope, m.nextId, Trim(text), HistoryOf(told)
                 + if SaysSomething(data) then [Message(User, m.pending[m.token].question), Message(Assistant, Trim(data.answer.value))] else [])
  {
    hide Trim;
    hide HistoryOf;
    hide Land;
    hide Reachable;
    hide PendingOk;
    hide LogOk;
    hide IdsIncrease;
    hide ExchangeOk;
    hide Awaits;
    hide SaysSomething;
    hide StateFromResult;
    hide RetainRecent;
    ReachableKeeps(m);
    LastIsAwaited(m);
    LandKeepsTheRest(m, data);
    var answered := Land(m, m.token, Ok(data));
    var r := m.pending[m.token];
    var out := if |m.exchanges| == MAX_EXCHANGES then 1 else 0;
    var told := m.exchanges[out..|m.exchanges| - 1];
    WhatAnExchangeTells(told, r.id, r.question, data, "");
    RetainedAfter(answered, m.exchanges, out, Exchange(r.id, r.question, StateFromResult(Ok(data))), Trim(text));
  }

  lemma LandKeepsTheRest(m: Machine, data: AskResponse)
    requires Inv(m) && m.inFlight
    ensures var answered := Land(m, m.token, Ok(data)); !answered.inFlight && answered.nextId == m.nextId && answered.scope == m.scope
  {
    hide SettledAll;
  }

  lemma RetainedAfter(m: Machine, was: seq<Exchange>, out: nat, answered: Exchange, question: string)
    requires 0 < |was| <= MAX_EXCHANGES && out == (if |was| == MAX_EXCHANGES then 1 else 0)
    requires m.exchanges == was[..|was| - 1] + [answered]
    ensures var retained := RetainRecent(m.exchanges + [Exchange(m.nextId, question, Loading)]);
            retained[..|retained| - 1] == was[out..|was| - 1] + [answered]
  {
  }

  /** A question is sent exactly when it is no blank text and none is in flight: it stands last and loads, the oldest of
      four exchanges makes room for it, and nothing else happens. */
  lemma WhenAQuestionIsSent(m: Machine, text: string)
    requires Reachable(m)
    ensures var after := Next(m, Sends(text));
            if m.inFlight || Trim(text) == "" then after == m
            else
              && after.inFlight && after.scope == m.scope && after.token == m.token + 1 && after.nextId == m.nextId + 1
              && after.exchanges == m.exchanges[if |m.exchanges| == 4 then 1 else 0..] + [Exchange(m.nextId, Trim(text), Loading)]
              && after.token in after.pending && after.pending - {after.token} == m.pending - {after.token}
              && after.pending[after.token].id == m.nextId && after.pending[after.token].question == Trim(text)
              && after.pending[after.token].scope == m.scope
              && after.log == m.log + [Asked(m.scope, m.nextId, Trim(text), after.pending[after.token].history)]
  {
    hide Trim;
    hide HistoryOf;
    hide IdsIncrease;
    hide ExchangeOk;
    hide PendingOk;
    hide LogOk;
    hide Reachable;
    hide SendNew;
    ReachableKeeps(m);
    if m.inFlight || Trim(text) == "" {
      NothingIsSent(m, text);
    } else {
      SendNewIs(m, text);
    }
  }

  lemma NothingIsSent(m: Machine, text: string)
    requires m.inFlight || Trim(text) == ""
    ensures SendNew(m, text) == m
  {
  }

  /** A retry is sent exactly when none is in flight and the exchange failed or Mia was unavailable; only that exchange
      changes, and loads again. */
  lemma WhenARetryIsSent(m: Machine, position: nat)
    requires Reachable(m)
    ensures var after := Next(m, Retries(position));
            if m.inFlight || position >= |m.exchanges| || !(m.exchanges[position].state.Unavailable? || m.exchanges[position].state.Error?)
            then after == m
            else
              var e := m.exchanges[position];
              && after.inFlight && after.scope == m.scope && after.token == m.token + 1 && after.nextId == m.nextId
              && after.exchanges == m.exchanges[position := Exchange(e.id, e.question, Loading)]
              && after.token in after.pending && after.pending - {after.token} == m.pending - {after.token}
              && after.pending[after.token].id == e.id && after.pending[after.token].question == e.question
              && after.pending[after.token].scope == m.scope
              && after.log == m.log + [Asked(m.scope, e.id, e.question, after.pending[after.token].history)]
  {
    hide Resend;
    hide HistoryOf;
    hide ExchangesOk;
    hide PendingOk;
    hide LogOk;
    hide Reachable;
    ReachableKeeps(m);
    if position < |m.exchanges| {
      if m.inFlight {
        NothingIsResent(m, m.exchanges[position].question, m.exchanges[position].id);
      } else {
        ResendIs(m, position);
      }
    }
  }

  lemma NothingIsResent(m: Machine, text: string, id: nat)
    requires m.inFlight
    ensures Resend(m, text, id) == m
  {
  }

  /** What can be tried again is a call that failed and a Mia that was unavailable, and nothing else she said. */
  lemma WhatCanBeTriedAgain(id: nat, question: string, result: ApiResult<AskResponse>)
    ensures Retryable(Exchange(id, question, StateFromResult(result))) <==> result.Failed? || result.data.status.UNAVAILABLE?
  {
  }

  /** Starting over empties the screen, unless a question is in flight; another property or date does so in any case,
      frees the composer and outdates the request in flight. */
  lemma WhatLeavingDoes(m: Machine, scope: Scope)
    ensures Next(m, StartsOver) == if m.inFlight then m else m.(exchanges := [])
    ensures var after := Next(m, ChangesScope(scope));
            if scope == m.scope then after == m
            else after == m.(scope := scope, exchanges := [], inFlight := false, token := after.token) && after.token > m.token
  {
  }
}
