/** Exchanges, their replies and the history made of them (apps/web/lib/ask-ninfa/conversation.ts, .../state.ts). */
module Conversation {
  import opened Basics
  import opened Text

  const MAX_EXCHANGES := 4

  datatype AskStatus = ANSWERED | INSUFFICIENT_CONTEXT | UNAVAILABLE | REFUSED

  datatype AskResponse = AskResponse(status: AskStatus, answer: Option<string>, limitations: seq<string>)

  datatype AskState =
    | Idle
    | Loading
    | Answered(answer: string, limitations: seq<string>)
    | InsufficientContext(explanation: Option<string>, limitations: seq<string>)
    | Unavailable
    | Refused
    | Error

  function StateFromResponse(data: AskResponse): AskState {
    match data.status
    case ANSWERED => Answered(data.answer.GetOr(""), data.limitations)
    case INSUFFICIENT_CONTEXT => InsufficientContext(data.answer, data.limitations)
    case UNAVAILABLE => Unavailable
    case REFUSED => Refused
  }

  function StateFromResult(result: ApiResult<AskResponse>): AskState {
    if result.Ok? then StateFromResponse(result.data) else Error
  }

  datatype Exchange = Exchange(id: nat, question: string, state: AskState)

  datatype Role = User | Assistant

  datatype Message = Message(role: Role, content: string)

  /** The trimmed reply of an exchange, if it got one with visible text. */
  function AnswerTextOf(state: AskState): (r: Option<string>)
    ensures r.Some? ==> r.value != "" && Trimmed(r.value)
  {
    var text :=
      match state
      case Answered(answer, _) => Trim(answer)
      case InsufficientContext(explanation, _) => Trim(explanation.GetOr(""))
      case _ => "";
    if text == "" then None else Some(text)
  }

  predicate Complete(e: Exchange) {
    AnswerTextOf(e.state).Some?
  }

  function RetainRecent(exchanges: seq<Exchange>): seq<Exchange> {
    if |exchanges| <= MAX_EXCHANGES then exchanges else exchanges[|exchanges| - MAX_EXCHANGES..]
  }

  function MessagesOf(e: Exchange): seq<Message> {
    match AnswerTextOf(e.state)
    case None => []
    case Some(answer) => [Message(User, e.question), Message(Assistant, answer)]
  }

  /** Question and reply of each complete exchange, oldest first. */
  function HistoryOf(prior: seq<Exchange>): seq<Message> {
    if prior == [] then [] else HistoryOf(prior[..|prior| - 1]) + MessagesOf(prior[|prior| - 1])
  }

  /** The exchanges a history speaks of, oldest first. */
  function CompleteOnes(prior: seq<Exchange>): (r: seq<Exchange>)
    ensures |r| <= |prior|
    ensures forall e :: e in r <==> e in prior && Complete(e)
  {
    if prior == [] then []
    else
      var rest := CompleteOnes(prior[..|prior| - 1]);
      var last := prior[|prior| - 1];
      assert prior == prior[..|prior| - 1] + [last];
      if Complete(last) then rest + [last] else rest
  }

  ghost predicate IdsIncrease(exchanges: seq<Exchange>) {
    forall i, j :: 0 <= i < j < |exchanges| ==> exchanges[i].id < exchanges[j].id
  }

  /** The history alternates user and assistant: the questions of `told`, each followed by the answer given to it. */
  ghost predicate Tells(history: seq<Message>, told: seq<Exchange>) {
    && |history| == 2 * |told|
    && forall k :: 0 <= k < |told| ==> TellsOne(history[2 * k], history[2 * k + 1], told[k])
  }

  predicate TellsOne(question: Message, answer: Message, e: Exchange) {
    && question == Message(User, e.question)
    && answer.role == Assistant && Some(answer.content) == AnswerTextOf(e.state)
  }

  /** A history is made of the complete exchanges only, oldest first. */
  lemma {:induction false} HistoryTellsTheCompleteOnes(prior: seq<Exchange>)
    ensures Tells(HistoryOf(prior), CompleteOnes(prior))
    decreases |prior|
  {
    if prior != [] {
      var front, last := prior[..|prior| - 1], prior[|prior| - 1];
      HistoryTellsTheCompleteOnes(front);
      var history, told := HistoryOf(front), CompleteOnes(front);
      forall k | 0 <= k < |CompleteOnes(prior)|
        ensures TellsOne(HistoryOf(prior)[2 * k], HistoryOf(prior)[2 * k + 1], CompleteOnes(prior)[k])
      {
        if k < |told| {
          assert TellsOne(history[2 * k], history[2 * k + 1], told[k]);
        }
      }
    }
  }

  /** The backend has given visible text: an answer, or the reason why there is none. */
  predicate SaysSomething(data: AskResponse) {
    (data.status.ANSWERED? || data.status.INSUFFICIENT_CONTEXT?) && data.answer.Some? && Trim(data.answer.value) != ""
  }

  /** What a response shows: an answer with its limitations, a reason, or neither; a failed call is an error. */
  lemma WhatAResponseShows(answer: Option<string>, limitations: seq<string>, code: string)
    ensures StateFromResult(Ok(AskResponse(ANSWERED, answer, limitations)))
         == Answered(if answer.Some? then answer.value else "", limitations)
    ensures StateFromResult(Ok(AskResponse(INSUFFICIENT_CONTEXT, answer, limitations))) == InsufficientContext(answer, limitations)
    ensures StateFromResult(Ok(AskResponse(UNAVAILABLE, answer, limitations))) == Unavailable
    ensures StateFromResult(Ok(AskResponse(REFUSED, answer, limitations))) == Refused
    ensures StateFromResult(Failed(code)) == Error
  {
  }

  /** What an exchange adds to a history: its question and the trimmed text of the answer, exactly when the backend gave
      visible text; nothing while it loads, when the call failed, and for any other response. */
  lemma WhatAnExchangeTells(prior: seq<Exchange>, id: nat, question: string, data: AskResponse, code: string)
    ensures HistoryOf(prior + [Exchange(id, question, StateFromResult(Ok(data)))])
         == HistoryOf(prior) + if SaysSomething(data) then [Message(User, question), Message(Assistant, Trim(data.answer.value))] else []
    ensures HistoryOf(prior + [Exchange(id, question, StateFromResult(Failed(code)))]) == HistoryOf(prior)
    ensures HistoryOf(prior + [Exchange(id, question, Loading)]) == HistoryOf(prior)
  {
    NoTextIsNoText();
    hide Trim;
    WhatOneTells(prior, Exchange(id, question, StateFromResult(Ok(data))));
    WhatOneTells(prior, Exchange(id, question, StateFromResult(Failed(code))));
    WhatOneTells(prior, Exchange(id, question, Loading));
    hide HistoryOf;
  }

  lemma NoTextIsNoText()
    ensures Trim("") == ""
  {
  }

  lemma WhatOneTells(prior: seq<Exchange>, last: Exchange)
    ensures HistoryOf(prior + [last]) == HistoryOf(prior) + MessagesOf(last)
  {
    hide MessagesOf;
    assert (prior + [last])[..|prior|] == prior;
  }

  lemma EarlierIdIsSmaller(exchanges: seq<Exchange>, e: Exchange)
    requires exchanges != [] && IdsIncrease(exchanges) && e in exchanges[..|exchanges| - 1]
    ensures e.id < exchanges[|exchanges| - 1].id
  {
    var i :| 0 <= i < |exchanges| - 1 && exchanges[i] == e;
  }

  lemma {:induction false} CompleteOnesInOrder(prior: seq<Exchange>)
    requires IdsIncrease(prior)
    ensures IdsIncrease(CompleteOnes(prior))
    decreases |prior|
  {
    if prior != [] {
      hide AnswerTextOf;
      var front := prior[..|prior| - 1];
      CompleteOnesInOrder(front);
      forall e | e in CompleteOnes(front) ensures e.id < prior[|prior| - 1].id {
        EarlierIdIsSmaller(prior, e);
      }
    }
  }
}
