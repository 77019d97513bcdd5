/** The conversation of the Mia Home (apps/web/components/mia-home.tsx) as a step machine. A user event is atomic;
    a request may be answered at any later moment, after any number of changes of property or date, or never. */
module Mia {
  import opened Basics
  import opened Text
  import opened Conversation

  /** The analysis on screen. The page writes it `property|date`; a date holds no bar. */
  datatype Scope = Scope(propertyId: string, asOfLocalDate: string)

  datatype Request = Request(id: nat, scope: Scope, question: string, history: seq<Message>)

  datatype Entry =
    | Asked(scope: Scope, id: nat, question: string, history: seq<Message>)
    | Replied(scope: Scope, id: nat, question: string, result: ApiResult<AskResponse>)

  datatype Machine = Machine(
    scope: Scope,
    inFlight: bool,
    token: nat,
    exchanges: seq<Exchange>,
    nextId: nat,
    /** The requests not answered yet, by the token each was sent with. */
    pending: map<nat, Request>,
    log: seq<Entry>)

  function Start(scope: Scope): Machine {
    Machine(scope, false, 0, [], 0, map[], [])
  }

  function SettledOne(e: Exchange, id: nat, state: AskState): Exchange {
    if e.id == id then e.(state := state) else e
  }

  function SettledAll(exchanges: seq<Exchange>, id: nat, state: AskState): (r: seq<Exchange>)
    ensures |r| == |exchanges|
    ensures forall i :: 0 <= i < |r| ==> r[i] == SettledOne(exchanges[i], id, state)
  {
    seq(|exchanges|, i requires 0 <= i < |exchanges| => SettledOne(exchanges[i], id, state))
  }

  /** Gives exchange `id` its outcome. An outcome that was asked for in another scope is dropped. */
  function Settle(m: Machine, id: nat, state: AskState, scope: Scope): Machine {
    if scope != m.scope then m else m.(exchanges := SettledAll(m.exchanges, id, state))
  }

  /** Where exchange `id` is; the number of exchanges when it is gone. */
  function Position(exchanges: seq<Exchange>, id: nat): (r: nat)
    ensures r <= |exchanges|
    ensures r < |exchanges| ==> exchanges[r].id == id
    ensures forall i :: 0 <= i < r ==> exchanges[i].id != id
  {
    if exchanges == [] then 0
    else if exchanges[0].id == id then 0
    else 1 + Position(exchanges[1..], id)
  }

  function Before(exchanges: seq<Exchange>, id: nat): seq<Exchange> {
    var position := Position(exchanges, id);
    if position == |exchanges| then [] else exchanges[..position]
  }

  function Ask(m: Machine, id: nat, question: string, history: seq<Message>): Machine {
    m.(pending := m.pending[m.token := Request(id, m.scope, question, history)],
       log := m.log + [Asked(m.scope, id, question, history)])
  }

  /** The new exchange comes last and may push out the oldest; its history is made of the others that stay. */
  function Pose(m: Machine, question: string): Machine {
    var retained := RetainRecent(m.exchanges + [Exchange(m.nextId, question, Loading)]);
    Ask(m.(inFlight := true, token := m.token + 1, exchanges := retained, nextId := m.nextId + 1),
        m.nextId, question, HistoryOf(retained[..|retained| - 1]))
  }

  /** A question sent again; what Mia is told is what stands before it. */
  function PoseAgain(m: Machine, question: string, id: nat): Machine {
    Ask(Settle(m.(inFlight := true, token := m.token + 1), id, Loading, m.scope),
        id, question, HistoryOf(Before(m.exchanges, id)))
  }

  function SendNew(m: Machine, text: string): Machine {
    if m.inFlight || Trim(text) == "" then m else Pose(m, Trim(text))
  }

  function Resend(m: Machine, text: string, id: nat): Machine {
    if m.inFlight || Trim(text) == "" then m else PoseAgain(m, Trim(text), id)
  }

  /** The states that show "Riprova". */
  predicate Retryable(e: Exchange) {
    e.state.Unavailable? || e.state.Error?
  }

  function Retry(m: Machine, position: nat): Machine {
    if position < |m.exchanges| && Retryable(m.exchanges[position])
    then Resend(m, m.exchanges[position].question, m.exchanges[position].id)
    else m
  }

  function StartOver(m: Machine): Machine {
    if m.inFlight then m else m.(exchanges := [])
  }

  function ChangeScope(m: Machine, scope: Scope): Machine {
    if scope == m.scope then m else m.(scope := scope, token := m.token + 1, inFlight := false, exchanges := [])
  }

  function Land(m: Machine, token: nat, result: ApiResult<AskResponse>): Machine {
    if token !in m.pending then m
    else
      var r := m.pending[token];
      var heard := m.(pending := m.pending - {token}, log := m.log + [Replied(r.scope, r.id, r.question, result)]);
      Settle(heard, r.id, StateFromResult(result), r.scope).(inFlight := m.inFlight && m.token != token)
  }

  datatype Event =
    | Sends(text: string)
    | Retries(position: nat)
    | StartsOver
    | ChangesScope(scope: Scope)
    | Lands(token: nat, result: ApiResult<AskResponse>)

  function Next(m: Machine, e: Event): Machine {
    match e
    case Sends(text) => SendNew(m, text)
    case Retries(position) => Retry(m, position)
    case StartsOver => StartOver(m)
    case ChangesScope(scope) => ChangeScope(m, scope)
    case Lands(token, result) => Land(m, token, result)
  }

  function Run(m: Machine, events: seq<Event>): Machine {
    if events == [] then m else Next(Run(m, events[..|events| - 1]), events[|events| - 1])
  }
}
