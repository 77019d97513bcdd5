/** The component itself: `send`, `settle`, `startOver` and the scope effect over their refs
    (apps/web/components/mia-home.tsx), each proved to do what `Mia` says. */
module MiaHome {
  import opened Basics
  import opened Text
  import opened Conversation
  import opened Mia
  import MiaRuns

  class Home {
    var scopeRef: Scope
    var inFlightRef: bool
    var tokenRef: nat
    var exchangesRef: seq<Exchange>
    var nextIdRef: nat
    /** The calls to the backend not answered yet, by the token each was sent with. */
    var pending: map<nat, Request>
    ghost var log: seq<Entry>

    ghost function Model(): Machine
      reads this
    {
      Machine(scopeRef, inFlightRef, tokenRef, exchangesRef, nextIdRef, pending, log)
    }

    constructor (scope: Scope)
      ensures Model() == Start(scope)
    {
      scopeRef, inFlightRef, tokenRef, exchangesRef, nextIdRef := scope, false, 0, [], 0;
      pending, log := map[], [];
    }

    /** The effect on a change of property or date. */
    method ScopeEffect(scope: Scope)
      modifies this`scopeRef, this`tokenRef, this`inFlightRef, this`exchangesRef
      ensures Model() == ChangeScope(old(Model()), scope)
    {
      if scopeRef == scope { return; }
      scopeRef := scope;
      tokenRef := tokenRef + 1;
      inFlightRef := false;
      exchangesRef := [];
    }

    method Settle(id: nat, state: AskState, scope: Scope)
      modifies this`exchangesRef
      ensures Model() == Mia.Settle(old(Model()), id, state, scope)
    {
      if scope != scopeRef { return; }
      var next: seq<Exchange> := [];
      for k := 0 to |exchangesRef|
        invariant exchangesRef == old(exchangesRef)
        invariant |next| == k && forall i :: 0 <= i < k ==> next[i] == SettledOne(exchangesRef[i], id, state)
      {
        next := next + [SettledOne(exchangesRef[k], id, state)];
      }
      assert next == SettledAll(exchangesRef, id, state);
      exchangesRef := next;
    }

    method FindIndex(id: nat) returns (position: nat)
      ensures position == Position(exchangesRef, id)
    {
      position := 0;
      while position < |exchangesRef| && exchangesRef[position].id != id
        invariant position <= |exchangesRef|
        invariant forall i :: 0 <= i < position ==> exchangesRef[i].id != id
      {
        position := position + 1;
      }
    }

    method Send(text: string, retryOf: Option<nat>)
      modifies this`inFlightRef, this`tokenRef, this`nextIdRef, this`exchangesRef, this`pending, this`log
      ensures retryOf.None? ==> Model() == SendNew(old(Model()), text)
      ensures retryOf.Some? ==> Model() == Resend(old(Model()), text, retryOf.value)
    {
      if inFlightRef { return; }
      var trimmed := Trim(text);
      if trimmed == "" { return; }
      if retryOf.None? {
        SendFresh(trimmed);
      } else {
        SendAgain(trimmed, retryOf.value);
      }
    }

    method SendFresh(trimmed: string)
      modifies this`inFlightRef, this`tokenRef, this`nextIdRef, this`exchangesRef, this`pending, this`log
      ensures Model() == Pose(old(Model()), trimmed)
    {
      hide HistoryOf;
      inFlightRef := true;
      tokenRef := tokenRef + 1;
      var id := nextIdRef;
      nextIdRef := nextIdRef + 1;
      var retained := RetainRecent(exchangesRef + [Exchange(id, trimmed, Loading)]);
      var history := HistoryOf(retained[..|retained| - 1]);
      exchangesRef := retained;
      Call(id, trimmed, history);
    }

    method SendAgain(trimmed: string, id: nat)
      modifies this`inFlightRef, this`tokenRef, this`exchangesRef, this`pending, this`log
      ensures Model() == PoseAgain(old(Model()), trimmed, id)
    {
      hide HistoryOf;
      hide SettledAll;
      inFlightRef := true;
      tokenRef := tokenRef + 1;
      var position := FindIndex(id);
      var history := HistoryOf(if position < |exchangesRef| then exchangesRef[..position] else []);
      Settle(id, Loading, scopeRef);
      Call(id, trimmed, history);
    }

    /** The call to the backend leaves with the token and the scope of this moment. */
    method Call(id: nat, question: string, history: seq<Message>)
      modifies this`pending, this`log
      ensures Model() == Ask(old(Model()), id, question, history)
    {
      pending := pending[tokenRef := Request(id, scopeRef, question, history)];
      log := log + [Asked(scopeRef, id, question, history)];
    }

    /** "Riprova" on the exchange at `position`; only a failed one shows it. */
    method PressRetry(position: nat)
      modifies this`inFlightRef, this`tokenRef, this`nextIdRef, this`exchangesRef, this`pending, this`log
      ensures Model() == Retry(old(Model()), position)
    {
      if position < |exchangesRef| && Retryable(exchangesRef[position]) {
        Send(exchangesRef[position].question, Some(exchangesRef[position].id));
      }
    }

    method StartOver()
      modifies this`exchangesRef
      ensures Model() == Mia.StartOver(old(Model()))
    {
      if inFlightRef { return; }
      exchangesRef := [];
    }

    /** The rest of `send`, once the call sent with `token` is answered. */
    method Answered(token: nat, result: ApiResult<AskResponse>)
      modifies this`exchangesRef, this`inFlightRef, this`pending, this`log
      ensures Model() == Land(old(Model()), token, result)
    {
      if token !in pending { return; }
      var r := pending[token];
      pending := pending - {token};
      log := log + [Replied(r.scope, r.id, r.question, result)];
      Settle(r.id, if result.Ok? then StateFromResponse(result.data) else Error, r.scope);
      if tokenRef == token {
        inFlightRef := false;
      }
    }

    method Happens(e: Event)
      modifies this
      ensures Model() == Next(old(Model()), e)
    {
      match e
      case Sends(text) => Send(text, None);
      case Retries(position) => PressRetry(position);
      case StartsOver => StartOver();
      case ChangesScope(next) => ScopeEffect(next);
      case Lands(token, result) => Answered(token, result);
    }
  }

  /** A page driven by any list of events goes through the steps of `Mia.Run`. */
  method Drive(scope: Scope, events: seq<Event>) returns (home: Home)
    ensures fresh(home)
    ensures home.Model() == Run(Start(scope), events)
    ensures MiaRuns.Inv(home.Model())
  {
    hide Next;
    home := new Home(scope);
    for k := 0 to |events|
      invariant fresh(home)
      invariant home.Model() == Run(Start(scope), events[..k])
    {
      assert events[..k + 1][..k] == events[..k];
      home.Happens(events[k]);
    }
    assert events[..|events|] == events;
    MiaRuns.RunKeeps(Start(scope), events);
  }
}
