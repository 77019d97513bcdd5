/** The three hooks that fetch what a screen shows for the property, date and period it is asked about:
    apps/web/lib/data/use-data-overview.ts, apps/web/lib/feed/use-decision-feed.ts and
    apps/web/lib/sources/use-data-sources.ts. Answers arrive in any order, or never. */
module KeyedFetch {
  import opened Basics

  datatype Hook = Overview | Feed | Sources

  datatype Key = Key(propertyId: string, asOfLocalDate: string, period: int)

  /** An answer for `a` may be on screen for `b`. */
  predicate SameScreen(hook: Hook, a: Key, b: Key) {
    a.propertyId == b.propertyId && (hook.Sources? || a.asOfLocalDate == b.asOfLocalDate)
  }

  /** `a` and `b` are the same request. */
  predicate SameRequest(hook: Hook, a: Key, b: Key) {
    SameScreen(hook, a, b) && (hook.Overview? ==> a.period == b.period)
  }

  type Payload = string

  datatype Held =
    | Loading
    | Loaded(key: Key, data: Payload)
    | Resolving(key: Key)
    | Error(key: Key, code: string)

  const NOT_FOUND := "PROPERTY_NOT_FOUND"

  datatype Kind = Load | Refresh

  datatype Request = Request(key: Key, kind: Kind)

  datatype Answer = Answer(key: Key, result: ApiResult<Payload>)

  datatype Machine = Machine(
    props: Key,
    held: Held,
    refreshing: bool,
    /** The load of the latest effect: every earlier one is ignored. */
    current: nat,
    nextId: nat,
    pending: map<nat, Request>,
    log: seq<Answer>,
    /** The properties reported to the caller as no longer valid. */
    reported: seq<Key>)

  function Start(props: Key): Machine {
    Machine(props, Loading, false, 0, 1, map[0 := Request(props, Load)], [], [])
  }

  /** What a call for `key` is turned into. */
  function Fetched(hook: Hook, key: Key, result: ApiResult<Payload>): Held {
    match result
    case Ok(data) => Loaded(key, data)
    case Failed(code) => if code == NOT_FOUND && !hook.Sources? then Resolving(key) else Error(key, code)
  }

  /** A re-read of the sources that fails keeps the last ones the backend gave for the property. */
  function Reread(hook: Hook, held: Held, next: Held, key: Key): Held {
    if hook.Sources? && next.Error? && held.Loaded? && held.key.propertyId == key.propertyId then held else next
  }

  /** The effect runs again when the request changes, and in the feed also with a new callback. */
  function Render(hook: Hook, m: Machine, props: Key, newCallback: bool): Machine {
    if SameRequest(hook, m.props, props) && !(hook.Feed? && newCallback) then m.(props := props)
    else m.(props := props, current := m.nextId, nextId := m.nextId + 1, pending := m.pending[m.nextId := Request(props, Load)])
  }

  function PressRefresh(m: Machine): Machine {
    m.(refreshing := true, nextId := m.nextId + 1, pending := m.pending[m.nextId := Request(m.props, Refresh)])
  }

  function Land(hook: Hook, m: Machine, id: nat, result: ApiResult<Payload>): Machine {
    if id !in m.pending then m
    else
      var r := m.pending[id];
      var next := Fetched(hook, r.key, result);
      var heard := m.(pending := m.pending - {id}, log := m.log + [Answer(r.key, result)]);
      var invalid := result == Failed(NOT_FOUND);
      if r.kind.Refresh? then
        heard.(held := Reread(hook, m.held, next, r.key), refreshing := false,
               reported := if invalid then m.reported + [r.key] else m.reported)
      else if id == m.current then
        heard.(held := next, reported := if invalid then m.reported + [r.key] else m.reported)
      else
        heard.(reported := if invalid && hook.Sources? then m.reported + [r.key] else m.reported)
  }

  datatype Event =
    | Renders(props: Key, newCallback: bool)
    | Refreshes
    | Lands(id: nat, result: ApiResult<Payload>)

  function Next(hook: Hook, m: Machine, e: Event): Machine {
    match e
    case Renders(props, newCallback) => Render(hook, m, props, newCallback)
    case Refreshes => PressRefresh(m)
    case Lands(id, result) => Land(hook, m, id, result)
  }

  function Run(hook: Hook, m: Machine, events: seq<Event>): Machine {
    if events == [] then m else Next(hook, Run(hook, m, events[..|events| - 1]), events[|events| - 1])
  }

  // ---------------------------------------------------------------------------------------------
  // What the screen gets
  // ---------------------------------------------------------------------------------------------

  predicate Foreign(hook: Hook, m: Machine) {
    !m.held.Loading? && !SameScreen(hook, m.held.key, m.props)
  }

  function Data(hook: Hook, m: Machine): Option<Payload> {
    if !Foreign(hook, m) && m.held.Loaded? then Some(m.held.data) else None
  }

  /** The sources have no such flag: they only tell loading, ready and error apart. */
  predicate Busy(hook: Hook, m: Machine) {
    || (m.refreshing && !hook.Sources?) || m.held.Loading? || m.held.Resolving? || Foreign(hook, m)
    || (hook.Overview? && !m.held.Loading? && m.held.key.period != m.props.period)
  }

  predicate HasFailed(hook: Hook, m: Machine) {
    !Busy(hook, m) && m.held.Error?
  }

  // ---------------------------------------------------------------------------------------------
  // The hook as an object
  // ---------------------------------------------------------------------------------------------

  class Fetch {
    const hook: Hook
    var props: Key
    var held: Held
    var refreshing: bool
    var current: nat
    var nextId: nat
    var pending: map<nat, Request>
    var log: seq<Answer>
    var reported: seq<Key>

    ghost function Model(): Machine
      reads this
    {
      Machine(props, held, refreshing, current, nextId, pending, log, reported)
    }

    constructor (hook: Hook, props: Key)
      ensures this.hook == hook && Model() == Start(props)
    {
      this.hook, this.props := hook, props;
      held, refreshing := Loading, false;
      current, nextId := 0, 1;
      pending := map[0 := Request(props, Load)];
      log, reported := [], [];
    }

    method Rendered(next: Key, newCallback: bool)
      modifies this
      ensures Model() == Render(hook, old(Model()), next, newCallback)
    {
      var again := !SameRequest(hook, props, next) || (hook.Feed? && newCallback);
      props := next;
      if again {
        current := nextId;
        Send(Load);
      }
    }

    method Send(kind: Kind)
      modifies this`nextId, this`pending
      ensures nextId == old(nextId) + 1 && pending == old(pending)[old(nextId) := Request(props, kind)]
    {
      pending := pending[nextId := Request(props, kind)];
      nextId := nextId + 1;
    }

    method PressedRefresh()
      modifies this
      ensures Model() == PressRefresh(old(Model()))
    {
      refreshing := true;
      Send(Refresh);
    }

    method Answered(id: nat, result: ApiResult<Payload>)
      modifies this
      ensures Model() == Land(hook, old(Model()), id, result)
    {
      if id !in pending { return; }
      var r := pending[id];
      pending := pending - {id};
      log := log + [Answer(r.key, result)];
      var next := Fetched(hook, r.key, result);
      var invalid := result == Failed(NOT_FOUND);
      if invalid && hook.Sources? {
        reported := reported + [r.key];
      }
      if r.kind.Load? && id != current { return; }
      if r.kind.Refresh? {
        held := Reread(hook, held, next, r.key);
      } else {
        held := next;
      }
      if invalid && !hook.Sources? {
        reported := reported + [r.key];
      }
      if r.kind.Refresh? {
        refreshing := false;
      }
    }

    method Happens(e: Event)
      modifies this
      ensures Model() == Next(hook, old(Model()), e)
    {
      match e
      case Renders(next, newCallback) => Rendered(next, newCallback);
      case Refreshes => PressedRefresh();
      case Lands(id, result) => Answered(id, result);
    }
  }

  // ---------------------------------------------------------------------------------------------
  // What every run keeps
  // ---------------------------------------------------------------------------------------------

  /** What is held is an answer the backend really gave, for the key it is held for. */
  predicate HeldIsReal(hook: Hook, held: Held, log: seq<Answer>) {
    match held
    case Loading => true
    case Loaded(key, data) => Answer(key, Ok(data)) in log
    case Resolving(key) => Answer(key, Failed(NOT_FOUND)) in log && !hook.Sources?
    case Error(key, code) => Answer(key, Failed(code)) in log && (code == NOT_FOUND ==> hook.Sources?)
  }

  ghost predicate Inv(hook: Hook, m: Machine) {
    && m.current < m.nextId
    && (forall id :: id in m.pending ==> id < m.nextId)
    && (m.current in m.pending ==> m.pending[m.current].kind.Load? && SameRequest(hook, m.pending[m.current].key, m.props))
    && HeldIsReal(hook, m.held, m.log)
    && (forall i :: 0 <= i < |m.reported| ==> Answer(m.reported[i], Failed(NOT_FOUND)) in m.log)
  }

  lemma StillReal(hook: Hook, held: Held, log: seq<Answer>, answer: Answer)
    requires HeldIsReal(hook, held, log)
    ensures HeldIsReal(hook, held, log + [answer])
  {
  }

  lemma FetchedIsReal(hook: Hook, key: Key, result: ApiResult<Payload>, log: seq<Answer>)
    ensures HeldIsReal(hook, Fetched(hook, key, result), log + [Answer(key, result)])
  {
    assert Answer(key, result) == (log + [Answer(key, result)])[|log|];
  }

  lemma LandKeeps(hook: Hook, m: Machine, id: nat, result: ApiResult<Payload>)
    requires Inv(hook, m)
    ensures Inv(hook, Land(hook, m, id, result))
  {
    if id in m.pending {
      var key := m.pending[id].key;
      StillReal(hook, m.held, m.log, Answer(key, result));
      FetchedIsReal(hook, key, result, m.log);
      assert Answer(key, result) == (m.log + [Answer(key, result)])[|m.log|];
    }
  }

  lemma NextKeeps(hook: Hook, m: Machine, e: Event)
    requires Inv(hook, m)
    ensures Inv(hook, Next(hook, m, e))
  {
    if e.Lands? {
      LandKeeps(hook, m, e.id, e.result);
    }
  }

  lemma {:induction false} RunKeeps(hook: Hook, m: Machine, events: seq<Event>)
    requires Inv(hook, m)
    ensures Inv(hook, Run(hook, m, events))
    decreases |events|
  {
    if events != [] {
      RunKeeps(hook, m, events[..|events| - 1]);
      NextKeeps(hook, Run(hook, m, events[..|events| - 1]), events[|events| - 1]);
    }
  }

  ghost predicate Reachable(hook: Hook, m: Machine) {
    exists props, events :: m == Run(hook, Start(props), events)
  }

  lemma ReachableKeeps(hook: Hook, m: Machine)
    requires Reachable(hook, m)
    ensures Inv(hook, m)
  {
    var props, events :| m == Run(hook, Start(props), events);
    RunKeeps(hook, Start(props), events);
  }

  /** Whatever order loads and refreshes are answered in, a refresh of an earlier property included: what is on screen
      was answered to a request for the property (and date) on screen; on a screen that is not busy it was answered
      to the very request that the screen now makes, and a failure shown is that of such a request. */
  lemma ShownIsForTheScreen(hook: Hook, m: Machine)
    requires Reachable(hook, m)
    ensures Data(hook, m).Some? ==>
              exists key :: Answer(key, Ok(Data(hook, m).value)) in m.log
                && key.propertyId == m.props.propertyId && (!hook.Sources? ==> key.asOfLocalDate == m.props.asOfLocalDate)
    ensures Data(hook, m).Some? && !Busy(hook, m) ==>
              exists key :: Answer(key, Ok(Data(hook, m).value)) in m.log
                && key.propertyId == m.props.propertyId && (!hook.Sources? ==> key.asOfLocalDate == m.props.asOfLocalDate)
                && (hook.Overview? ==> key.period == m.props.period)
    ensures HasFailed(hook, m) ==>
              exists key, code :: Answer(key, Failed(code)) in m.log
                && key.propertyId == m.props.propertyId && (!hook.Sources? ==> key.asOfLocalDate == m.props.asOfLocalDate)
                && (hook.Overview? ==> key.period == m.props.period)
  {
    ReachableKeeps(hook, m);
    if Data(hook, m).Some? {
      assert SameScreen(hook, m.held.key, m.props) && Answer(m.held.key, Ok(m.held.data)) in m.log;
    }
    if HasFailed(hook, m) {
      assert SameRequest(hook, m.held.key, m.props) && Answer(m.held.key, Failed(m.held.code)) in m.log;
    }
  }

  /** A load that a later effect has superseded: it is never the current one again. */
  predicate Superseded(m: Machine, id: nat) {
    id < m.nextId && id != m.current && (id in m.pending ==> m.pending[id].kind.Load?)
  }

  /** The same on screen, and the same requests on their way, number `id` apart. The sources report that a property is
      gone whichever load says so. */
  predicate AlikeBut(hook: Hook, a: Machine, b: Machine, id: nat) {
    && a.props == b.props && a.held == b.held && a.refreshing == b.refreshing
    && a.current == b.current && a.nextId == b.nextId && a.pending - {id} == b.pending - {id}
    && (a.reported != b.reported ==> hook.Sources?)
  }

  lemma StaysSuperseded(hook: Hook, m: Machine, e: Event, id: nat)
    requires Superseded(m, id)
    ensures Superseded(Next(hook, m, e), id)
  {
  }

  lemma SupersededLands(hook: Hook, m: Machine, id: nat, result: ApiResult<Payload>)
    requires Superseded(m, id)
    ensures AlikeBut(hook, Land(hook, m, id, result), m, id)
  {
  }

  lemma SentAlike(a: map<nat, Request>, b: map<nat, Request>, next: nat, r: Request, id: nat)
    requires a - {id} == b - {id} && next != id
    ensures a[next := r] - {id} == b[next := r] - {id}
  {
    assert a[next := r] - {id} == (a - {id})[next := r];
    assert b[next := r] - {id} == (b - {id})[next := r];
  }

  lemma AlikeLanding(hook: Hook, a: Machine, b: Machine, other: nat, result: ApiResult<Payload>, id: nat)
    requires AlikeBut(hook, a, b, id) && other != id
    ensures AlikeBut(hook, Land(hook, a, other, result), Land(hook, b, other, result), id)
  {
    assert other in a.pending <==> other in a.pending - {id};
    assert other in b.pending <==> other in b.pending - {id};
    assert a.pending - {other} - {id} == a.pending - {id} - {other};
    assert b.pending - {other} - {id} == b.pending - {id} - {other};
  }

  lemma AlikeStep(hook: Hook, a: Machine, b: Machine, e: Event, id: nat)
    requires AlikeBut(hook, a, b, id) && Superseded(a, id) && Superseded(b, id)
    ensures AlikeBut(hook, Next(hook, a, e), Next(hook, b, e), id)
  {
    match e
    case Lands(other, result) =>
      if other == id {
        SupersededLands(hook, a, id, result);
        SupersededLands(hook, b, id, result);
        hide Land;
      } else {
        AlikeLanding(hook, a, b, other, result, id);
        hide Land;
      }
    case Refreshes =>
      SentAlike(a.pending, b.pending, a.nextId, Request(a.props, Refresh), id);
    case Renders(props, _) =>
      SentAlike(a.pending, b.pending, a.nextId, Request(props, Load), id);
  }

  lemma {:induction false} AlikeRuns(hook: Hook, a: Machine, b: Machine, events: seq<Event>, id: nat)
    requires AlikeBut(hook, a, b, id) && Superseded(a, id) && Superseded(b, id)
    ensures AlikeBut(hook, Run(hook, a, events), Run(hook, b, events), id)
    ensures Superseded(Run(hook, a, events), id) && Superseded(Run(hook, b, events), id)
    decreases |events|
  {
    hide AlikeBut;
    hide Superseded;
    hide Next;
    if events != [] {
      var front, e := events[..|events| - 1], events[|events| - 1];
      AlikeRuns(hook, a, b, front, id);
      StaysSuperseded(hook, Run(hook, a, front), e, id);
      StaysSuperseded(hook, Run(hook, b, front), e, id);
      AlikeStep(hook, Run(hook, a, front), Run(hook, b, front), e, id);
    }
  }

  /** Once an effect is superseded, whatever its load is answered leaves no trace on screen: any further run shows what
      it shows had the answer never come. */
  lemma EarlierLoadsAreIgnored(hook: Hook, m: Machine, id: nat, result: ApiResult<Payload>, events: seq<Event>)
    requires Reachable(hook, m) && id in m.pending && m.pending[id].kind.Load? && id != m.current
    ensures var heard, unheard := Run(hook, Land(hook, m, id, result), events), Run(hook, m, events);
            && heard.props == unheard.props && heard.held == unheard.held && heard.refreshing == unheard.refreshing
            && Data(hook, heard) == Data(hook, unheard)
            && (Busy(hook, heard) <==> Busy(hook, unheard)) && (HasFailed(hook, heard) <==> HasFailed(hook, unheard))
            && (heard.reported != unheard.reported ==> hook.Sources?)
  {
    ReachableKeeps(hook, m);
    SupersededLands(hook, m, id, result);
    StaysSuperseded(hook, m, Lands(id, result), id);
    AlikeRuns(hook, Land(hook, m, id, result), m, events, id);
    hide Run;
  }

  /** A render with another request supersedes every load under way: the one it starts, for what is now on screen, is
      awaited instead. */
  lemma AnotherRequestSupersedes(hook: Hook, m: Machine, props: Key, newCallback: bool, id: nat)
    requires Reachable(hook, m) && id in m.pending && m.pending[id].kind.Load?
    requires !SameRequest(hook, m.props, props) || (hook.Feed? && newCallback)
    ensures var after := Render(hook, m, props, newCallback);
            && id in after.pending && id != after.current && after.pending[id] == m.pending[id]
            && after.current in after.pending && after.pending[after.current] == Request(props, Load) && after.props == props
  {
    ReachableKeeps(hook, m);
  }

  /** The load the screen waits for settles it: its data is shown, and nothing but a refresh keeps it busy. */
  lemma TheLoadAwaitedIsShown(hook: Hook, m: Machine, data: Payload)
    requires Reachable(hook, m) && m.current in m.pending
    ensures var after := Land(hook, m, m.current, Ok(data));
            Data(hook, after) == Some(data) && (Busy(hook, after) <==> m.refreshing && !hook.Sources?)
  {
    ReachableKeeps(hook, m);
  }

  /** The load the screen waits for also settles it when it fails: no data is left, and the failure is shown, except that
      for a property or date that is gone the overview and the feed stay busy until another one is on screen. Only then is
      the property reported. */
  lemma AFailedLoadIsShown(hook: Hook, m: Machine, code: string)
    requires Reachable(hook, m) && m.current in m.pending
    ensures var after := Land(hook, m, m.current, Failed(code));
            && after.props == m.props && after.pending == m.pending - {m.current}
            && after.current == m.current && after.refreshing == m.refreshing
            && Data(hook, after) == None
            && (code != "PROPERTY_NOT_FOUND" || hook.Sources? ==>
                  && (HasFailed(hook, after) <==> !m.refreshing || hook.Sources?)
                  && after.held == Error(m.pending[m.current].key, code))
            && (code == "PROPERTY_NOT_FOUND" && !hook.Sources? ==> Busy(hook, after) && !HasFailed(hook, after))
            && after.reported == m.reported + if code == "PROPERTY_NOT_FOUND" then [m.pending[m.current].key] else []
  {
    ReachableKeeps(hook, m);
    assert m.reported + [] == m.reported;
  }

  /** What a refresh that failed, or was pressed, does beside the data: it asks for what is on screen now, and when it lands
      the screen is no longer refreshing and a property that is gone is reported. */
  lemma WhatARefreshDoes(hook: Hook, m: Machine, id: nat, result: ApiResult<Payload>)
    ensures var pressed := Next(hook, m, Refreshes);
            && pressed.refreshing && pressed.held == m.held && pressed.props == m.props && pressed.current == m.current
            && pressed.nextId == m.nextId + 1 && pressed.pending == m.pending[m.nextId := Request(m.props, Refresh)]
            && pressed.log == m.log && pressed.reported == m.reported
    ensures id in m.pending && m.pending[id].kind.Refresh? ==>
              var after := Land(hook, m, id, result);
              && !after.refreshing && after.pending == m.pending - {id}
              && after.reported == m.reported + if result == Failed("PROPERTY_NOT_FOUND") then [m.pending[id].key] else []
  {
    assert m.reported + [] == m.reported;
  }

  /** A render starts a load exactly when the request is another one, or in the feed the callback is. */
  lemma WhenALoadStarts(hook: Hook, m: Machine, props: Key, newCallback: bool)
    ensures var after := Next(hook, m, Renders(props, newCallback));
            var again := props.propertyId != m.props.propertyId
                      || (!hook.Sources? && props.asOfLocalDate != m.props.asOfLocalDate)
                      || (hook.Overview? && props.period != m.props.period) || (hook.Feed? && newCallback);
            && after.props == props && after.held == m.held && after.refreshing == m.refreshing && after.log == m.log
            && (again ==> after.current == m.nextId && after.nextId == m.nextId + 1
                          && after.pending == m.pending[m.nextId := Request(props, Load)])
            && (!again ==> after == m.(props := props))
  {
  }

  /** A screen starts with nothing to show, busy, and awaiting the load of what it is asked about. */
  lemma WhatAScreenStartsWith(hook: Hook, props: Key)
    ensures var m := Run(hook, Start(props), []);
            && m.props == props && Data(hook, m) == None && Busy(hook, m) && !HasFailed(hook, m)
            && m.pending == map[m.current := Request(props, Load)] && m.log == [] && m.reported == []
  {
  }

  /** What is held for another property or date is not shown: until its own load arrives the screen is empty and busy. */
  lemma AnotherScreenIsEmpty(hook: Hook, m: Machine)
    requires !m.held.Loading?
    requires m.held.key.propertyId != m.props.propertyId || (!hook.Sources? && m.held.key.asOfLocalDate != m.props.asOfLocalDate)
    ensures Data(hook, m) == None && Busy(hook, m) && !HasFailed(hook, m)
  {
  }

  lemma {:induction false} RequestsStay(hook: Hook, m: Machine, events: seq<Event>, id: nat)
    requires id < m.nextId
    ensures var later := Run(hook, m, events);
            id < later.nextId && (id in later.pending ==> id in m.pending && later.pending[id] == m.pending[id])
    decreases |events|
  {
    if events != [] {
      RequestsStay(hook, m, events[..|events| - 1], id);
    }
  }

  /** What a refresh leaves on screen, however late it lands and whatever came in between: its own answer when the screen
      still is that for which it was pressed; otherwise nothing at all, except that the sources survive a failed re-read
      of their own property. */
  lemma WhatARefreshLeaves(hook: Hook, m: Machine, events: seq<Event>, result: ApiResult<Payload>)
    requires m.nextId in Run(hook, PressRefresh(m), events).pending
    ensures var before, key := Run(hook, PressRefresh(m), events), m.props;
            var after := Land(hook, before, m.nextId, result);
            var survives := hook.Sources? && before.held.Loaded? && before.held.key.propertyId == key.propertyId;
            var here := key.propertyId == before.props.propertyId && (hook.Sources? || key.asOfLocalDate == before.props.asOfLocalDate);
            && !after.refreshing
            && (result.Ok? ==> Data(hook, after) == if here then Some(result.data) else None)
            && (result.Failed? ==> Data(hook, after) == if survives then Data(hook, before) else None)
            && (result.Failed? && !survives && here ==>
                  (hook.Overview? && key.period != before.props.period) || (!hook.Sources? && result.code == "PROPERTY_NOT_FOUND")
                  || HasFailed(hook, after))
  {
    RequestsStay(hook, PressRefresh(m), events, m.nextId);
    hide Run;
  }

  /** A screen driven by any list of events goes through the steps of `Run`. */
  method Drive(hook: Hook, props: Key, events: seq<Event>) returns (fetch: Fetch)
    ensures fetch.Model() == Run(hook, Start(props), events)
    ensures Inv(hook, fetch.Model())
  {
    hide Next;
    fetch := new Fetch(hook, props);
    for k := 0 to |events|
      invariant fresh(fetch) && fetch.hook == hook
      invariant fetch.Model() == Run(hook, Start(props), events[..k])
    {
      assert events[..k + 1][..k] == events[..k];
      fetch.Happens(events[k]);
    }
    assert events[..|events|] == events;
    RunKeeps(hook, Start(props), events);
  }
}
