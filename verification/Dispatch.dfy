/** The dispatcher of the automatic analysis and the job queue behind it (services/worker/worker/dispatch.py). The
    queue refuses a job whose lock a queued job already holds; a worker that takes a job frees its lock. */
module Dispatch {
  import opened Basics

  datatype SkipReason = Policy(text: string) | JobAlreadyQueued

  /** One enabled policy, evaluated; it is eligible when there is no reason to skip it. */
  datatype Evaluation = Evaluation(workspaceId: string, propertyId: string, skipReason: Option<SkipReason>) {
    predicate Eligible() {
      skipReason.None?
    }
  }

  datatype Record = Record(evaluation: Evaluation, jobId: Option<nat>, skipReason: Option<SkipReason>) {
    predicate Enqueued() {
      jobId.Some?
    }
  }

  datatype Task = RunPolicy | RunProperty | Heartbeat

  datatype Job = Job(id: nat, task: Task, propertyId: string, lock: Option<string>, queued: bool)

  /** The jobs ever deferred, in order. */
  datatype Queue = Queue(jobs: seq<Job>, nextId: nat)

  function LockOf(propertyId: string): string {
    "analysis.run_policy:" + propertyId
  }

  predicate Locked(q: Queue, lock: string) {
    exists i :: 0 <= i < |q.jobs| && q.jobs[i].queued && q.jobs[i].lock == Some(lock)
  }

  function Added(q: Queue, task: Task, propertyId: string, lock: Option<string>): Queue {
    Queue(q.jobs + [Job(q.nextId, task, propertyId, lock, true)], q.nextId + 1)
  }

  /** What becomes of one evaluation. */
  function RecordOf(q: Queue, e: Evaluation): Record {
    if !e.Eligible() then Record(e, None, e.skipReason)
    else if Locked(q, LockOf(e.propertyId)) then Record(e, None, Some(JobAlreadyQueued))
    else Record(e, Some(q.nextId), None)
  }

  function After(q: Queue, e: Evaluation): Queue {
    if RecordOf(q, e).Enqueued() then Added(q, RunPolicy, e.propertyId, Some(LockOf(e.propertyId))) else q
  }

  function AfterAll(q: Queue, evaluations: seq<Evaluation>): Queue {
    if evaluations == [] then q
    else After(AfterAll(q, evaluations[..|evaluations| - 1]), evaluations[|evaluations| - 1])
  }

  function RecordsOf(q: Queue, evaluations: seq<Evaluation>): (records: seq<Record>)
    ensures |records| == |evaluations|
    ensures forall i :: 0 <= i < |evaluations| ==> records[i] == RecordOf(AfterAll(q, evaluations[..i]), evaluations[i])
  {
    seq(|evaluations|, i requires 0 <= i < |evaluations| => RecordOf(AfterAll(q, evaluations[..i]), evaluations[i]))
  }

  /** How many evaluations are gone through, from number `k` on, before deferring fails. */
  function ReachedFrom(evaluations: seq<Evaluation>, broken: set<nat>, k: nat): (n: nat)
    requires k <= |evaluations|
    ensures k <= n <= |evaluations| && (n < |evaluations| ==> evaluations[n].Eligible() && n in broken)
    ensures forall i :: k <= i < n ==> !(evaluations[i].Eligible() && i in broken)
    decreases |evaluations| - k
  {
    if k == |evaluations| || (evaluations[k].Eligible() && k in broken) then k else ReachedFrom(evaluations, broken, k + 1)
  }

  function Reached(evaluations: seq<Evaluation>, broken: set<nat>): (n: nat)
    ensures n <= |evaluations| && (n < |evaluations| ==> evaluations[n].Eligible() && n in broken)
    ensures forall i :: 0 <= i < n ==> !(evaluations[i].Eligible() && i in broken)
  {
    ReachedFrom(evaluations, broken, 0)
  }

  lemma AfterAllOneMore(q: Queue, evaluations: seq<Evaluation>, k: nat)
    requires k < |evaluations|
    ensures AfterAll(q, evaluations[..k + 1]) == After(AfterAll(q, evaluations[..k]), evaluations[k])
  {
    assert evaluations[..k + 1][..k] == evaluations[..k];
  }

  lemma NothingAfterNone(q: Queue, none: seq<Evaluation>)
    requires none == []
    ensures AfterAll(q, none) == q
  {
  }

  lemma SkippedIsRecorded(q: Queue, e: Evaluation)
    requires !e.Eligible()
    ensures RecordOf(q, e) == Record(e, None, e.skipReason) && After(q, e) == q
  {
  }

  /** These are the records of the first evaluations. */
  ghost predicate Recorded(records: seq<Record>, q: Queue, evaluations: seq<Evaluation>) {
    |records| <= |evaluations| && forall i :: 0 <= i < |records| ==> records[i] == RecordOf(AfterAll(q, evaluations[..i]), evaluations[i])
  }

  lemma AllRecorded(records: seq<Record>, q: Queue, evaluations: seq<Evaluation>)
    requires Recorded(records, q, evaluations) && |records| == |evaluations|
    ensures records == RecordsOf(q, evaluations)
  {
    hide RecordOf;
    hide AfterAll;
  }

  class JobQueue {
    var jobs: seq<Job>
    var nextId: nat

    ghost function Model(): Queue
      reads this
    {
      Queue(jobs, nextId)
    }

    constructor ()
      ensures Model() == Queue([], 0)
    {
      jobs, nextId := [], 0;
    }

    /** None when the lock is held (`AlreadyEnqueued`). */
    method Defer(task: Task, propertyId: string, lock: Option<string>) returns (id: Option<nat>)
      modifies this
      ensures var before := old(Model());
              if lock.Some? && Locked(before, lock.value) then id == None && Model() == before
              else id == Some(before.nextId) && Model() == Added(before, task, propertyId, lock)
    {
      if lock.Some? {
        for i := 0 to |jobs|
          invariant forall k :: 0 <= k < i ==> !(jobs[k].queued && jobs[k].lock == lock)
        {
          if jobs[i].queued && jobs[i].lock == lock { return None; }
        }
      }
      jobs := jobs + [Job(nextId, task, propertyId, lock, true)];
      id := Some(nextId);
      nextId := nextId + 1;
    }

    /** One eligible evaluation: its job is deferred, or its property has one queued already. */
    method Offer(e: Evaluation) returns (record: Record)
      requires e.Eligible()
      modifies this
      ensures record == RecordOf(old(Model()), e) && Model() == After(old(Model()), e)
    {
      hide Locked;
      hide LockOf;
      var id := Defer(RunPolicy, e.propertyId, Some(LockOf(e.propertyId)));
      record := Record(e, id, if id.None? then Some(JobAlreadyQueued) else None);
    }

    /** The loop over the evaluations; `broken` says where deferring raises something else. None then, and the jobs
        deferred before stay. */
    method Enqueue(evaluations: seq<Evaluation>, broken: set<nat>) returns (records: Option<seq<Record>>)
      modifies this
      ensures records.Some? <==> forall k :: 0 <= k < |evaluations| && evaluations[k].Eligible() ==> k !in broken
      ensures records.Some? ==> records.value == RecordsOf(old(Model()), evaluations)
      ensures Model() == AfterAll(old(Model()), evaluations[..Reached(evaluations, broken)])
    {
      hide RecordOf;
      hide After;
      hide AfterAll;
      assert AfterAll(old(Model()), evaluations[..0]) == old(Model()) by { NothingAfterNone(old(Model()), evaluations[..0]); }
      var taken: seq<Record> := [];
      for k := 0 to |evaluations|
        invariant forall i :: 0 <= i < k ==> !(evaluations[i].Eligible() && i in broken)
        invariant |taken| == k && Recorded(taken, old(Model()), evaluations)
        invariant Model() == AfterAll(old(Model()), evaluations[..k])
      {
        AfterAllOneMore(old(Model()), evaluations, k);
        var e := evaluations[k];
        if !e.Eligible() { SkippedIsRecorded(Model(), e); }
        var record := Record(e, None, e.skipReason);
        if e.Eligible() {
          if k in broken {
            assert Reached(evaluations, broken) == k;
            return None;
          }
          record := Offer(e);
        }
        taken := taken + [record];
      }
      assert Reached(evaluations, broken) == |evaluations|;
      AllRecorded(taken, old(Model()), evaluations);
      records := Some(taken);
    }

    /** A worker takes a job and, in the end, is done with it. */
    method Take(i: nat)
      modifies this`jobs
      ensures Model() == Taken(old(Model()), i)
    {
      if i < |jobs| {
        jobs := jobs[i := jobs[i].(queued := false)];
      }
    }
  }

  function Taken(q: Queue, i: nat): Queue {
    if i < |q.jobs| then q.(jobs := q.jobs[i := q.jobs[i].(queued := false)]) else q
  }

  // ---------------------------------------------------------------------------------------------
  // At most one queued job per property
  // ---------------------------------------------------------------------------------------------

  datatype Event =
    /** A dispatch; it aborts where deferring raises something else. */
    | Dispatches(evaluations: seq<Evaluation>, broken: set<nat>)
    /** The other commands defer jobs of their own, without a lock. */
    | Defers(task: Task, propertyId: string)
    | Takes(i: nat)

  function Next(q: Queue, e: Event): Queue {
    match e
    case Dispatches(evaluations, broken) => AfterAll(q, evaluations[..Reached(evaluations, broken)])
    case Defers(task, propertyId) => if task.RunPolicy? then q else Added(q, task, propertyId, None)
    case Takes(i) => Taken(q, i)
  }

  function Run(q: Queue, events: seq<Event>): Queue {
    if events == [] then q else Next(Run(q, events[..|events| - 1]), events[|events| - 1])
  }

  /** Job `i` is a queued analysis of the property. */
  predicate QueuedFor(q: Queue, i: nat, propertyId: string) {
    i < |q.jobs| && q.jobs[i].queued && q.jobs[i].task.RunPolicy? && q.jobs[i].propertyId == propertyId
  }

  ghost predicate Queued(q: Queue, propertyId: string) {
    exists i: nat :: QueuedFor(q, i, propertyId)
  }

  ghost predicate Inv(q: Queue) {
    && (forall i :: 0 <= i < |q.jobs| ==> q.jobs[i].lock == if q.jobs[i].task.RunPolicy? then Some(LockOf(q.jobs[i].propertyId)) else None)
    && (forall i, j :: 0 <= i < j < |q.jobs| && q.jobs[i].queued && q.jobs[j].queued && q.jobs[i].lock.Some? ==> q.jobs[i].lock != q.jobs[j].lock)
    && (forall i :: 0 <= i < |q.jobs| ==> q.jobs[i].id < q.nextId)
    && (forall i, j :: 0 <= i < j < |q.jobs| ==> q.jobs[i].id != q.jobs[j].id)
  }

  lemma LocksTellPropertiesApart(p: string, q: string)
    requires LockOf(p) == LockOf(q)
    ensures p == q
  {
    var n := |"analysis.run_policy:"|;
    assert LockOf(p)[n..] == p && LockOf(q)[n..] == q;
  }

  /** A property's lock is held exactly while an analysis of it is queued. */
  lemma LockedMeansQueued(q: Queue, propertyId: string)
    requires Inv(q)
    ensures Locked(q, LockOf(propertyId)) <==> Queued(q, propertyId)
  {
    if Locked(q, LockOf(propertyId)) {
      var i :| 0 <= i < |q.jobs| && q.jobs[i].queued && q.jobs[i].lock == Some(LockOf(propertyId));
      LocksTellPropertiesApart(q.jobs[i].propertyId, propertyId);
      assert QueuedFor(q, i, propertyId);
    }
    if Queued(q, propertyId) {
      var i: nat :| QueuedFor(q, i, propertyId);
      assert q.jobs[i].lock == Some(LockOf(propertyId));
    }
  }

  lemma AfterKeeps(q: Queue, e: Evaluation)
    requires Inv(q)
    ensures Inv(After(q, e))
  {
    hide LockOf;
  }

  lemma {:induction false} AfterAllKeeps(q: Queue, evaluations: seq<Evaluation>)
    requires Inv(q)
    ensures Inv(AfterAll(q, evaluations))
    decreases |evaluations|
  {
    if evaluations != [] {
      AfterAllKeeps(q, evaluations[..|evaluations| - 1]);
      AfterKeeps(AfterAll(q, evaluations[..|evaluations| - 1]), evaluations[|evaluations| - 1]);
    }
  }

  lemma NextKeeps(q: Queue, e: Event)
    requires Inv(q)
    ensures Inv(Next(q, e))
  {
    hide LockOf;
    if e.Dispatches? {
      AfterAllKeeps(q, e.evaluations[..Reached(e.evaluations, e.broken)]);
    }
  }

  lemma {:induction false} RunKeeps(q: Queue, events: seq<Event>)
    requires Inv(q)
    ensures Inv(Run(q, events))
    decreases |events|
  {
    if events != [] {
      RunKeeps(q, events[..|events| - 1]);
      NextKeeps(Run(q, events[..|events| - 1]), events[|events| - 1]);
    }
  }

  /** The queue goes through `Run`. */
  method Drive(events: seq<Event>) returns (queue: JobQueue)
    ensures fresh(queue) && queue.Model() == Run(Queue([], 0), events)
    ensures Inv(queue.Model())
  {
    hide AfterAll;
    hide Added;
    hide Taken;
    hide Inv;
    queue := new JobQueue();
    for k := 0 to |events|
      invariant fresh(queue) && queue.Model() == Run(Queue([], 0), events[..k])
    {
      assert events[..k + 1][..k] == events[..k];
      match events[k]
      case Dispatches(evaluations, broken) =>
        var records := queue.Enqueue(evaluations, broken);
      case Defers(task, propertyId) =>
        if !task.RunPolicy? {
          var id := queue.Defer(task, propertyId, None);
        }
      case Takes(i) => queue.Take(i);
    }
    assert events[..|events|] == events;
    RunKeeps(Queue([], 0), events);
  }

  /** Over any dispatches, aborted ones included, other commands and workers taking jobs: no property ever has two
      queued analyses. */
  lemma OneQueuedJobPerProperty(events: seq<Event>, i: nat, j: nat, propertyId: string)
    requires QueuedFor(Run(Queue([], 0), events), i, propertyId) && QueuedFor(Run(Queue([], 0), events), j, propertyId)
    ensures i == j
  {
    RunKeeps(Queue([], 0), events);
    hide LockOf;
  }

  // ---------------------------------------------------------------------------------------------
  // What a dispatch reports
  // ---------------------------------------------------------------------------------------------

  /** An evaluation before `k` is eligible for the property. */
  predicate EligibleBefore(evaluations: seq<Evaluation>, k: nat, propertyId: string) {
    exists j :: 0 <= j < k && j < |evaluations| && evaluations[j].Eligible() && evaluations[j].propertyId == propertyId
  }

  lemma AfterQueues(q: Queue, e: Evaluation, propertyId: string)
    requires Inv(q)
    ensures Queued(After(q, e), propertyId) <==> Queued(q, propertyId) || (e.Eligible() && e.propertyId == propertyId)
  {
    LockedMeansQueued(q, e.propertyId);
    var after := After(q, e);
    forall i: nat | QueuedFor(q, i, propertyId) ensures QueuedFor(after, i, propertyId) {
    }
    if RecordOf(q, e).Enqueued() {
      assert QueuedFor(after, |q.jobs|, e.propertyId);
    }
    forall i: nat | QueuedFor(after, i, propertyId) && i < |q.jobs| ensures QueuedFor(q, i, propertyId) {
    }
  }

  /** After the first `k` evaluations a property is queued exactly if it was before or one of them was eligible for
      it. */
  lemma {:induction false} AfterAllQueues(q: Queue, evaluations: seq<Evaluation>, k: nat, propertyId: string)
    requires Inv(q) && k <= |evaluations|
    ensures Queued(AfterAll(q, evaluations[..k]), propertyId) <==> Queued(q, propertyId) || EligibleBefore(evaluations, k, propertyId)
    decreases k
  {
    if k > 0 {
      var n := k - 1;
      AfterAllQueues(q, evaluations, n, propertyId);
      AfterAllKeeps(q, evaluations[..n]);
      assert evaluations[..k][..n] == evaluations[..n];
      AfterQueues(AfterAll(q, evaluations[..n]), evaluations[n], propertyId);
      hide After;
      hide Queued;
      assert EligibleBefore(evaluations, k, propertyId) <==>
        EligibleBefore(evaluations, n, propertyId) || (evaluations[n].Eligible() && evaluations[n].propertyId == propertyId);
    }
  }

  /** Evaluation `k` is enqueued exactly when it is eligible, no analysis of its property was queued, and no earlier
      evaluation of this dispatch was eligible for it; otherwise the record says why not. */
  lemma EachRecordIsRight(q: Queue, evaluations: seq<Evaluation>, k: nat)
    requires Inv(q) && k < |evaluations|
    ensures var e, record := evaluations[k], RecordsOf(q, evaluations)[k];
            && record.evaluation == e
            && (record.Enqueued() <==> e.Eligible() && !Queued(q, e.propertyId) && !EligibleBefore(evaluations, k, e.propertyId))
            && (record.Enqueued() <==> record.skipReason.None?)
            && (e.skipReason.Some? ==> record.skipReason == e.skipReason)
            && (e.Eligible() && !record.Enqueued() ==> record.skipReason == Some(JobAlreadyQueued))
  {
    AfterAllQueues(q, evaluations, k, evaluations[k].propertyId);
    AfterAllKeeps(q, evaluations[..k]);
    LockedMeansQueued(AfterAll(q, evaluations[..k]), evaluations[k].propertyId);
    hide AfterAll;
  }

  lemma {:induction false} JobsStay(q: Queue, evaluations: seq<Evaluation>, k: nat)
    requires k <= |evaluations|
    ensures AfterAll(q, evaluations[..k]).jobs <= AfterAll(q, evaluations).jobs
    decreases |evaluations|
  {
    if k < |evaluations| {
      var n := |evaluations| - 1;
      JobsStay(q, evaluations[..n], k);
      assert evaluations[..n][..k] == evaluations[..k];
    } else {
      assert evaluations[..k] == evaluations;
    }
  }

  /** The job a record names is in the queue: a new analysis of that property, not taken by a worker, that holds its lock.
      The jobs from before stay as they were. */
  lemma RecordedJobsAreQueued(q: Queue, evaluations: seq<Evaluation>, k: nat)
    requires Inv(q) && k < |evaluations| && RecordsOf(q, evaluations)[k].Enqueued()
    ensures q.jobs <= AfterAll(q, evaluations).jobs
    ensures var id, e := RecordsOf(q, evaluations)[k].jobId.value, evaluations[k];
            && id >= q.nextId
            && Job(id, RunPolicy, e.propertyId, Some("analysis.run_policy:" + e.propertyId), true) in AfterAll(q, evaluations).jobs
  {
    var before := AfterAll(q, evaluations[..k]);
    JobsStay(q, evaluations, 0);
    assert evaluations[..0] == [];
    AfterAllOneMore(q, evaluations, k);
    JobsStay(q, evaluations, k + 1);
    IdsGrow(q, evaluations[..k]);
    assert After(before, evaluations[k]).jobs[|before.jobs|].id == before.nextId;
  }

  lemma {:induction false} IdsGrow(q: Queue, evaluations: seq<Evaluation>)
    ensures AfterAll(q, evaluations).nextId >= q.nextId
    decreases |evaluations|
  {
    if evaluations != [] {
      IdsGrow(q, evaluations[..|evaluations| - 1]);
    }
  }

  /** Once a worker has taken the queued analysis of a property, the property can be queued again; no other job changes. */
  lemma TakingFreesTheProperty(q: Queue, i: nat, e: Evaluation)
    requires Inv(q) && QueuedFor(q, i, e.propertyId) && e.Eligible()
    ensures var taken := Next(q, Takes(i));
            && |taken.jobs| == |q.jobs| && taken.nextId == q.nextId
            && (forall j :: 0 <= j < |q.jobs| && j != i ==> taken.jobs[j] == q.jobs[j])
            && !taken.jobs[i].queued && !Queued(taken, e.propertyId)
            && RecordsOf(q, [e])[0] == Record(e, None, Some(JobAlreadyQueued))
            && RecordsOf(taken, [e])[0] == Record(e, Some(q.nextId), None)
  {
    var taken := Next(q, Takes(i));
    NextKeeps(q, Takes(i));
    forall j: nat | QueuedFor(taken, j, e.propertyId) ensures false {
      assert QueuedFor(q, j, e.propertyId);
      OnlyOneIsQueued(q, i, j, e.propertyId);
    }
    EachRecordIsRight(q, [e], 0);
    EachRecordIsRight(taken, [e], 0);
    hide Inv;
    hide LockOf;
    assert AfterAll(taken, [e][..0]) == taken;
    assert AfterAll(q, [e][..0]) == q;
  }

  lemma OnlyOneIsQueued(q: Queue, i: nat, j: nat, propertyId: string)
    requires Inv(q) && QueuedFor(q, i, propertyId) && QueuedFor(q, j, propertyId)
    ensures i == j
  {
    hide LockOf;
  }

  /** The other commands add one job of theirs, without a lock, and change nothing else. */
  lemma WhatOtherCommandsDo(q: Queue, task: Task, propertyId: string)
    requires !task.RunPolicy?
    ensures Next(q, Defers(task, propertyId)) == Queue(q.jobs + [Job(q.nextId, task, propertyId, None, true)], q.nextId + 1)
  {
  }

  function EnqueuedIn(records: seq<Record>): nat {
    if records == [] then 0
    else EnqueuedIn(records[..|records| - 1]) + if records[|records| - 1].Enqueued() then 1 else 0
  }

  function SkippedIn(records: seq<Record>): nat {
    if records == [] then 0
    else SkippedIn(records[..|records| - 1]) + if records[|records| - 1].skipReason.Some? then 1 else 0
  }

  function EligibleIn(records: seq<Record>): nat {
    if records == [] then 0
    else EligibleIn(records[..|records| - 1]) + if records[|records| - 1].evaluation.Eligible() then 1 else 0
  }

  lemma {:induction false} CountsAddUp(records: seq<Record>)
    requires forall i :: 0 <= i < |records| ==> (records[i].Enqueued() <==> records[i].skipReason.None?) && (records[i].Enqueued() ==> records[i].evaluation.Eligible())
    ensures EnqueuedIn(records) + SkippedIn(records) == |records|
    ensures EnqueuedIn(records) <= EligibleIn(records) <= |records|
    decreases |records|
  {
    if records != [] { CountsAddUp(records[..|records| - 1]); }
  }

  /** A completed dispatch has one record per evaluation, in order; those enqueued and those skipped with a reason add
      up to all of them, and no more are enqueued than are eligible. */
  lemma SummaryAddsUp(q: Queue, evaluations: seq<Evaluation>)
    requires Inv(q)
    ensures var records := RecordsOf(q, evaluations);
            && |records| == |evaluations|
            && (forall i :: 0 <= i < |records| ==> records[i].evaluation == evaluations[i])
            && EnqueuedIn(records) + SkippedIn(records) == |evaluations|
            && EnqueuedIn(records) <= EligibleIn(records)
  {
    forall i | 0 <= i < |evaluations|
      ensures var record := RecordsOf(q, evaluations)[i];
              record.evaluation == evaluations[i] && (record.Enqueued() <==> record.skipReason.None?) && (record.Enqueued() ==> record.evaluation.Eligible())
    {
      EachRecordIsRight(q, evaluations, i);
    }
    CountsAddUp(RecordsOf(q, evaluations));
  }

  /** Dispatching again before any worker took a job enqueues nothing that was eligible before. */
  lemma {:induction false} DispatchingTwiceQueuesOnce(q: Queue, evaluations: seq<Evaluation>, again: seq<Evaluation>, k: nat)
    requires Inv(q) && k < |again|
    requires again[k].Eligible() ==> EligibleBefore(evaluations, |evaluations|, again[k].propertyId)
    ensures !RecordsOf(AfterAll(q, evaluations), again)[k].Enqueued()
  {
    AfterAllKeeps(q, evaluations);
    EachRecordIsRight(AfterAll(q, evaluations), again, k);
    AfterAllQueues(q, evaluations, |evaluations|, again[k].propertyId);
    assert evaluations[..|evaluations|] == evaluations;
  }
}
