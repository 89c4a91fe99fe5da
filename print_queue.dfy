/** The kitchen-ticket queue of print-service/printQueue.js: jobs wait in a FIFO
    array and one at a time is executed; the `isProcessing` flag keeps a second
    job from starting while one is in flight.

    `process` is split at its `await`: `StartNext` is its synchronous part
    (the guards, setting the flag and taking the head job), `Finish` is the
    continuation once the job's execution has succeeded or failed (the
    callbacks and the `finally`). `Process` is one whole call of `process` as
    a single step. What the outside world observes is a log of the calls the
    queue makes on jobs. */
module PrintQueueModel {
  import opened Wrappers

  /** A print job; only whether its callbacks are set matters here. */
  datatype Job = Job(id: string, jobType: string, hasOnSuccess: bool, hasOnError: bool)

  /** How the job's `execute()` ended. */
  datatype Outcome = Succeeded | Failed(error: string)

  /** A call the queue makes on a job. */
  datatype Event = Executed(jobId: string) | SuccessCalled(jobId: string) | ErrorCalled(jobId: string, error: string)

  /** The callback the queue calls after `execute()` ended with outcome o. */
  function CallbackEvents(j: Job, o: Outcome): (es: seq<Event>)
    ensures |es| <= 1
    ensures forall e :: e in es ==> e.jobId == j.id && !e.Executed?
    ensures forall e :: e in es && e.SuccessCalled? ==> o.Succeeded? && j.hasOnSuccess
    ensures forall e :: e in es && e.ErrorCalled? ==> o == Failed(e.error) && j.hasOnError
  {
    match o
    case Succeeded => if j.hasOnSuccess then [SuccessCalled(j.id)] else []
    case Failed(err) => if j.hasOnError then [ErrorCalled(j.id, err)] else []
  }

  /** Everything the queue does with one job: execute it, then its callback. */
  function JobEvents(j: Job, o: Outcome): seq<Event> {
    [Executed(j.id)] + CallbackEvents(j, o)
  }

  /** The calls made when the given jobs run to completion, first to last, with
      the given outcomes. */
  function RunEvents(jobs: seq<Job>, outcomes: seq<Outcome>): seq<Event>
    requires |jobs| == |outcomes|
  {
    if jobs == [] then [] else JobEvents(jobs[0], outcomes[0]) + RunEvents(jobs[1..], outcomes[1..])
  }

  /** Running the first job, then the rest, is running them all. */
  lemma RunStep(done: seq<Event>, jobs: seq<Job>, outcomes: seq<Outcome>)
    requires |jobs| == |outcomes| > 0
    ensures done + JobEvents(jobs[0], outcomes[0]) + RunEvents(jobs[1..], outcomes[1..]) == done + RunEvents(jobs, outcomes)
  {
  }

  lemma SuffixTail<T>(s: seq<T>, i: nat)
    requires i < |s|
    ensures s[i..][0] == s[i] && s[i..][1..] == s[i + 1..]
  {
  }

  /** The ids of the executed jobs, in the order of execution. */
  function Executions(es: seq<Event>): seq<string> {
    if es == [] then []
    else (if es[0].Executed? then [es[0].jobId] else []) + Executions(es[1..])
  }

  function Ids(jobs: seq<Job>): (r: seq<string>)
    ensures |r| == |jobs| && forall i :: 0 <= i < |jobs| ==> r[i] == jobs[i].id
  {
    if jobs == [] then [] else [jobs[0].id] + Ids(jobs[1..])
  }

  lemma {:induction false} ExecutionsAppend(a: seq<Event>, b: seq<Event>)
    ensures Executions(a + b) == Executions(a) + Executions(b)
    decreases |a|
  {
    if a != [] {
      assert (a + b)[0] == a[0];
      assert (a + b)[1..] == a[1..] + b;
      ExecutionsAppend(a[1..], b);
      var h := if a[0].Executed? then [a[0].jobId] else [];
      assert Executions(a + b) == h + (Executions(a[1..]) + Executions(b));
      assert Executions(a) == h + Executions(a[1..]);
      assert h + (Executions(a[1..]) + Executions(b)) == (h + Executions(a[1..])) + Executions(b);
    } else {
      assert a + b == b;
    }
  }

  lemma ExecutionsOfCallbacks(j: Job, o: Outcome)
    ensures Executions(CallbackEvents(j, o)) == []
  {
  }

  /** First in, first out, exactly once: running the queue executes every job,
      failed ones included, once each and in queue order. */
  lemma {:induction false} RunExecutesInOrder(jobs: seq<Job>, outcomes: seq<Outcome>)
    requires |jobs| == |outcomes|
    ensures Executions(RunEvents(jobs, outcomes)) == Ids(jobs)
  {
    if jobs != [] {
      RunExecutesInOrder(jobs[1..], outcomes[1..]);
      ExecutionsAppend(JobEvents(jobs[0], outcomes[0]), RunEvents(jobs[1..], outcomes[1..]));
      ExecutionsAppend([Executed(jobs[0].id)], CallbackEvents(jobs[0], outcomes[0]));
      ExecutionsOfCallbacks(jobs[0], outcomes[0]);
      assert Executions([Executed(jobs[0].id)]) == [jobs[0].id];
    }
  }

  /** `onError` is called only for a job that failed, with that job's error, and
      `onSuccess` only for a job that succeeded. */
  lemma {:induction false} CallbacksMatchOutcomes(jobs: seq<Job>, outcomes: seq<Outcome>)
    requires |jobs| == |outcomes|
    ensures forall e :: e in RunEvents(jobs, outcomes) && e.ErrorCalled? ==>
              exists i :: 0 <= i < |jobs| && jobs[i].id == e.jobId && outcomes[i] == Failed(e.error) && jobs[i].hasOnError
    ensures forall e :: e in RunEvents(jobs, outcomes) && e.SuccessCalled? ==>
              exists i :: 0 <= i < |jobs| && jobs[i].id == e.jobId && outcomes[i].Succeeded? && jobs[i].hasOnSuccess
  {
    if jobs != [] {
      CallbacksMatchOutcomes(jobs[1..], outcomes[1..]);
      var head, rest := JobEvents(jobs[0], outcomes[0]), RunEvents(jobs[1..], outcomes[1..]);
      forall e: Event | e in head + rest && e.ErrorCalled?
        ensures exists i :: 0 <= i < |jobs| && jobs[i].id == e.jobId && outcomes[i] == Failed(e.error) && jobs[i].hasOnError
      {
        if e in head {
          assert e in CallbackEvents(jobs[0], outcomes[0]);
        } else {
          var i :| 0 <= i < |jobs[1..]| && jobs[1..][i].id == e.jobId && outcomes[1..][i] == Failed(e.error) && jobs[1..][i].hasOnError;
          assert jobs[i + 1] == jobs[1..][i] && outcomes[i + 1] == outcomes[1..][i];
        }
      }
      forall e: Event | e in head + rest && e.SuccessCalled?
        ensures exists i :: 0 <= i < |jobs| && jobs[i].id == e.jobId && outcomes[i].Succeeded? && jobs[i].hasOnSuccess
      {
        if e in head {
          assert e in CallbackEvents(jobs[0], outcomes[0]);
        } else {
          var i :| 0 <= i < |jobs[1..]| && jobs[1..][i].id == e.jobId && outcomes[1..][i].Succeeded? && jobs[1..][i].hasOnSuccess;
          assert jobs[i + 1] == jobs[1..][i] && outcomes[i + 1] == outcomes[1..][i];
        }
      }
    }
  }

  class PrintQueue {
    var queue: seq<Job>
    var isProcessing: bool
    /** The job in flight between `StartNext` and `Finish`. */
    var current: Option<Job>
    /** The calls made on jobs so far. */
    var events: seq<Event>

    /** The flag is set exactly while a job is in flight. */
    predicate Valid()
      reads this
    {
      isProcessing <==> current.Some?
    }

    /** A new queue is empty and idle. */
    constructor ()
      ensures Valid()
      ensures queue == [] && !isProcessing && current.None? && events == []
    {
      queue := [];
      isProcessing := false;
      current := None;
      events := [];
    }

    /** The synchronous part of `process`: nothing while a job is in flight or
        the queue is empty; otherwise the head job is taken off and executed. */
    method StartNext()
      requires Valid()
      modifies this
      ensures Valid()
      ensures old(isProcessing) || old(queue) == [] ==>
                queue == old(queue) && isProcessing == old(isProcessing) && current == old(current) && events == old(events)
      ensures !old(isProcessing) && old(queue) != [] ==>
                && isProcessing && current == Some(old(queue)[0]) && queue == old(queue)[1..]
                && events == old(events) + [Executed(old(queue)[0].id)]
    {
      if isProcessing {
        return;
      }
      if |queue| == 0 {
        return;
      }
      isProcessing := true;
      var currentJob := queue[0];
      queue := queue[1..];
      current := Some(currentJob);
      events := events + [Executed(currentJob.id)];
    }

    /** The continuation of `process` once `execute()` has ended: the matching
        callback (if the job has one), then the flag is cleared. The job is not
        put back, whatever the outcome; the waiting jobs are untouched. */
    method Finish(outcome: Outcome)
      requires Valid() && isProcessing
      modifies this
      ensures Valid()
      ensures !isProcessing && current.None? && queue == old(queue)
      ensures events == old(events) + CallbackEvents(old(current).value, outcome)
    {
      var currentJob := current.value;
      match outcome {
        case Succeeded =>
          if currentJob.hasOnSuccess {
            events := events + [SuccessCalled(currentJob.id)];
          }
        case Failed(error) =>
          if currentJob.hasOnError {
            events := events + [ErrorCalled(currentJob.id, error)];
          }
      }
      isProcessing := false;
      current := None;
    }

    /** One whole call of `process`, taken as one step. */
    method Process(outcome: Outcome)
      requires Valid() && !isProcessing
      modifies this
      ensures Valid() && !isProcessing
      ensures old(queue) == [] ==> queue == [] && events == old(events)
      ensures old(queue) != [] ==>
                queue == old(queue)[1..] && events == old(events) + JobEvents(old(queue)[0], outcome)
    {
      var wasEmpty := |queue| == 0;
      StartNext();
      if !wasEmpty {
        Finish(outcome);
      }
    }

    /** `add`: the job goes to the tail and `process` is called, which starts
        it at once only when the queue was idle and empty. */
    method Add(job: Job)
      requires Valid()
      modifies this
      ensures Valid()
      ensures old(isProcessing) ==>
                isProcessing && queue == old(queue) + [job] && current == old(current) && events == old(events)
      ensures !old(isProcessing) ==>
                && isProcessing && current == Some((old(queue) + [job])[0])
                && queue == (old(queue) + [job])[1..]
                && events == old(events) + [Executed((old(queue) + [job])[0].id)]
    {
      queue := queue + [job];
      StartNext();
    }

    /** The timer's repeated `process` calls on an idle queue: with one outcome
        per waiting job, the queue drains and the calls made are those of
        running the jobs in order. */
    method Drain(outcomes: seq<Outcome>)
      requires Valid() && !isProcessing && |outcomes| == |queue|
      modifies this
      ensures Valid() && !isProcessing && queue == []
      ensures events == old(events) + RunEvents(old(queue), outcomes)
    {
      ghost var jobs := queue;
      ghost var target := events + RunEvents(queue, outcomes);
      var i := 0;
      while i < |outcomes|
        invariant 0 <= i <= |outcomes|
        invariant Valid() && !isProcessing
        invariant queue == jobs[i..]
        invariant events + RunEvents(queue, outcomes[i..]) == target
      {
        RunStep(events, queue, outcomes[i..]);
        SuffixTail(outcomes, i);
        SuffixTail(jobs, i);
        Process(outcomes[i]);
        i := i + 1;
      }
    }
  }

  /** Three jobs added to an idle queue: the first starts at once, a second
      `add` while it is in flight only waits, and finishing and re-processing
      runs the rest in order; a failed job is not retried. */
  method ThreeJobs(a: Job, b: Job, c: Job) returns (q: PrintQueue)
    ensures fresh(q) && q.Valid() && !q.isProcessing && q.queue == []
    ensures q.events == JobEvents(a, Failed("paper out")) + JobEvents(b, Succeeded) + JobEvents(c, Succeeded)
  {
    q := new PrintQueue();
    q.Add(a);
    q.Add(b);
    q.Add(c);
    assert q.queue == [b, c];
    q.Finish(Failed("paper out"));
    q.Process(Succeeded);
    q.Process(Succeeded);
  }
}
