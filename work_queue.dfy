/** The serial job queue `Queue` (bot.py:369-398): `add` appends an executor,
    `bump` drains the list front first, one job at a time, unless a drain is
    already running. Jobs are abstract; whether one raises is an oracle. */
module WorkQueue {

  /** A queued entry: an executor, or a falsy value that `bump` pops and skips. */
  datatype Entry<J> = Falsy | Executor(job: J)

  /** What became of one executor: it returned, or it raised and the error was logged. */
  datatype Report<J> = Completed(job: J) | Raised(job: J)

  /** The executors of a list of entries, in order. */
  function Executors<J>(q: seq<Entry<J>>): seq<J> {
    if q == [] then [] else (if q[0].Executor? then [q[0].job] else []) + Executors(q[1..])
  }

  /** The job of each report, in order. */
  function Jobs<J>(reports: seq<Report<J>>): seq<J> {
    if reports == [] then [] else [reports[0].job] + Jobs(reports[1..])
  }

  /** A report appended at the end adds its job at the end. */
  lemma {:induction false} JobsSnoc<J>(reports: seq<Report<J>>, r: Report<J>)
    ensures Jobs(reports + [r]) == Jobs(reports) + [r.job]
  {
    if reports == [] {
      assert reports + [r] == [r];
    } else {
      JobsSnoc(reports[1..], r);
      assert (reports + [r])[1..] == reports[1..] + [r];
    }
  }

  /** Each report says `Raised` exactly for a job that raises. */
  predicate Reported<J>(reports: seq<Report<J>>, raises: J -> bool) {
    forall i :: 0 <= i < |reports| ==> (reports[i].Raised? <==> raises(reports[i].job))
  }

  lemma {:induction false} ExecutorsAppend<J>(a: seq<Entry<J>>, b: seq<Entry<J>>)
    ensures Executors(a + b) == Executors(a) + Executors(b)
  {
    if a == [] {
      assert a + b == b;
    } else {
      var head := if a[0].Executor? then [a[0].job] else [];
      ExecutorsAppend(a[1..], b);
      assert (a + b)[0] == a[0] && (a + b)[1..] == a[1..] + b;
      assert Executors(a + b) == head + (Executors(a[1..]) + Executors(b));
    }
  }

  /** Popping the head of a list of entries pops its first executor, if it is one. */
  lemma ExecutorsPop<J>(q: seq<Entry<J>>)
    requires q != []
    ensures q[0].Executor? ==> Executors(q) == [q[0].job] + Executors(q[1..])
    ensures q[0].Falsy? ==> Executors(q) == Executors(q[1..])
  {
  }

  /** Executors added one after the other come out of the queue in that order, after
      the ones already waiting. */
  lemma {:induction false} AddedInOrder<J>(q: seq<Entry<J>>, jobs: seq<J>)
    ensures Executors(q + seq(|jobs|, i requires 0 <= i < |jobs| => Executor(jobs[i]))) == Executors(q) + jobs
    decreases |jobs|
  {
    var added := seq(|jobs|, i requires 0 <= i < |jobs| => Executor(jobs[i]));
    ExecutorsAppend(q, added);
    if jobs != [] {
      var rest := seq(|jobs[1..]|, i requires 0 <= i < |jobs[1..]| => Executor(jobs[1..][i]));
      AddedInOrder([], jobs[1..]);
      assert added[1..] == rest;
      assert [] + rest == rest;
      assert Executors(added) == [jobs[0]] + Executors(rest);
      assert jobs == [jobs[0]] + jobs[1..];
    } else {
      assert added == [];
    }
  }

  /** The report of running one executor. */
  function Run<J>(job: J, raises: J -> bool): Report<J> {
    if raises(job) then Raised(job) else Completed(job)
  }

  /** Reporting one more job truthfully keeps every report truthful. */
  lemma ReportedSnoc<J>(reports: seq<Report<J>>, job: J, raises: J -> bool)
    requires Reported(reports, raises)
    ensures Reported(reports + [Run(job, raises)], raises)
  {
    var next := reports + [Run(job, raises)];
    forall i | 0 <= i < |next|
      ensures next[i].Raised? <==> raises(next[i].job)
    {
      if i < |reports| {
        assert next[i] == reports[i];
      }
    }
  }

  class Queue<J> {
    /** `self.queue` */
    var queue: seq<Entry<J>>
    /** `self.running`: a drain loop is active. */
    var running: bool

    constructor ()
      ensures queue == [] && !running
    {
      queue := [];
      running := false;
    }

    /** `add(executor)`: appends at the tail. The `bump` task it schedules is a separate call. */
    method Add(executor: Entry<J>)
      modifies this`queue
      ensures queue == old(queue) + [executor]
      ensures running == old(running)
    {
      queue := queue + [executor];
    }

    /** `bump()`: while a drain is running, returns at once and changes nothing; otherwise
        runs every queued executor front first, carrying on past those that raise, and
        ends with an empty queue and the flag cleared. */
    method Bump(raises: J -> bool) returns (reports: seq<Report<J>>)
      modifies this
      ensures old(running) ==> reports == [] && queue == old(queue) && running
      ensures !old(running) ==> queue == [] && !running
      ensures !old(running) ==> Jobs(reports) == Executors(old(queue)) && Reported(reports, raises)
    {
      reports := [];
      if running {
        return;
      }
      running := true;
      while queue != []
        invariant running
        invariant Jobs(reports) + Executors(queue) == Executors(old(queue))
        invariant Reported(reports, raises)
        decreases |queue|
      {
        ExecutorsPop(queue);
        var nextUp := queue[0];
        queue := queue[1..];
        if nextUp.Executor? {
          JobsSnoc(reports, Run(nextUp.job, raises));
          ReportedSnoc(reports, nextUp.job, raises);
          reports := reports + [Run(nextUp.job, raises)];
        }
      }
      running := false;
    }
  }
}
