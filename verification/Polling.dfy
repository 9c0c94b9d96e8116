/**
 Waiting for a job, and for a workflow node and then its job, on one timeout. What the
 server answers and when is a script of polls, one for each GET; a script that runs out
 leaves the loop still polling.
 */
module Polling {
  /** One GET: whether the awaited thing is there, whether it failed, and the clock read after it. */
  datatype Poll = Poll(done: bool, failed: bool, at: real)

  /** The clock never runs backwards and a sleep takes at least the interval. */
  ghost predicate WellTimed(start: real, interval: real, polls: seq<Poll>) {
    && (polls != [] ==> polls[0].at >= start)
    && forall i | 0 <= i < |polls| - 1 :: polls[i + 1].at >= polls[i].at + interval
  }

  /** `gets` is the number of requests made; a job that ended badly is told from one that ended well. */
  datatype Wait =
    | Ended(gets: nat)
    | JobFailed(gets: nat)
    | TimedOut(gets: nat)
    | StillPolling(gets: nat)

  /** A timeout of zero counts as none. */
  predicate Expired(timeout: real, elapsed: real) {
    timeout != 0.0 && timeout < elapsed
  }

  /** The first poll at which the loop stops, or the end of the script. */
  ghost predicate StopsAt(polls: seq<Poll>, start: real, timeout: real, n: nat) {
    && n <= |polls|
    && (forall i | 0 <= i < n :: !polls[i].done && !Expired(timeout, polls[i].at - start))
    && (n < |polls| ==> polls[n].done || Expired(timeout, polls[n].at - start))
  }

  /** The common loop: poll until the thing is there, giving up once past the timeout. */
  method PollUntil(polls: seq<Poll>, start: real, timeout: real) returns (wait: Wait)
    ensures exists n: nat :: StopsAt(polls, start, timeout, n) &&
              wait == if n == |polls| then StillPolling(n)
                      else if polls[n].done then Ended(n + 1)
                      else TimedOut(n + 1)
  {
    var i := 0;
    while i < |polls| && !polls[i].done
      invariant i <= |polls|
      invariant forall j | 0 <= j < i :: !polls[j].done && !Expired(timeout, polls[j].at - start)
    {
      if Expired(timeout, polls[i].at - start) {
        assert StopsAt(polls, start, timeout, i);
        return TimedOut(i + 1);
      }
      i := i + 1;
    }
    assert StopsAt(polls, start, timeout, i);
    return if i == |polls| then StillPolling(i) else Ended(i + 1);
  }

  /** The number of whole intervals in the timeout. */
  function Budget(timeout: real, interval: real): int
    requires interval > 0.0
  {
    (timeout / interval).Floor
  }

  lemma FitsBudget(timeout: real, interval: real, n: nat)
    requires interval > 0.0
    ensures n as real * interval <= timeout <==> n <= Budget(timeout, interval)
  {
    var q := timeout / interval;
    assert q * interval == timeout;
    if n as real <= q {
      assert n as real * interval <= q * interval;
    } else {
      assert n as real * interval > q * interval;
    }
  }

  lemma {:induction false} ClockAdvances(start: real, interval: real, polls: seq<Poll>, i: nat)
    requires WellTimed(start, interval, polls) && i < |polls|
    ensures polls[i].at - start >= i as real * interval
    decreases i
  {
    if i > 0 {
      ClockAdvances(start, interval, polls, i - 1);
      assert i as real * interval == (i - 1) as real * interval + interval;
    }
  }

  lemma LoopIsShort(start: real, interval: real, timeout: real, polls: seq<Poll>, n: nat)
    requires interval > 0.0 && WellTimed(start, interval, polls)
    requires timeout != 0.0 && StopsAt(polls, start, timeout, n)
    ensures n == 0 || n <= Budget(timeout, interval) + 1
  {
    if n > 0 {
      ClockAdvances(start, interval, polls, n - 1);
      FitsBudget(timeout, interval, n - 1);
    }
  }

  /**
   Waiting for a job. Whatever the server answers, a positive timeout allows at most two
   requests more than there are intervals in it, a negative one allows a single request.
   */
  method WaitOnUrl(polls: seq<Poll>, start: real, timeout: real, interval: real) returns (wait: Wait)
    requires interval >= 0.0 && WellTimed(start, interval, polls)
    ensures exists n: nat :: StopsAt(polls, start, timeout, n) &&
              wait == if n == |polls| then StillPolling(n)
                      else if !polls[n].done then TimedOut(n + 1)
                      else if polls[n].failed then JobFailed(n + 1)
                      else Ended(n + 1)
    ensures interval > 0.0 && timeout > 0.0 ==> wait.gets <= Budget(timeout, interval) + 2
    ensures timeout < 0.0 ==> wait.gets <= 1
    ensures timeout == 0.0 ==> !wait.TimedOut?
    ensures wait.StillPolling? ==> wait.gets == |polls|
  {
    wait := PollUntil(polls, start, timeout);
    ghost var n: nat :| StopsAt(polls, start, timeout, n) &&
      wait == if n == |polls| then StillPolling(n)
              else if polls[n].done then Ended(n + 1)
              else TimedOut(n + 1);
    if interval > 0.0 && timeout > 0.0 {
      LoopIsShort(start, interval, timeout, polls, n);
      FitsBudget(timeout, interval, 0);
    }
    if wait.Ended? && polls[wait.gets - 1].failed {
      wait := JobFailed(wait.gets);
    }
  }

  datatype NodeWait =
    | NodeMissing(gets: nat)                         // the node never showed up in time
    | NodePolling(gets: nat)
    | Approval(gets: nat)                            // approval jobs are not waited for
    | JobWait(gets: nat, revised: real, wait: Wait)  // `gets` counts both loops

  /** The node was found by the `n`th sleep; its job is waited for on what is left, up to poll `m`. */
  ghost predicate WaitsForJob(wait: NodeWait, foundAt: real, n: nat, jobPolls: seq<Poll>, m: nat,
                              start: real, jobStart: real, timeout: real)
  {
    var revised := timeout - (foundAt - start);
    && StopsAt(jobPolls, jobStart, revised, m)
    && (m == |jobPolls| ==> wait == JobWait(n + 1 + m, revised, StillPolling(m)))
    && (m < |jobPolls| ==>
          var job := if !jobPolls[m].done then TimedOut(m + 1)
                     else if jobPolls[m].failed then JobFailed(m + 1) else Ended(m + 1);
          wait == JobWait(n + 1 + (m + 1), revised, job))
  }

  /**
   Waiting for a node and then for its job, whose loop starts at `jobStart`. Both loops
   together stay within three requests more than there are intervals in the timeout, unless
   the rest of the timeout comes out as exactly zero.
   */
  method WaitOnWorkflowNodeUrl(nodePolls: seq<Poll>, jobPolls: seq<Poll>, approval: bool,
                               start: real, jobStart: real, timeout: real, interval: real)
    returns (wait: NodeWait)
    requires interval >= 0.0
    requires WellTimed(start, interval, nodePolls) && WellTimed(jobStart, interval, jobPolls)
    ensures interval > 0.0 && timeout > 0.0 && !wait.JobWait? ==>
              wait.gets <= Budget(timeout, interval) + 2
    ensures interval > 0.0 && timeout > 0.0 && wait.JobWait? && wait.revised != 0.0 ==>
              wait.gets <= Budget(timeout, interval) + 3
    ensures exists n: nat :: StopsAt(nodePolls, start, timeout, n) &&
              if n == |nodePolls| then wait == NodePolling(n)
              else if !nodePolls[n].done then wait == NodeMissing(n + 1)
              else if approval then wait == Approval(n + 1)
              else exists m: nat :: WaitsForJob(wait, nodePolls[n].at, n, jobPolls, m, start, jobStart, timeout)
    ensures wait.JobWait? && wait.revised == 0.0 ==> !wait.wait.TimedOut?
  {
    var found := PollUntil(nodePolls, start, timeout);
    ghost var n: nat :| StopsAt(nodePolls, start, timeout, n) &&
      found == if n == |nodePolls| then StillPolling(n)
               else if nodePolls[n].done then Ended(n + 1)
               else TimedOut(n + 1);
    if interval > 0.0 && timeout > 0.0 {
      LoopIsShort(start, interval, timeout, nodePolls, n);
      FitsBudget(timeout, interval, 0);
    }
    match found {
      case TimedOut(gets) => return NodeMissing(gets);
      case StillPolling(gets) => return NodePolling(gets);
      case Ended(gets) =>
        if approval {
          return Approval(gets);
        }
        var revised := timeout - (nodePolls[gets - 1].at - start);
        var job := WaitOnUrl(jobPolls, jobStart, revised, interval);
        if interval > 0.0 && revised > 0.0 && timeout > 0.0 {
          ClockAdvances(start, interval, nodePolls, n);
          RestOfBudget(timeout, revised, interval, n);
        }
        ghost var m: nat :| StopsAt(jobPolls, jobStart, revised, m) &&
          job == if m == |jobPolls| then StillPolling(m)
                 else if !jobPolls[m].done then TimedOut(m + 1)
                 else if jobPolls[m].failed then JobFailed(m + 1)
                 else Ended(m + 1);
        wait := JobWait(gets + job.gets, revised, job);
        assert WaitsForJob(wait, nodePolls[n].at, n, jobPolls, m, start, jobStart, timeout);
    }
  }

  /** What is left of the budget after n sleeps. */
  lemma RestOfBudget(timeout: real, revised: real, interval: real, n: nat)
    requires interval > 0.0 && 0.0 < revised <= timeout - n as real * interval
    ensures n + Budget(revised, interval) <= Budget(timeout, interval)
  {
    FitsBudget(revised, interval, 0);
    var m: nat := Budget(revised, interval);
    FitsBudget(revised, interval, m);
    assert (n + m) as real * interval == n as real * interval + m as real * interval;
    FitsBudget(timeout, interval, n + m);
  }

  // ---------------------------------------------------------------- the bounds are the best possible

  /** A server that never finishes, polled by a clock without delays. */
  function Idle(start: real, interval: real, n: nat): (polls: seq<Poll>)
    ensures |polls| == n && forall i | 0 <= i < n :: polls[i] == Poll(false, false, start + i as real * interval)
  {
    seq(n, i requires 0 <= i < n => Poll(false, false, start + i as real * interval))
  }

  lemma IdleIsWellTimed(start: real, interval: real, n: nat)
    requires interval > 0.0
    ensures WellTimed(start, interval, Idle(start, interval, n))
  {
    var polls := Idle(start, interval, n);
    forall i | 0 <= i < |polls| - 1 ensures polls[i + 1].at >= polls[i].at + interval {
      assert (i + 1) as real * interval == i as real * interval + interval;
    }
  }

  /** On such a clock the timeout is past from the first poll after its last whole interval. */
  lemma ExpiresAfterBudget(start: real, interval: real, timeout: real, i: nat, n: nat)
    requires interval > 0.0 && timeout > 0.0 && i < n
    ensures Expired(timeout, Idle(start, interval, n)[i].at - start) <==> i > Budget(timeout, interval)
  {
    FitsBudget(timeout, interval, i);
  }

  /** A job that never ends uses the whole bound: the loop makes floor(T/I) + 2 requests. */
  lemma BoundIsReached(start: real, interval: real, timeout: real)
    requires interval > 0.0 && timeout > 0.0
    ensures Budget(timeout, interval) >= 0
    ensures var polls := Idle(start, interval, Budget(timeout, interval) + 2);
            WellTimed(start, interval, polls) && StopsAt(polls, start, timeout, Budget(timeout, interval) + 1)
  {
    FitsBudget(timeout, interval, 0);
    var n: nat := Budget(timeout, interval) + 2;
    IdleIsWellTimed(start, interval, n);
    forall i: nat | i < n ensures Expired(timeout, Idle(start, interval, n)[i].at - start) <==> i == n - 1 {
      ExpiresAfterBudget(start, interval, timeout, i, n);
    }
  }

  /** A node that shows up after n idle polls. */
  function ShowsUp(start: real, interval: real, n: nat): (polls: seq<Poll>) {
    Idle(start, interval, n) + [Poll(true, false, start + n as real * interval)]
  }

  lemma MoreTakesLonger(i: nat, n: nat, interval: real)
    requires interval > 0.0 && i <= n
    ensures i as real * interval <= n as real * interval
    ensures (i + 1) as real * interval == i as real * interval + interval
  {
    var more := (n - i) as real;
    assert n as real == i as real + more && more >= 0.0;
    assert n as real * interval == i as real * interval + more * interval;
    assert more * interval >= 0.0;
  }

  lemma NotPast(start: real, interval: real, timeout: real, n: nat, i: nat)
    requires interval > 0.0 && n as real * interval <= timeout && i <= n
    ensures !Expired(timeout, start + i as real * interval - start)
  {
    var passed, last := i as real * interval, n as real * interval;
    MoreTakesLonger(i, n, interval);
    assert passed <= last;
    assert start + passed - start == passed;
  }

  lemma ShowsUpAt(start: real, interval: real, timeout: real, n: nat, i: nat)
    requires interval > 0.0 && n as real * interval <= timeout && i <= n
    ensures var polls := ShowsUp(start, interval, n);
            && polls[i].at == start + i as real * interval && !Expired(timeout, polls[i].at - start)
            && polls[i].done == (i == n)
            && (i < n ==> polls[i + 1].at == polls[i].at + interval)
  {
    NotPast(start, interval, timeout, n, i);
    NextIsLater(start, interval, n, i);
  }

  lemma NextIsLater(start: real, interval: real, n: nat, i: nat)
    requires interval > 0.0 && i <= n
    ensures var polls := ShowsUp(start, interval, n);
            && polls[i].at == start + i as real * interval && polls[i].done == (i == n)
            && (i < n ==> polls[i + 1].at == polls[i].at + interval)
  {
    MoreTakesLonger(i, n, interval);
  }

  lemma ShowsUpInTime(start: real, interval: real, timeout: real, n: nat)
    requires interval > 0.0 && n as real * interval <= timeout
    ensures var polls := ShowsUp(start, interval, n);
            WellTimed(start, interval, polls) && StopsAt(polls, start, timeout, n)
  {
    var polls := ShowsUp(start, interval, n);
    ShowsUpAt(start, interval, timeout, n, 0);
    forall i: nat | i <= n
      ensures !Expired(timeout, polls[i].at - start) && polls[i].done == (i == n)
      ensures i < n ==> polls[i + 1].at == polls[i].at + interval
    {
      ShowsUpAt(start, interval, timeout, n, i);
    }
  }

  lemma BudgetShifts(timeout: real, interval: real, n: nat)
    requires interval > 0.0 && n as real * interval < timeout
    ensures Budget(timeout - n as real * interval, interval) + n == Budget(timeout, interval)
  {
    var rest := timeout - n as real * interval;
    assert rest / interval + n as real == timeout / interval by {
      assert (rest / interval + n as real) * interval == rest + n as real * interval;
    }
  }

  /**
   The two loops together use their whole bound as well, however late the node shows up within
   the timeout: n + 1 requests for the node and those for the job make floor(T/I) + 3.
   */
  lemma ChainedBoundIsReached(start: real, interval: real, timeout: real, n: nat)
    requires interval > 0.0 && n as real * interval < timeout
    ensures var rest, jobStart := timeout - n as real * interval, start + n as real * interval;
            var nodePolls := ShowsUp(start, interval, n);
            && rest == timeout - (nodePolls[n].at - start) && Budget(rest, interval) >= 0
            && var jobPolls := Idle(jobStart, interval, Budget(rest, interval) + 2);
               && WellTimed(start, interval, nodePolls) && StopsAt(nodePolls, start, timeout, n)
               && WellTimed(jobStart, interval, jobPolls)
               && StopsAt(jobPolls, jobStart, rest, Budget(rest, interval) + 1)
               && (n + 1) + (Budget(rest, interval) + 2) == Budget(timeout, interval) + 3
  {
    ShowsUpInTime(start, interval, timeout, n);
    BoundIsReached(start + n as real * interval, interval, timeout - n as real * interval);
    BudgetShifts(timeout, interval, n);
  }

  /**
   A rest of exactly zero removes the bound: whatever the node script that used the timeout up,
   the job loop gets no timeout. It stops at the first answer that is done and nowhere else, so
   it goes through any script of unfinished answers to its end.
   */
  lemma ZeroRestPollsForEver(start: real, timeout: real, nodePolls: seq<Poll>, n: nat,
                             jobStart: real, jobPolls: seq<Poll>, gets: nat)
    requires n < |nodePolls| && StopsAt(nodePolls, start, timeout, n) && nodePolls[n].done
    requires timeout - (nodePolls[n].at - start) == 0.0
    ensures StopsAt(jobPolls, jobStart, timeout - (nodePolls[n].at - start), gets) <==>
              && gets <= |jobPolls| && (forall i | 0 <= i < gets :: !jobPolls[i].done)
              && (gets < |jobPolls| ==> jobPolls[gets].done)
  {
  }

  /** Such a script: a node that shows up when the timeout is just used up. */
  lemma ZeroRestHappens(start: real, interval: real, n: nat)
    requires interval > 0.0
    ensures var timeout, polls := n as real * interval, ShowsUp(start, interval, n);
            && WellTimed(start, interval, polls) && StopsAt(polls, start, timeout, n)
            && timeout - (polls[n].at - start) == 0.0
  {
    ShowsUpInTime(start, interval, n as real * interval, n);
  }
}
