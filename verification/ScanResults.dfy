/**
 What a sweep of services/scanner/service.go tells: over a run with the steps that were taken, every row, every
 total and the way the sweep ends follow from what the calls of the probes have returned.
 */
module ScanResults {
  import opened ScanRun

  // ----- what a probe found and what is told of it -----

  /** A run with the steps that were taken: steps[i] leads from run[i] to run[i + 1]. */
  ghost predicate Traced(run: seq<State>, steps: seq<Step>) {
    && |run| == |steps| + 1 && Initial(run[0])
    && forall i | 0 <= i < |steps| :: Enabled(run[i], steps[i]) && run[i + 1] == Take(run[i], steps[i])
  }

  lemma TracedIsRun(run: seq<State>, steps: seq<Step>)
    requires Traced(run, steps)
    ensures IsRun(run)
  {
    forall i | 0 < i < |run|
      ensures Next(run[i - 1], run[i])
    {
      assert Enabled(run[i - 1], steps[i - 1]) && run[i - 1 + 1] == Take(run[i - 1], steps[i - 1]);
    }
  }

  /** Taking the step in s, the call of probe k returns res, and the sweep is not cancelled. */
  predicate Returns(s: State, step: Step, k: nat, res: ProbeResult) {
    step == Probe(k, res) && k < |s.probes| && s.probes[k].Probing? && !s.cancelled
  }

  /** Among the first i steps there is one with which the call of probe k returns res in time. */
  ghost predicate Found(run: seq<State>, steps: seq<Step>, i: nat, k: nat, res: ProbeResult)
    requires i <= |steps| < |run|
  {
    exists j | 0 <= j < i :: Returns(run[j], steps[j], k, res)
  }

  /** The result that a probe is working with. */
  predicate Carries(p: Phase, r: ProbeResult) {
    ((p.Kept? || p.Counted? || p.Shown?) && p.res == r) || (IsDone(p) && p.fate.res == r)
  }

  lemma StepCarries(s: State, step: Step, k: nat, r: ProbeResult)
    requires Enabled(s, step)
    ensures var s' := Take(s, step);
            && |s.probes| <= |s'.probes|
            && (k < |s'.probes| ==>
                  (Carries(s'.probes[k], r) <==> (k < |s.probes| && Carries(s.probes[k], r)) || Returns(s, step, k, r)))
            && (k >= |s'.probes| ==> !Returns(s, step, k, r))
  {
  }

  /** A probe carries the result that its call has returned, and no other. */
  lemma {:induction false} CarriesWhatWasFound(run: seq<State>, steps: seq<Step>, i: nat, k: nat, r: ProbeResult)
    requires Traced(run, steps) && i <= |steps|
    ensures Found(run, steps, i, k, r) <==> k < |run[i].probes| && Carries(run[i].probes[k], r)
  {
    if i > 0 {
      CarriesWhatWasFound(run, steps, i - 1, k, r);
      StepCarries(run[i - 1], steps[i - 1], k, r);
      assert run[i - 1 + 1] == Take(run[i - 1], steps[i - 1]);
      assert Found(run, steps, i, k, r) <==>
             Found(run, steps, i - 1, k, r) || Returns(run[i - 1], steps[i - 1], k, r);
    }
  }

  /** The row a probe with this result is told by. */
  function ToldRow(s: State, k: nat, r: ProbeResult): Event
    requires k < |s.jobs|
  {
    Host(HostRow(s.jobs[k].target, s.jobs[k].port,
                 match r case Open => SshHost case Closed => ClosedHost case Filtered => FilteredHost))
  }

  /** The rows on record are those of the probes past their emission, each with what it carries. */
  ghost predicate RowsTold(s: State) {
    && |s.probes| <= |s.jobs|
    && (forall k, r | 0 <= k < |s.probes| && HasRow(s.probes[k]) && Carries(s.probes[k], r) ::
          ToldRow(s, k, r) in s.events)
    && (forall e | e in s.events && e.Host? ::
          exists k, r | 0 <= k < |s.probes| && HasRow(s.probes[k]) :: Carries(s.probes[k], r) && e == ToldRow(s, k, r))
  }

  lemma ProbeTells(s: State, k: nat, res: ProbeResult, m: nat, r: ProbeResult)
    requires RowsTold(s) && Enabled(s, Probe(k, res))
    requires var p := TakeProbe(s, k, res).probes;
             m < |p| && HasRow(p[m]) && Carries(p[m], r)
    ensures ToldRow(s, m, r) in TakeProbe(s, k, res).events
  {
    var s' := TakeProbe(s, k, res);
    if m == k && s.probes[k].Counted? {
      assert s'.events[|s.events|] == ToldRow(s, k, r);
    } else {
      assert HasRow(s.probes[m]) && Carries(s.probes[m], r);
      assert ToldRow(s, m, r) in s.events;
    }
  }

  lemma ProbeToldBy(s: State, k: nat, res: ProbeResult, e: Event) returns (m: nat, r: ProbeResult)
    requires RowsTold(s) && Enabled(s, Probe(k, res)) && e in TakeProbe(s, k, res).events && e.Host?
    ensures var p := TakeProbe(s, k, res).probes;
            m < |p| && HasRow(p[m]) && Carries(p[m], r) && e == ToldRow(s, m, r)
  {
    if e in s.events {
      m, r :| 0 <= m < |s.probes| && HasRow(s.probes[m]) && Carries(s.probes[m], r) && e == ToldRow(s, m, r);
    } else {
      m, r := k, s.probes[k].res;
    }
  }

  lemma ProbeKeepsRowsTold(s: State, k: nat, res: ProbeResult)
    requires RowsTold(s) && Enabled(s, Probe(k, res))
    ensures RowsTold(TakeProbe(s, k, res))
  {
    var s' := TakeProbe(s, k, res);
    assert s'.jobs == s.jobs && |s'.probes| == |s.probes|;
    forall m, r | 0 <= m < |s'.probes| && HasRow(s'.probes[m]) && Carries(s'.probes[m], r)
      ensures ToldRow(s', m, r) in s'.events
    {
      ProbeTells(s, k, res, m, r);
    }
    forall e | e in s'.events && e.Host?
      ensures exists m, r | 0 <= m < |s'.probes| && HasRow(s'.probes[m]) ::
                Carries(s'.probes[m], r) && e == ToldRow(s', m, r)
    {
      var m, r := ProbeToldBy(s, k, res, e);
      assert e == ToldRow(s', m, r);
    }
  }

  lemma StepKeepsRowsTold(s: State, step: Step)
    requires Inv(s) && RowsTold(s) && Enabled(s, step)
    ensures RowsTold(Take(s, step))
  {
    if step.Probe? {
      ProbeKeepsRowsTold(s, step.k, step.res);
    } else {
      OthersKeepRowsTold(s, step);
    }
  }

  lemma OthersKeepRowsTold(s: State, step: Step)
    requires DispatcherAgrees(s) && RowsTold(s) && Enabled(s, step) && !step.Probe?
    ensures RowsTold(Take(s, step))
  {
    var s' := Take(s, step);
    assert forall e | e in s'.events && e.Host? :: e in s.events;
    assert forall k | 0 <= k < |s.probes| :: s'.probes[k] == s.probes[k];
  }

  lemma {:induction false} RowsAreTold(run: seq<State>, steps: seq<Step>, i: nat)
    requires Traced(run, steps) && i <= |steps|
    ensures RowsTold(run[i])
  {
    if i > 0 {
      RowsAreTold(run, steps, i - 1);
      TracedIsRun(run, steps);
      RunKeepsInv(run, i - 1);
      StepKeepsRowsTold(run[i - 1], steps[i - 1]);
      assert run[i - 1 + 1] == Take(run[i - 1], steps[i - 1]);
    }
  }

  /** Every row is what a probe found: behind it there is a step with which the call of a probe returned,
      before any cancellation, and the row has that probe's target and port and the state of its result. */
  lemma RowsTellWhatWasFound(run: seq<State>, steps: seq<Step>, i: nat, row: HostRow)
    returns (j: nat, k: nat, res: ProbeResult)
    requires Traced(run, steps) && i <= |steps| && Host(row) in run[i].events
    ensures j < i && steps[j] == Probe(k, res)
    ensures k < |run[j].probes| && run[j].probes[k] == Probing && !run[j].cancelled
    ensures k < |run[i].jobs| && row.target == run[i].jobs[k].target && row.port == run[i].jobs[k].port
    ensures row.state == match res { case Open => SshHost case Closed => ClosedHost case Filtered => FilteredHost }
  {
    RowsAreTold(run, steps, i);
    var s := run[i];
    k, res :| 0 <= k < |s.probes| && HasRow(s.probes[k]) && Carries(s.probes[k], res)
              && Host(row) == ToldRow(s, k, res);
    CarriesWhatWasFound(run, steps, i, k, res);
    j :| 0 <= j < i && Returns(run[j], steps[j], k, res);
  }

  /** And nothing found is lost: once the sweep has returned, the row of a job with a result is on record if
      and only if its probe found that in time, also when the sweep was cancelled later. */
  lemma RowIffFound(run: seq<State>, steps: seq<Step>, i: nat, k: nat, res: ProbeResult)
    requires Traced(run, steps) && i <= |steps| && k < |run[i].jobs| && run[i].dispatcher.Returned?
    ensures ToldRow(run[i], k, res) in run[i].events <==> Found(run, steps, i, k, res)
  {
    var s := run[i];
    TracedIsRun(run, steps);
    RunKeepsInv(run, i);
    RowsAreTold(run, steps, i);
    CarriesWhatWasFound(run, steps, i, k, res);
    if ToldRow(s, k, res) in s.events {
      var m, r :| 0 <= m < |s.probes| && HasRow(s.probes[m]) && Carries(s.probes[m], r)
                  && ToldRow(s, k, res) == ToldRow(s, m, r);
      assert s.jobs[m] == s.jobs[k] && m == k && r == res;
    }
  }

  /** The jobs whose probe found this. */
  ghost function JobsFound(run: seq<State>, steps: seq<Step>, i: nat, res: ProbeResult): set<nat>
    requires i <= |steps| < |run|
  {
    set k: nat | k < |run[i].jobs| && Found(run, steps, i, k, res)
  }

  lemma {:induction false} CountIsSize<T>(s: seq<T>, f: T -> bool, places: set<nat>)
    requires forall k: nat :: k in places <==> k < |s| && f(s[k])
    ensures Count(s, f) == |places|
  {
    if s == [] {
      assert places == {};
    } else {
      var n := |s| - 1;
      CountIsSize(s[..n], f, places - {n});
      if n in places {
        assert places == places - {n} + {n};
      } else {
        assert places == places - {n};
      }
    }
  }

  lemma TotalIsSize(run: seq<State>, steps: seq<Step>, i: nat, res: ProbeResult)
    requires Traced(run, steps) && i <= |steps| && CountersAgree(run[i])
    requires AllFinished(run[i].probes) && |run[i].probes| == |run[i].jobs|
    ensures run[i].tally.Of(res) == |JobsFound(run, steps, i, res)|
  {
    forall k: nat
      ensures k in JobsFound(run, steps, i, res) <==>
              k < |run[i].probes| && CountedAsF(res)(run[i].probes[k])
    {
      CarriesWhatWasFound(run, steps, i, k, res);
    }
    CountIsSize(run[i].probes, CountedAsF(res), JobsFound(run, steps, i, res));
  }

  lemma ReportedWasFound(run: seq<State>, steps: seq<Step>, i: nat, k: nat) returns (res: ProbeResult)
    requires Traced(run, steps) && i <= |steps| && k < |run[i].jobs| && k < |run[i].probes|
    requires run[i].probes[k].Finished? && !WasDiscarded(run[i].probes[k])
    ensures k in JobsFound(run, steps, i, res)
  {
    res := run[i].probes[k].fate.res;
    CarriesWhatWasFound(run, steps, i, k, res);
  }

  /** What the invariant says of a sweep that has returned complete. */
  lemma CompleteIsAllReported(s: State)
    requires Inv(s) && s.dispatcher == Returned(Complete)
    ensures AllFinished(s.probes) && |s.probes| == |s.jobs|
    ensures forall k | 0 <= k < |s.probes| :: !WasDiscarded(s.probes[k])
  {
  }

  /** The totals of scan:done: how many jobs each result was found for, and every job has one. */
  lemma TotalsAreOfWhatWasFound(run: seq<State>, steps: seq<Step>, i: nat, e: Event)
    requires Traced(run, steps) && i <= |steps| && e in run[i].events && e.ScanDone?
    ensures e.ssh == |JobsFound(run, steps, i, Open)|
    ensures e.filtered == |JobsFound(run, steps, i, Filtered)|
    ensures e.closed == |JobsFound(run, steps, i, Closed)|
    ensures forall k: nat | k < |run[i].jobs| ::
              || k in JobsFound(run, steps, i, Open)
              || k in JobsFound(run, steps, i, Filtered)
              || k in JobsFound(run, steps, i, Closed)
  {
    TracedIsRun(run, steps);
    RunKeepsInv(run, i);
    DoneIsTerminal(run[i], e);
    CompleteIsAllReported(run[i]);
    TotalIsSize(run, steps, i, Open);
    TotalIsSize(run, steps, i, Filtered);
    TotalIsSize(run, steps, i, Closed);
    forall k: nat | k < |run[i].jobs|
      ensures || k in JobsFound(run, steps, i, Open)
              || k in JobsFound(run, steps, i, Filtered)
              || k in JobsFound(run, steps, i, Closed)
    {
      var res := ReportedWasFound(run, steps, i, k);
    }
  }

  // ----- how a sweep ends -----

  /** Among the first i steps there is the one with which building the target list fails. */
  ghost predicate TargetsFailed(run: seq<State>, steps: seq<Step>, i: nat)
    requires i <= |steps| < |run|
  {
    exists j | 0 <= j < i :: steps[j] == Dispatch(false) && run[j].dispatcher.Building?
  }

  predicate HasFailed(d: Dispatcher) {
    Decided(d) && d.outcome == Failed
  }

  lemma StepFails(s: State, step: Step)
    requires Enabled(s, step)
    ensures HasFailed(Take(s, step).dispatcher) <==>
            HasFailed(s.dispatcher) || (step == Dispatch(false) && s.dispatcher.Building?)
  {
  }

  lemma {:induction false} FailedIffTargetsFailed(run: seq<State>, steps: seq<Step>, i: nat)
    requires Traced(run, steps) && i <= |steps|
    ensures HasFailed(run[i].dispatcher) <==> TargetsFailed(run, steps, i)
  {
    if i > 0 {
      FailedIffTargetsFailed(run, steps, i - 1);
      StepFails(run[i - 1], steps[i - 1]);
      assert run[i - 1 + 1] == Take(run[i - 1], steps[i - 1]);
      assert TargetsFailed(run, steps, i) <==>
             TargetsFailed(run, steps, i - 1) || (steps[i - 1] == Dispatch(false) && run[i - 1].dispatcher.Building?);
    }
  }

  /** How a sweep that has returned has ended: with scan:error exactly if its target list failed, otherwise with
      scan:cancelled if the cancellation came before the final check, and with scan:done if not. */
  lemma EndingIsTold(run: seq<State>, steps: seq<Step>, i: nat)
    requires Traced(run, steps) && i <= |steps| && run[i].dispatcher.Returned?
    ensures ScanError in run[i].events <==> TargetsFailed(run, steps, i)
    ensures ScanCancelled in run[i].events <==> !TargetsFailed(run, steps, i) && CancelledInTime(run, i)
    ensures (exists e :: e in run[i].events && e.ScanDone?) <==>
            !TargetsFailed(run, steps, i) && !CancelledInTime(run, i)
  {
    var s := run[i];
    TracedIsRun(run, steps);
    RunKeepsInv(run, i);
    FailedIffTargetsFailed(run, steps, i);
    CancelledIffInTime(run, i);
    forall e | IsTerminal(e)
      ensures e in s.events <==> e == Terminal(s, s.dispatcher.outcome)
    {
      TerminalIsTheOne(s, e);
    }
    assert IsTerminal(Terminal(s, s.dispatcher.outcome));
  }

  // ----- progress -----

  /** At every moment of a sweep whose targets are known a tick can come, and tells how many probes have
      reported, how many there are to be and how many are at work; and a stop can come at every moment. */
  lemma TickTellsTheCounts(run: seq<State>, i: nat, reported: set<nat>, working: set<nat>)
    requires IsRun(run) && i < |run| && !run[i].dispatcher.Building?
    requires forall k: nat :: k in reported <==> k < |run[i].probes| && IsDone(run[i].probes[k])
    requires forall k: nat :: k in working <==> k < |run[i].probes| && IsActive(run[i].probes[k])
    ensures var s := run[i];
            && Enabled(s, Tick) && Take(s, Tick).events == s.events + [Progress(|reported|, |s.jobs|, |working|)]
            && Enabled(s, Cancel) && Take(s, Cancel) == s.(cancelled := true)
  {
    RunKeepsInv(run, i);
    CountIsSize(run[i].probes, IsDone, reported);
    CountIsSize(run[i].probes, IsActive, working);
  }

  /** The progress told up to place n never falls. */
  ghost predicate Rises(events: seq<Event>, n: nat)
    requires n <= |events|
  {
    forall a, b | 0 <= a < b < n && events[a].Progress? && events[b].Progress? :: events[a].done <= events[b].done
  }

  /** What each progress event tells as done is not more than `done`, nor than the rows before it. */
  ghost predicate Covered(events: seq<Event>, done: int) {
    forall a | 0 <= a < |events| && events[a].Progress? ::
      events[a].done <= done && events[a].done <= Count(events[..a], IsHost)
  }

  ghost predicate ProgressOk(s: State) {
    Rises(s.events, |s.events|) && Covered(s.events, s.done)
  }

  lemma StepKeepsDone(s: State, step: Step)
    requires Inv(s) && Enabled(s, step)
    ensures var s' := Take(s, step);
            s.done <= s'.done && s.done <= Count(s.events, IsHost)
            && (s'.events == s.events
                || exists e :: s'.events == s.events + [e] && (e.Progress? ==> e.done == s.done))
  {
    CountersBounded(s);
  }

  lemma MoreCovered(events: seq<Event>, e: Event, done: int, done': int)
    requires Covered(events, done) && (e.Progress? ==> e.done == done)
    requires done <= done' && done <= Count(events, IsHost)
    ensures Covered(events + [e], done')
  {
    var events' := events + [e];
    assert events'[..|events|] == events;
    forall a | 0 <= a < |events|
      ensures events'[a] == events[a] && events'[..a] == events[..a]
    {
    }
  }

  lemma MoreKeepsProgressOk(s: State, s': State, e: Event)
    requires ProgressOk(s) && s'.events == s.events + [e] && (e.Progress? ==> e.done == s.done)
    requires s.done <= s'.done && s.done <= Count(s.events, IsHost)
    ensures ProgressOk(s')
  {
    MoreCovered(s.events, e, s.done, s'.done);
    assert Rises(s'.events, |s.events|);
  }

  /** In every run the progress told never falls, and never runs ahead of the rows. */
  lemma {:induction false} ProgressNeverFalls(run: seq<State>, i: nat)
    requires IsRun(run) && i < |run|
    ensures ProgressOk(run[i])
  {
    if i > 0 {
      ProgressNeverFalls(run, i - 1);
      RunKeepsInv(run, i - 1);
      assert Next(run[i - 1], run[i]);
      var step :| Enabled(run[i - 1], step) && run[i] == Take(run[i - 1], step);
      var s, s' := run[i - 1], run[i];
      StepKeepsDone(s, step);
      if s'.events != s.events {
        var e :| s'.events == s.events + [e] && (e.Progress? ==> e.done == s.done);
        MoreKeepsProgressOk(s, s', e);
      }
    }
  }
}
