/**
 One sweep of services/scanner/service.go (run, with Start and Stop around it) as a state machine:
 the dispatching goroutine, one goroutine per probe, the progress ticker, and cancellation, interleaved
 in every possible way. Each probe statement that touches shared state is a step of its own.
 */
module ScanRun {

  // ----- parameters of a sweep -----

  const DEFAULT_SSH_PORT := 22

  function ClampMaxProbes(n: int): (r: int)
    ensures 16 <= n <= 256 ==> r == n
    ensures n <= 0 ==> r == 64
    ensures 0 < n < 16 ==> r == 16
    ensures n > 256 ==> r == 256
  {
    var m := if n <= 0 then 64 else n;
    if m < 16 then 16 else if m > 256 then 256 else m
  }

  predicate Distinct<T(==)>(s: seq<T>) {
    forall i, j | 0 <= i < j < |s| :: s[i] != s[j]
  }

  /** x occurs in s before y first does. */
  ghost predicate SeenBefore(s: seq<int>, x: int, y: int) {
    exists a | 0 <= a < |s| :: s[a] == x && y !in s[..a + 1]
  }

  /** The ports to probe: those requested, or 22 if none is; each once, in the order of their first
      places. */
  method NormalizePorts(requested: seq<int>) returns (out: seq<int>)
    ensures Distinct(out) && out != []
    ensures forall p :: p in out <==> p in requested || (requested == [] && p == 22)
    ensures forall i, j | 0 <= i < j < |out| :: SeenBefore(requested, out[i], out[j])
  {
    var ports := if |requested| == 0 then [DEFAULT_SSH_PORT] else requested;
    out := [];
    for i := 0 to |ports|
      invariant Distinct(out) && (i > 0 ==> out != [])
      invariant |out| <= i
      invariant forall p :: p in out <==> p in ports[..i]
      invariant forall k, j | 0 <= k < j < |out| :: SeenBefore(ports, out[k], out[j])
    {
      var p := ports[i];
      var seen := false;
      for j := 0 to |out|
        invariant !seen
        invariant p !in out[..j]
      {
        if out[j] == p {
          seen := true;
          break;
        }
      }
      assert seen <==> p in out by {
        assert out[..|out|] == out;
      }
      assert ports[..i + 1] == ports[..i] + [p];
      if !seen {
        forall k | 0 <= k < |out|
          ensures SeenBefore(ports, out[k], p)
        {
          assert out[k] in out;
          var a :| 0 <= a < i && ports[..i][a] == out[k];
          assert ports[a] == out[k] && p !in ports[..a + 1];
        }
        out := out + [p];
      }
    }
    assert ports[..|ports|] == ports;
  }

  /** One probe of the sweep: a target, by its place in the list, and a port. */
  datatype Job = Job(target: nat, port: int)

  function PortJobs(target: nat, ports: seq<int>): seq<Job> {
    seq(|ports|, j requires 0 <= j < |ports| => Job(target, ports[j]))
  }

  /** The jobs in the order of the two nested loops. */
  function Jobs(targets: nat, ports: seq<int>): seq<Job> {
    if targets == 0 then [] else Jobs(targets - 1, ports) + PortJobs(targets - 1, ports)
  }

  lemma {:induction false} JobsAreThePairs(targets: nat, ports: seq<int>)
    requires Distinct(ports)
    ensures |Jobs(targets, ports)| == targets * |ports|
    ensures Distinct(Jobs(targets, ports))
    ensures forall j :: j in Jobs(targets, ports) <==> j.target < targets && j.port in ports
  {
    if targets > 0 {
      JobsAreThePairs(targets - 1, ports);
      var before, last := Jobs(targets - 1, ports), PortJobs(targets - 1, ports);
      assert targets * |ports| == (targets - 1) * |ports| + |ports|;
      forall j
        ensures j in last <==> j.target == targets - 1 && j.port in ports
      {
        if j.target == targets - 1 && j.port in ports {
          var k :| 0 <= k < |ports| && ports[k] == j.port;
          assert last[k] == j;
        }
      }
      assert forall k | 0 <= k < |before| :: before[k] in before;
      assert forall k | 0 <= k < |last| :: last[k] in last;
    }
  }

  /** Target by target, and for each the ports in their order. */
  lemma {:induction false} JobsInOrder(targets: nat, ports: seq<int>, target: nat, j: nat)
    requires target < targets && j < |ports|
    ensures var before, all := Jobs(target, ports), Jobs(targets, ports);
            |before| + j < |all| && all[|before| + j] == Job(target, ports[j])
  {
    if target < targets - 1 {
      JobsInOrder(targets - 1, ports, target, j);
    }
  }

  // ----- states -----

  datatype ProbeResult = Open | Closed | Filtered

  datatype HostState = SshHost | ClosedHost | FilteredHost

  datatype HostRow = HostRow(target: nat, port: int, state: HostState)

  function StateOf(res: ProbeResult): HostState {
    match res case Open => SshHost case Closed => ClosedHost case Filtered => FilteredHost
  }

  function RowFromProbe(job: Job, res: ProbeResult): HostRow {
    HostRow(job.target, job.port, StateOf(res))
  }

  /** The counters ssh, filterd and closed. */
  datatype Tally = Tally(ssh: nat, filtered: nat, closed: nat) {
    function Of(r: ProbeResult): nat {
      match r case Open => ssh case Filtered => filtered case Closed => closed
    }

    function Bump(r: ProbeResult): Tally {
      match r
      case Open => this.(ssh := ssh + 1)
      case Filtered => this.(filtered := filtered + 1)
      case Closed => this.(closed := closed + 1)
    }
  }

  datatype Fate = Discarded | Reported(res: ProbeResult)

  /** Where a probe goroutine is: the constructors follow its statements, the last four its deferred
      calls. */
  datatype Phase =
    | Spawned
    | Probing
    | Kept(res: ProbeResult)
    | Counted(res: ProbeResult)
    | Shown(res: ProbeResult)
    | Leaving(fate: Fate)
    | Inactive(fate: Fate)
    | Released(fate: Fate)
    | Finished(fate: Fate)

  datatype Outcome = Complete | Cancelled | Failed

  /** Where the dispatching goroutine is. */
  datatype Dispatcher =
    | Building
    | Acquiring
    | Checking
    | Waiting
    | Deciding
    | Ending(outcome: Outcome)
    | Returned(outcome: Outcome)

  datatype Event =
    | Host(row: HostRow)
    | Progress(done: int, total: nat, active: int)
    | ScanDone(total: nat, ssh: nat, filtered: nat, closed: nat)
    | ScanError
    | ScanCancelled

  datatype State = State(
    jobs: seq<Job>, limit: nat,
    cancelled: bool, dispatcher: Dispatcher, probes: seq<Phase>,
    permits: int, active: int, done: nat, tally: Tally,
    events: seq<Event>)

  ghost predicate Initial(s: State) {
    && Distinct(s.jobs) && 16 <= s.limit <= 256
    && s == State(s.jobs, s.limit, false, Building, [], 0, 0, 0, Tally(0, 0, 0), [])
  }

  // ----- steps -----

  datatype Step =
    | Dispatch(targetsFound: bool)
    | AcquireFails
    | Probe(k: nat, res: ProbeResult)
    | Cancel
    | Tick

  predicate AllFinished(probes: seq<Phase>) {
    forall k | 0 <= k < |probes| :: probes[k].Finished?
  }

  predicate Enabled(s: State, step: Step) {
    match step
    case Dispatch(_) =>
      match s.dispatcher {
        case Acquiring => |s.probes| >= |s.jobs| || s.permits < s.limit
        case Waiting => AllFinished(s.probes)
        case Returned(_) => false
        case _ => true
      }
    case AcquireFails => s.dispatcher.Acquiring? && |s.probes| < |s.jobs| && s.cancelled
    case Probe(k, _) => k < |s.probes| <= |s.jobs| && !s.probes[k].Finished?
    case Cancel => true
    case Tick => !s.dispatcher.Building?
  }

  function Terminal(s: State, outcome: Outcome): Event
  {
    match outcome
    case Complete => ScanDone(|s.jobs|, s.tally.Of(Open), s.tally.Of(Filtered), s.tally.Of(Closed))
    case Cancelled => ScanCancelled
    case Failed => ScanError
  }

  function TakeDispatch(s: State, targetsFound: bool): State
    requires Enabled(s, Dispatch(targetsFound))
  {
    match s.dispatcher
    case Building => s.(dispatcher := if targetsFound then Acquiring else Ending(Failed))
    case Acquiring =>
      if |s.probes| >= |s.jobs| then s.(dispatcher := Waiting)
      else s.(dispatcher := Checking, permits := s.permits + 1)
    case Checking =>
      if s.cancelled then s.(dispatcher := Waiting, permits := s.permits - 1)
      else s.(dispatcher := Acquiring, probes := s.probes + [Spawned])
    case Waiting => s.(dispatcher := Deciding)
    case Deciding => s.(dispatcher := Ending(if s.cancelled then Cancelled else Complete))
    case Ending(outcome) => s.(dispatcher := Returned(outcome), events := s.events + [Terminal(s, outcome)])
  }

  function TakeProbe(s: State, k: nat, res: ProbeResult): State
    requires Enabled(s, Probe(k, res))
  {
    match s.probes[k]
    case Spawned => s.(probes := s.probes[k := Probing], active := s.active + 1)
    case Probing => s.(probes := s.probes[k := if s.cancelled then Leaving(Discarded) else Kept(res)])
    case Kept(r) => s.(probes := s.probes[k := Counted(r)], tally := s.tally.Bump(r))
    case Counted(r) => s.(probes := s.probes[k := Shown(r)], events := s.events + [Host(RowFromProbe(s.jobs[k], r))])
    case Shown(r) => s.(probes := s.probes[k := Leaving(Reported(r))], done := s.done + 1)
    case Leaving(f) => s.(probes := s.probes[k := Inactive(f)], active := s.active - 1)
    case Inactive(f) => s.(probes := s.probes[k := Released(f)], permits := s.permits - 1)
    case Released(f) => s.(probes := s.probes[k := Finished(f)])
  }

  function Take(s: State, step: Step): State
    requires Enabled(s, step)
  {
    match step
    case Dispatch(found) => TakeDispatch(s, found)
    case AcquireFails => s.(dispatcher := Waiting)
    case Probe(k, res) => TakeProbe(s, k, res)
    case Cancel => s.(cancelled := true)
    case Tick => s.(events := s.events + [Progress(s.done, |s.jobs|, s.active)])
  }

  ghost predicate Next(s: State, s': State) {
    exists step :: Enabled(s, step) && s' == Take(s, step)
  }

  ghost predicate IsRun(run: seq<State>) {
    && run != [] && Initial(run[0])
    && forall i | 0 < i < |run| :: Next(run[i - 1], run[i])
  }

  // ----- counting -----

  function Count<T>(s: seq<T>, f: T -> bool): nat {
    if s == [] then 0 else Count(s[..|s| - 1], f) + if f(s[|s| - 1]) then 1 else 0
  }

  lemma CountAppend<T>(s: seq<T>, x: T, f: T -> bool)
    ensures Count(s + [x], f) == Count(s, f) + if f(x) then 1 else 0
  {
    assert (s + [x])[..|s|] == s;
  }

  lemma {:induction false} CountUpdate<T>(s: seq<T>, k: nat, x: T, f: T -> bool)
    requires k < |s|
    ensures Count(s[k := x], f) + (if f(s[k]) then 1 else 0) == Count(s, f) + (if f(x) then 1 else 0)
  {
    var n := |s| - 1;
    if k == n {
      assert s[k := x][..n] == s[..n];
    } else {
      assert s[k := x][..n] == s[..n][k := x];
      CountUpdate(s[..n], k, x, f);
    }
  }

  lemma {:induction false} CountBounds<T>(s: seq<T>, f: T -> bool, g: T -> bool)
    requires forall x | x in s :: f(x) ==> g(x)
    ensures Count(s, f) <= Count(s, g) <= |s|
  {
    if s != [] {
      CountBounds(s[..|s| - 1], f, g);
    }
  }

  lemma {:induction false} CountEqual<T>(s: seq<T>, f: T -> bool, g: T -> bool)
    requires forall x | x in s :: f(x) == g(x)
    ensures Count(s, f) == Count(s, g)
  {
    if s != [] {
      CountEqual(s[..|s| - 1], f, g);
    }
  }

  /** Three cases that cover everything. */
  lemma {:induction false} CountThree<T>(s: seq<T>, f: T -> bool, g: T -> bool, h: T -> bool)
    requires forall x | x in s :: (if f(x) then 1 else 0) + (if g(x) then 1 else 0) + (if h(x) then 1 else 0) == 1
    ensures Count(s, f) + Count(s, g) + Count(s, h) == |s|
  {
    if s != [] {
      CountThree(s[..|s| - 1], f, g, h);
    }
  }

  // What a phase contributes to each shared quantity.

  predicate HoldsPermit(p: Phase) {
    !p.Released? && !p.Finished?
  }

  predicate IsActive(p: Phase) {
    p.Probing? || p.Kept? || p.Counted? || p.Shown? || p.Leaving?
  }

  predicate IsDone(p: Phase) {
    (p.Leaving? || p.Inactive? || p.Released? || p.Finished?) && p.fate.Reported?
  }

  predicate HasRow(p: Phase) {
    p.Shown? || IsDone(p)
  }

  /** The result whose counter the probe has bumped. */
  predicate CountedAs(p: Phase, r: ProbeResult) {
    || ((p.Counted? || p.Shown?) && p.res == r)
    || (IsDone(p) && p.fate.res == r)
  }

  predicate ShownAs(p: Phase, r: ProbeResult) {
    HasRow(p) && CountedAs(p, r)
  }

  predicate WasDiscarded(p: Phase) {
    (p.Leaving? || p.Inactive? || p.Released? || p.Finished?) && p.fate.Discarded?
  }

  function CountedAsF(r: ProbeResult): Phase -> bool {
    p => CountedAs(p, r)
  }

  function ShownAsF(r: ProbeResult): Phase -> bool {
    p => ShownAs(p, r)
  }

  predicate IsTerminal(e: Event) {
    e.ScanDone? || e.ScanError? || e.ScanCancelled?
  }

  predicate IsHost(e: Event) {
    e.Host?
  }

  function HostOf(j: Job): Event -> bool {
    (e: Event) => e.Host? && e.row.target == j.target && e.row.port == j.port
  }

  function HostIn(state: HostState): Event -> bool {
    (e: Event) => e.Host? && e.row.state == state
  }

  // ----- the invariant -----

  ghost predicate CountersAgree(s: State) {
    && s.permits == Count(s.probes, HoldsPermit) + (if s.dispatcher.Checking? then 1 else 0)
    && s.permits <= s.limit
    && s.active == Count(s.probes, IsActive)
    && s.done == Count(s.probes, IsDone)
    && forall r :: s.tally.Of(r) == Count(s.probes, CountedAsF(r))
  }

  /** The rows on record are those of the probes past their emission, one each. */
  ghost predicate RowsAgree(s: State) {
    && |s.probes| <= |s.jobs| && Distinct(s.jobs)
    && Count(s.events, IsHost) == Count(s.probes, HasRow)
    && RowsPerJob(s) && RowsPerState(s)
  }

  ghost predicate RowsPerJob(s: State) {
    forall k | 0 <= k < |s.jobs| ::
      Count(s.events, HostOf(s.jobs[k])) == if k < |s.probes| && HasRow(s.probes[k]) then 1 else 0
  }

  ghost predicate RowsPerState(s: State) {
    forall r :: Count(s.events, HostIn(StateOf(r))) == Count(s.probes, ShownAsF(r))
  }

  predicate Decided(d: Dispatcher) {
    d.Ending? || d.Returned?
  }

  /** Where the dispatcher is tells what has happened. */
  ghost predicate DispatcherAgrees(s: State) {
    && (s.dispatcher.Building? ==> s.probes == [])
    && (s.dispatcher.Checking? ==> |s.probes| < |s.jobs|)
    && (s.dispatcher.Waiting? || s.dispatcher.Deciding? ==> s.cancelled || |s.probes| == |s.jobs|)
    && (s.dispatcher.Deciding? || Decided(s.dispatcher) ==> AllFinished(s.probes))
    && (forall k | 0 <= k < |s.probes| && WasDiscarded(s.probes[k]) :: s.cancelled)
    && (Decided(s.dispatcher) && s.dispatcher.outcome == Failed ==> s.probes == [])
    && (Decided(s.dispatcher) && s.dispatcher.outcome == Complete ==>
          |s.probes| == |s.jobs| && forall k | 0 <= k < |s.probes| :: !WasDiscarded(s.probes[k]))
  }

  /** The log: one terminal event once the goroutine has returned, none before, and no row after it. */
  ghost predicate LogAgrees(s: State) {
    && Count(s.events, IsTerminal) == (if s.dispatcher.Returned? then 1 else 0)
    && (forall i, j | 0 <= i < j < |s.events| && IsTerminal(s.events[i]) :: !s.events[j].Host?)
    && (s.dispatcher.Returned? ==> Terminal(s, s.dispatcher.outcome) in s.events)
    && (forall e | e in s.events && e.Progress? :: 0 <= e.done <= e.total == |s.jobs| && 0 <= e.active <= s.limit)
  }

  ghost predicate Inv(s: State) {
    && 16 <= s.limit <= 256
    && CountersAgree(s) && RowsAgree(s) && DispatcherAgrees(s) && LogAgrees(s)
  }

  lemma CountersBounded(s: State)
    requires CountersAgree(s) && RowsAgree(s)
    ensures 0 <= s.active <= s.permits <= s.limit
    ensures s.done <= Count(s.events, IsHost) <= |s.probes| <= |s.jobs|
  {
    CountBounds(s.probes, IsActive, HoldsPermit);
    CountBounds(s.probes, IsDone, HasRow);
  }

  lemma InitialInv(s: State)
    requires Initial(s)
    ensures Inv(s)
  {
  }

  /** An event that is not a row leaves every count of rows alone. */
  lemma SilentEvent(s: State, e: Event)
    requires !e.Host?
    ensures Count(s.events + [e], IsTerminal) == Count(s.events, IsTerminal) + if IsTerminal(e) then 1 else 0
    ensures Count(s.events + [e], IsHost) == Count(s.events, IsHost)
    ensures forall j :: Count(s.events + [e], HostOf(j)) == Count(s.events, HostOf(j))
    ensures forall h :: Count(s.events + [e], HostIn(h)) == Count(s.events, HostIn(h))
  {
    CountAppend(s.events, e, IsTerminal);
    CountAppend(s.events, e, IsHost);
    forall j
      ensures Count(s.events + [e], HostOf(j)) == Count(s.events, HostOf(j))
    {
      CountAppend(s.events, e, HostOf(j));
    }
    forall h
      ensures Count(s.events + [e], HostIn(h)) == Count(s.events, HostIn(h))
    {
      CountAppend(s.events, e, HostIn(h));
    }
  }

  lemma SpawnCounts(s: State)
    ensures forall r :: Count(s.probes + [Spawned], CountedAsF(r)) == Count(s.probes, CountedAsF(r))
    ensures forall r :: Count(s.probes + [Spawned], ShownAsF(r)) == Count(s.probes, ShownAsF(r))
    ensures Count(s.probes + [Spawned], HoldsPermit) == Count(s.probes, HoldsPermit) + 1
    ensures Count(s.probes + [Spawned], IsActive) == Count(s.probes, IsActive)
    ensures Count(s.probes + [Spawned], IsDone) == Count(s.probes, IsDone)
    ensures Count(s.probes + [Spawned], HasRow) == Count(s.probes, HasRow)
  {
    CountAppend(s.probes, Spawned, HoldsPermit);
    CountAppend(s.probes, Spawned, IsActive);
    CountAppend(s.probes, Spawned, IsDone);
    CountAppend(s.probes, Spawned, HasRow);
    forall r
      ensures Count(s.probes + [Spawned], CountedAsF(r)) == Count(s.probes, CountedAsF(r))
      ensures Count(s.probes + [Spawned], ShownAsF(r)) == Count(s.probes, ShownAsF(r))
    {
      CountAppend(s.probes, Spawned, CountedAsF(r));
      CountAppend(s.probes, Spawned, ShownAsF(r));
    }
  }

  lemma SpawnKeepsInv(s: State)
    requires Inv(s) && s.dispatcher.Checking? && !s.cancelled
    ensures Inv(s.(dispatcher := Acquiring, probes := s.probes + [Spawned]))
  {
    SpawnCounts(s);
    var s' := s.(dispatcher := Acquiring, probes := s.probes + [Spawned]);
    assert CountersAgree(s');
    assert RowsAgree(s');
    assert DispatcherAgrees(s');
  }

  lemma EndingKeepsInv(s: State, outcome: Outcome)
    requires Inv(s) && s.dispatcher == Ending(outcome)
    ensures Inv(s.(dispatcher := Returned(outcome), events := s.events + [Terminal(s, outcome)]))
  {
    var s' := s.(dispatcher := Returned(outcome), events := s.events + [Terminal(s, outcome)]);
    SilentEvent(s, Terminal(s, outcome));
    assert RowsAgree(s') by {
      assert RowsPerJob(s');
      assert RowsPerState(s');
    }
    assert LogAgrees(s') by {
      EndingKeepsLog(s, outcome);
    }
  }

  lemma EndingKeepsLog(s: State, outcome: Outcome)
    requires LogAgrees(s) && CountersAgree(s) && s.dispatcher == Ending(outcome)
    requires Count(s.events + [Terminal(s, outcome)], IsTerminal) == Count(s.events, IsTerminal) + 1
    ensures LogAgrees(s.(dispatcher := Returned(outcome), events := s.events + [Terminal(s, outcome)]))
  {
    var events := s.events + [Terminal(s, outcome)];
    NoneCounted(s.events, IsTerminal);
    assert forall i | 0 <= i < |s.events| :: events[i] == s.events[i];
  }

  lemma DispatchKeepsInv(s: State, found: bool)
    requires Inv(s) && Enabled(s, Dispatch(found))
    ensures Inv(TakeDispatch(s, found))
  {
    if s.dispatcher.Checking? && !s.cancelled {
      SpawnKeepsInv(s);
    } else if s.dispatcher.Ending? {
      EndingKeepsInv(s, s.dispatcher.outcome);
    } else {
      QuietDispatchKeepsInv(s, TakeDispatch(s, found));
    }
  }

  /** The other steps of the dispatcher move nothing but itself and its permit. */
  lemma QuietDispatchKeepsInv(s: State, s': State)
    requires Inv(s) && s' == s.(dispatcher := s'.dispatcher, permits := s'.permits)
    requires s'.permits - Bit(s'.dispatcher.Checking?) == s.permits - Bit(s.dispatcher.Checking?)
    requires s'.permits <= s.limit && !s.dispatcher.Returned? && !s'.dispatcher.Returned?
    requires DispatcherAgrees(s')
    ensures Inv(s')
  {
  }

  lemma {:induction false} NoneCounted<T>(s: seq<T>, f: T -> bool)
    requires Count(s, f) == 0
    ensures forall i | 0 <= i < |s| :: !f(s[i])
  {
    if s != [] {
      NoneCounted(s[..|s| - 1], f);
      assert forall i | 0 <= i < |s| - 1 :: s[..|s| - 1][i] == s[i];
    }
  }

  function Bit(b: bool): int {
    if b then 1 else 0
  }

  /** What one step of probe k changes: its own phase, each shared quantity by the difference between
      the phases, and the log by its row. */
  ghost predicate ProbeEffect(s: State, s': State, k: nat) {
    && k < |s.probes| <= |s.jobs| && |s'.probes| == |s.probes| && s'.probes == s.probes[k := s'.probes[k]]
    && s' == s.(probes := s'.probes, permits := s'.permits, active := s'.active, done := s'.done,
                tally := s'.tally, events := s'.events)
    && var p, p' := s.probes[k], s'.probes[k];
    && s'.permits - s.permits == Bit(HoldsPermit(p')) - Bit(HoldsPermit(p)) <= 0
    && s'.active - s.active == Bit(IsActive(p')) - Bit(IsActive(p))
    && s'.done - s.done == Bit(IsDone(p')) - Bit(IsDone(p))
    && (forall r :: s'.tally.Of(r) - s.tally.Of(r) == Bit(CountedAs(p', r)) - Bit(CountedAs(p, r)))
    && !p.Finished? && (WasDiscarded(p') ==> WasDiscarded(p) || s.cancelled)
    && if p'.Shown?
       then s'.events == s.events + [Host(RowFromProbe(s.jobs[k], p'.res))] && !HasRow(p)
       else s'.events == s.events && HasRow(p') == HasRow(p) && forall r :: ShownAs(p', r) == ShownAs(p, r)
  }

  lemma ProbeStepHasEffect(s: State, k: nat, res: ProbeResult)
    requires Enabled(s, Probe(k, res))
    ensures ProbeEffect(s, TakeProbe(s, k, res), k)
  {
  }

  lemma EffectKeepsCounters(s: State, s': State, k: nat)
    requires CountersAgree(s) && ProbeEffect(s, s', k)
    ensures CountersAgree(s')
  {
    var p := s'.probes[k];
    CountUpdate(s.probes, k, p, HoldsPermit);
    CountUpdate(s.probes, k, p, IsActive);
    CountUpdate(s.probes, k, p, IsDone);
    forall r
      ensures s'.tally.Of(r) == Count(s'.probes, CountedAsF(r))
    {
      CountUpdate(s.probes, k, p, CountedAsF(r));
    }
  }

  lemma EffectKeepsRowsPerJob(s: State, s': State, k: nat)
    requires Distinct(s.jobs) && RowsPerJob(s) && ProbeEffect(s, s', k)
    ensures RowsPerJob(s')
  {
    var p := s'.probes[k];
    forall i | 0 <= i < |s.jobs|
      ensures Count(s'.events, HostOf(s'.jobs[i])) == if i < |s'.probes| && HasRow(s'.probes[i]) then 1 else 0
    {
      if p.Shown? {
        CountAppend(s.events, Host(RowFromProbe(s.jobs[k], p.res)), HostOf(s.jobs[i]));
      }
    }
  }

  lemma EffectKeepsRowsPerState(s: State, s': State, k: nat)
    requires RowsPerState(s) && ProbeEffect(s, s', k)
    ensures RowsPerState(s')
  {
    var p := s'.probes[k];
    forall r
      ensures Count(s'.events, HostIn(StateOf(r))) == Count(s'.probes, ShownAsF(r))
    {
      CountUpdate(s.probes, k, p, ShownAsF(r));
      if p.Shown? {
        CountAppend(s.events, Host(RowFromProbe(s.jobs[k], p.res)), HostIn(StateOf(r)));
      }
    }
  }

  lemma EffectKeepsRows(s: State, s': State, k: nat)
    requires RowsAgree(s) && ProbeEffect(s, s', k)
    ensures RowsAgree(s')
  {
    var p := s'.probes[k];
    CountUpdate(s.probes, k, p, HasRow);
    if p.Shown? {
      CountAppend(s.events, Host(RowFromProbe(s.jobs[k], p.res)), IsHost);
    }
    EffectKeepsRowsPerJob(s, s', k);
    EffectKeepsRowsPerState(s, s', k);
  }

  lemma EffectKeepsLog(s: State, s': State, k: nat)
    requires DispatcherAgrees(s) && LogAgrees(s) && ProbeEffect(s, s', k)
    ensures DispatcherAgrees(s') && LogAgrees(s')
  {
    assert !s.dispatcher.Deciding? && !Decided(s.dispatcher);
    NoneCounted(s.events, IsTerminal);
    var p := s'.probes[k];
    if p.Shown? {
      CountAppend(s.events, Host(RowFromProbe(s.jobs[k], p.res)), IsTerminal);
    }
  }

  lemma TickKeepsInv(s: State)
    requires Inv(s)
    ensures Inv(s.(events := s.events + [Progress(s.done, |s.jobs|, s.active)]))
  {
    CountersBounded(s);
    SilentEvent(s, Progress(s.done, |s.jobs|, s.active));
  }

  lemma StepKeepsInv(s: State, step: Step)
    requires Inv(s) && Enabled(s, step)
    ensures Inv(Take(s, step))
  {
    match step
    case Dispatch(found) => DispatchKeepsInv(s, found);
    case Probe(k, res) =>
      var s' := TakeProbe(s, k, res);
      ProbeStepHasEffect(s, k, res);
      EffectKeepsCounters(s, s', k);
      EffectKeepsRows(s, s', k);
      EffectKeepsLog(s, s', k);
    case Tick => TickKeepsInv(s);
    case _ =>
  }

  lemma {:induction false} RunKeepsInv(run: seq<State>, i: nat)
    requires IsRun(run) && i < |run|
    ensures Inv(run[i])
  {
    if i == 0 {
      InitialInv(run[0]);
    } else {
      RunKeepsInv(run, i - 1);
      assert Next(run[i - 1], run[i]);
      var step :| Enabled(run[i - 1], step) && run[i] == Take(run[i - 1], step);
      StepKeepsInv(run[i - 1], step);
    }
  }

  // ----- the results -----

  /** In every run: at most one terminal event, exactly one once the goroutine has returned, and no row
      after it. */
  lemma OneTerminalEvent(run: seq<State>, i: nat)
    requires IsRun(run) && i < |run|
    ensures Count(run[i].events, IsTerminal) == if run[i].dispatcher.Returned? then 1 else 0
    ensures forall a, b | 0 <= a < b < |run[i].events| && IsTerminal(run[i].events[a]) :: !run[i].events[b].Host?
  {
    RunKeepsInv(run, i);
  }

  /** In every run, at every step: the permits held never exceed the limit, the probes at work never the
      permits, the done count never the rows, the rows never the total. The same bounds hold of every
      progress event. */
  lemma BoundsHold(run: seq<State>, i: nat)
    requires IsRun(run) && i < |run|
    ensures var s := run[i];
            && 0 <= s.active <= s.permits <= s.limit <= 256
            && s.done <= Count(s.events, IsHost) <= |s.jobs|
            && forall e | e in s.events && e.Progress? :: 0 <= e.done <= e.total == |s.jobs| && 0 <= e.active <= s.limit
  {
    RunKeepsInv(run, i);
    CountersBounded(run[i]);
  }

  lemma {:induction false} CountedWithin<T>(s: seq<T>, f: T -> bool, x: T)
    requires x in s && f(x)
    ensures Count(s, f) > 0
  {
    if s[|s| - 1] != x {
      assert s == s[..|s| - 1] + [s[|s| - 1]];
      CountedWithin(s[..|s| - 1], f, x);
    }
  }

  lemma {:induction false} CountedTwice<T>(s: seq<T>, f: T -> bool, x: T, y: T)
    requires x in s && f(x) && y in s && f(y) && x != y
    ensures Count(s, f) > 1
  {
    var init, last := s[..|s| - 1], s[|s| - 1];
    assert s == init + [last];
    if last == x {
      CountedWithin(init, f, y);
    } else if last == y {
      CountedWithin(init, f, x);
    } else {
      CountedTwice(init, f, x, y);
    }
  }

  /** A terminal event on record is the one with which the sweep has returned. */
  lemma TerminalIsTheOne(s: State, e: Event)
    requires Inv(s) && IsTerminal(e)
    ensures e in s.events <==> s.dispatcher.Returned? && e == Terminal(s, s.dispatcher.outcome)
  {
    if e in s.events {
      CountedWithin(s.events, IsTerminal, e);
      var t := Terminal(s, s.dispatcher.outcome);
      if t != e {
        CountedTwice(s.events, IsTerminal, t, e);
      }
    }
  }

  /** A scan:done on record is the one with which the sweep has returned. */
  lemma DoneIsTerminal(s: State, e: Event)
    requires Inv(s) && e in s.events && e.ScanDone?
    ensures s.dispatcher == Returned(Complete) && e == Terminal(s, Complete)
  {
    TerminalIsTheOne(s, e);
  }

  /** scan:done is truthful: exactly one row for every (target, port) pair, the totals are those of the
      rows, and they add up. */
  lemma DoneMeansComplete(run: seq<State>, i: nat, e: Event)
    requires IsRun(run) && i < |run|
    requires e in run[i].events && e.ScanDone?
    ensures var s := run[i];
            && e.total == |s.jobs| == e.ssh + e.filtered + e.closed
            && (forall j | j in s.jobs :: Count(s.events, HostOf(j)) == 1)
            && Count(s.events, IsHost) == e.total
            && e.ssh == Count(s.events, HostIn(SshHost))
            && e.filtered == Count(s.events, HostIn(FilteredHost))
            && e.closed == Count(s.events, HostIn(ClosedHost))
  {
    RunKeepsInv(run, i);
    var s := run[i];
    DoneIsTerminal(s, e);
    assert forall p | p in s.probes :: p.Finished? && p.fate.Reported?;
    CountThree(s.probes, CountedAsF(Open), CountedAsF(Filtered), CountedAsF(Closed));
    forall r
      ensures s.tally.Of(r) == Count(s.events, HostIn(StateOf(r)))
    {
      CountEqual(s.probes, CountedAsF(r), ShownAsF(r));
    }
    assert StateOf(Open) == SshHost && StateOf(Filtered) == FilteredHost && StateOf(Closed) == ClosedHost;
    CountAll(s.probes, HasRow);
  }

  lemma {:induction false} CountAll<T>(s: seq<T>, f: T -> bool)
    requires forall x | x in s :: f(x)
    ensures Count(s, f) == |s|
  {
    if s != [] {
      CountAll(s[..|s| - 1], f);
    }
  }

  lemma {:induction false} JobsStay(run: seq<State>, i: nat)
    requires IsRun(run) && i < |run|
    ensures run[i].jobs == run[0].jobs
  {
    if i > 0 {
      JobsStay(run, i - 1);
      assert Next(run[i - 1], run[i]);
    }
  }

  /** In terms of the request: a sweep of some targets over some ports that ends with scan:done has
      exactly one row for every target and every port. */
  lemma DoneCoversEveryPair(run: seq<State>, i: nat, e: Event, targets: nat, ports: seq<int>)
    requires IsRun(run) && i < |run| && Distinct(ports) && run[0].jobs == Jobs(targets, ports)
    requires e in run[i].events && e.ScanDone?
    ensures e.total == targets * |ports| == e.ssh + e.filtered + e.closed
    ensures forall t: nat, p | t < targets && p in ports :: Count(run[i].events, HostOf(Job(t, p))) == 1
    ensures Count(run[i].events, IsHost) == targets * |ports|
  {
    JobsAreThePairs(targets, ports);
    JobsStay(run, i);
    DoneMeansComplete(run, i, e);
  }

  /** Some state up to i is cancelled before the final check. */
  ghost predicate CancelledInTime(run: seq<State>, i: nat)
    requires i < |run|
  {
    exists j | 0 <= j <= i :: run[j].cancelled && !Decided(run[j].dispatcher)
  }

  /** scan:cancelled ends a sweep whose targets were found exactly when the cancellation came before the
      final check; a Stop after it may still see scan:done. */
  lemma {:induction false} CancelledIffInTime(run: seq<State>, i: nat)
    requires IsRun(run) && i < |run|
    ensures Decided(run[i].dispatcher) && run[i].dispatcher.outcome != Failed ==>
              (run[i].dispatcher.outcome == Cancelled <==> CancelledInTime(run, i))
    ensures !Decided(run[i].dispatcher) ==> (run[i].cancelled <==> CancelledInTime(run, i))
  {
    if i > 0 {
      CancelledIffInTime(run, i - 1);
      assert Next(run[i - 1], run[i]);
      StepOfCancellation(run[i - 1], run[i]);
      assert CancelledInTime(run, i) <==>
             CancelledInTime(run, i - 1) || (run[i].cancelled && !Decided(run[i].dispatcher));
    }
  }

  lemma StepOfCancellation(s: State, s': State)
    requires Next(s, s')
    ensures s.cancelled ==> s'.cancelled
    ensures Decided(s.dispatcher) ==> Decided(s'.dispatcher) && s'.dispatcher.outcome == s.dispatcher.outcome
    ensures !Decided(s.dispatcher) && Decided(s'.dispatcher) && s'.dispatcher.outcome != Failed ==>
              s'.dispatcher.outcome == if s.cancelled then Cancelled else Complete
  {
  }

  /** A failed target list ends the sweep without a single row. */
  lemma ErrorMeansNoRows(run: seq<State>, i: nat)
    requires IsRun(run) && i < |run|
    requires ScanError in run[i].events
    ensures Count(run[i].events, IsHost) == 0
  {
    RunKeepsInv(run, i);
    var s := run[i];
    TerminalIsTheOne(s, ScanError);
  }

  // ----- every sweep ends -----

  function Rank(p: Phase): nat {
    match p
    case Spawned => 8
    case Probing => 7
    case Kept(_) => 6
    case Counted(_) => 5
    case Shown(_) => 4
    case Leaving(_) => 3
    case Inactive(_) => 2
    case Released(_) => 1
    case Finished(_) => 0
  }

  function RankSum(ps: seq<Phase>): nat {
    if ps == [] then 0 else RankSum(ps[..|ps| - 1]) + Rank(ps[|ps| - 1])
  }

  lemma {:induction false} RankSumUpdate(ps: seq<Phase>, k: nat, p: Phase)
    requires k < |ps|
    ensures RankSum(ps[k := p]) + Rank(ps[k]) == RankSum(ps) + Rank(p)
  {
    var n := |ps| - 1;
    if k == n {
      assert ps[k := p][..n] == ps[..n];
    } else {
      assert ps[k := p][..n] == ps[..n][k := p];
      RankSumUpdate(ps[..n], k, p);
    }
  }

  /** The statements still to run, at most. */
  function Work(s: State): int {
    11 * (|s.jobs| - |s.probes|) + RankSum(s.probes) +
    match s.dispatcher {
      case Building => 6
      case Acquiring => 5
      case Checking => 4
      case Waiting => 3
      case Deciding => 2
      case Ending(_) => 1
      case Returned(_) => 0
    }
  }

  predicate IsWork(step: Step) {
    step.Dispatch? || step.AcquireFails? || step.Probe?
  }

  lemma DispatchReducesWork(s: State, found: bool)
    requires Enabled(s, Dispatch(found))
    ensures Work(TakeDispatch(s, found)) < Work(s)
  {
    assert (s.probes + [Spawned])[..|s.probes|] == s.probes;
  }

  lemma ProbeMovesOn(s: State, k: nat, res: ProbeResult)
    requires Enabled(s, Probe(k, res))
    ensures var s' := TakeProbe(s, k, res);
            && s'.jobs == s.jobs && s'.dispatcher == s.dispatcher && |s'.probes| == |s.probes|
            && s'.probes == s.probes[k := s'.probes[k]] && Rank(s'.probes[k]) < Rank(s.probes[k])
  {
  }

  lemma ProbeReducesWork(s: State, k: nat, res: ProbeResult)
    requires Enabled(s, Probe(k, res))
    ensures Work(TakeProbe(s, k, res)) < Work(s)
  {
    ProbeMovesOn(s, k, res);
    RankSumUpdate(s.probes, k, TakeProbe(s, k, res).probes[k]);
  }

  /** Every step of the sweep's own goroutines leaves less to do; cancelling and ticking change nothing,
      so no schedule keeps a sweep from ending. */
  lemma StepsReduceWork(s: State, step: Step)
    requires |s.probes| <= |s.jobs| && Enabled(s, step)
    ensures 0 <= Work(s)
    ensures if IsWork(step) then Work(Take(s, step)) < Work(s) else Work(Take(s, step)) == Work(s)
  {
    match step
    case Dispatch(found) => DispatchReducesWork(s, found);
    case Probe(k, res) => ProbeReducesWork(s, k, res);
    case _ =>
  }

  /** A sweep that has not returned can always take such a step: with every permit taken, some probe
      still holds one and can move. */
  lemma NoDeadlock(s: State) returns (step: Step)
    requires Inv(s) && !s.dispatcher.Returned?
    ensures IsWork(step) && Enabled(s, step) && step != Dispatch(false)
  {
    step := Dispatch(true);
    if !Enabled(s, step) {
      if AllFinished(s.probes) {
        CountBounds(s.probes, HoldsPermit, HoldsPermit);
        NoneHolds(s.probes);
        assert false;
      }
      var k :| 0 <= k < |s.probes| && !s.probes[k].Finished?;
      step := Probe(k, Open);
    }
  }

  lemma {:induction false} NoneHolds(ps: seq<Phase>)
    requires AllFinished(ps)
    ensures Count(ps, HoldsPermit) == 0
  {
    if ps != [] {
      NoneHolds(ps[..|ps| - 1]);
    }
  }

  // ----- a late Stop -----

  lemma OneMore(run: seq<State>, step: Step)
    requires IsRun(run) && Enabled(run[|run| - 1], step)
    ensures IsRun(run + [Take(run[|run| - 1], step)])
  {
    var longer := run + [Take(run[|run| - 1], step)];
    forall i | 0 < i < |longer|
      ensures Next(longer[i - 1], longer[i])
    {
      if i < |run| {
        assert Next(run[i - 1], run[i]);
      }
    }
  }

  /** On its way to scan:done, or just before it. */
  predicate OnItsWay(s: State) {
    !s.cancelled && (!Decided(s.dispatcher) || s.dispatcher == Ending(Complete))
  }

  lemma StepsStayOnTheWay(s: State, step: Step)
    requires OnItsWay(s) && s.dispatcher != Ending(Complete)
    requires Enabled(s, step) && IsWork(step) && step != Dispatch(false)
    ensures OnItsWay(Take(s, step))
  {
  }

  lemma {:induction false} DriveToEnd(run: seq<State>) returns (longer: seq<State>)
    requires IsRun(run) && OnItsWay(run[|run| - 1])
    ensures IsRun(longer) && longer[0] == run[0]
    ensures !longer[|longer| - 1].cancelled && longer[|longer| - 1].dispatcher == Ending(Complete)
    decreases Work(run[|run| - 1])
  {
    var s := run[|run| - 1];
    if s.dispatcher == Ending(Complete) {
      longer := run;
    } else {
      RunKeepsInv(run, |run| - 1);
      var step := NoDeadlock(s);
      StepsStayOnTheWay(s, step);
      StepsReduceWork(s, step);
      OneMore(run, step);
      longer := DriveToEnd(run + [Take(s, step)]);
    }
  }

  /** Every sweep can complete, whatever its jobs and its limit. */
  lemma EverySweepCanComplete(s: State) returns (run: seq<State>)
    requires Initial(s)
    ensures IsRun(run) && run[0] == s
    ensures !run[|run| - 1].cancelled && run[|run| - 1].dispatcher == Ending(Complete)
  {
    run := DriveToEnd([s]);
  }

  /** And every sweep can be stopped too late: cancelled after the final check it still ends with
      scan:done. */
  lemma LateStopSeesDone(s: State) returns (run: seq<State>)
    requires Initial(s)
    ensures IsRun(run) && run[0] == s
    ensures var last := run[|run| - 1];
            && last.cancelled && last.dispatcher == Returned(Complete)
            && exists e | e in last.events :: e.ScanDone?
  {
    run := EverySweepCanComplete(s);
    OneMore(run, Cancel);
    run := run + [Take(run[|run| - 1], Cancel)];
    var stopped := run[|run| - 1];
    OneMore(run, Dispatch(true));
    run := run + [Take(stopped, Dispatch(true))];
    assert Terminal(stopped, Complete) in run[|run| - 1].events;
  }
}
