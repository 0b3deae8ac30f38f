/**
 Why the tab ids of terminal sessions have to be fresh (services/pty_service.go, services/pty_windows.go,
 services/remote_ssh.go, services/remote_winrm.go): what happens when a session is opened under the id of an
 earlier one that is still registered, or of which a goroutine still runs.
 */
module SessionReuse {
  import opened Sessions

  // ----- why tab ids have to be fresh -----

  /** The locked section and the close calls after it. */
  function Claims(s: State, i: nat): State
    requires InRange(s) && Enabled(s, Look(i))
  {
    var looked := Looked(s, i);
    if looked.actors[i].phase.Holding? then ClosedBy(looked, i) else looked
  }

  /** An SSH or WinRM pump closes a session it finds if it is of its own kind. */
  predicate ClosesKind(role: Role, kind: Kind) {
    (role.SshPump? && kind.Ssh?) || (role.WinRmPump? && kind.WinRm?)
  }

  /** If a tab id is given to a new session while a goroutine of an earlier one still runs under it, that
      goroutine takes the new session's entry. If it closes the handle it captured, it closes that one
      again and leaves the new session unclosed; an SSH or WinRM pump closes the new session if it is of
      its kind. Either way the new session is out of the registry and held by nobody, and pty:closed is about
      to be told for its tab, unless a ConPTY watcher took it or a WinRM pump a session of another kind. */
  lemma ReusedTabId(s: State, i: nat, kind: Kind)
    requires Inv(s) && InRange(s) && Enabled(s, Look(i)) && !s.actors[i].role.Closer?
    ensures var (a, next) := (s.actors[i], |s.sessions|);
            var reused := Opened(s, a.tab, kind);
            && !Free(s, a.tab) && InRange(reused) && Enabled(reused, Look(i))
            && var after := Claims(reused, i);
            && after.sessions[a.own].closes == s.sessions[a.own].closes + (if ClosesOwn(a.role) then 1 else 0)
            && a.tab !in after.registry
            && after.sessions[next].claims == 1 && after.sessions[next].claimer == i
            && after.sessions[next].closes == (if ClosesKind(a.role, kind) then 1 else 0)
            && (after.actors[i].phase ==
                if a.role.Watcher? || (a.role.WinRmPump? && !kind.WinRm?) then Finished(false) else Telling)
            && forall j | 0 <= j < |after.actors| :: after.actors[j].phase != Holding(next)
  {
    var a, next := s.actors[i], |s.sessions|;
    var reused := Opened(s, a.tab, kind);
    StaysInRange(s, Open(a.tab, kind));
    assert ActorOk(s, i);
    ClaimsOther(reused, i, next);
    var after := Claims(reused, i);
    forall j | 0 <= j < |after.actors|
      ensures after.actors[j].phase != Holding(next)
    {
      if j < |s.actors| {
        assert ActorOk(s, j);
      }
    }
  }

  /** A goroutine that finds the entry of an unclaimed session other than its own. */
  lemma ClaimsOther(s: State, i: nat, v: nat)
    requires InRange(s) && Enabled(s, Look(i)) && !s.actors[i].role.Closer?
    requires s.actors[i].tab in s.registry && s.registry[s.actors[i].tab] == v
    requires s.actors[i].own != v < |s.sessions| && s.sessions[v].claims == 0 && s.sessions[v].closes == 0
    ensures var (a, after) := (s.actors[i], Claims(s, i));
            && after.registry == s.registry - {a.tab} && |after.sessions| == |s.sessions|
            && after.sessions[a.own].closes == s.sessions[a.own].closes + (if ClosesOwn(a.role) then 1 else 0)
            && after.sessions[a.own].claims == s.sessions[a.own].claims
            && after.sessions[v].claims == 1 && after.sessions[v].claimer == i
            && after.sessions[v].closes == (if ClosesKind(a.role, s.sessions[v].kind) then 1 else 0)
            && after.actors == s.actors[i := after.actors[i]]
            && (after.actors[i].phase ==
                if a.role.Watcher? || (a.role.WinRmPump? && !s.sessions[v].kind.WinRm?)
                then Finished(false) else Telling)
  {
  }

  /** A goroutine of the session that is opened next. */
  function Started(s: State, role: Role, tab: string): Actor {
    Actor(role, tab, |s.sessions|, Running)
  }

  /** What opening starts: a Unix shell one pump, ConPTY a watcher and a reader, SSH and WinRM two pumps each,
      all running under the tab id and holding the new session; none of them is a call of CloseTerminal. */
  lemma OpenStarts(s: State, tab: string, kind: Kind)
    ensures Opened(s, tab, kind).sessions == s.sessions + [Session(tab, kind, |s.actors|, 0, 0, 0)]
    ensures Opened(s, tab, kind).registry == s.registry[tab := |s.sessions|]
    ensures Opened(s, tab, kind).actors ==
            s.actors + (match kind
                        case UnixPty => [Started(s, Pump, tab)]
                        case ConPty => [Started(s, Watcher, tab), Started(s, Reader, tab)]
                        case Ssh => [Started(s, SshPump, tab), Started(s, SshPump, tab)]
                        case WinRm => [Started(s, WinRmPump, tab), Started(s, WinRmPump, tab)])
  {
  }

  ghost predicate Once(s: State, v: nat)
    requires v < |s.sessions|
  {
    s.sessions[v].claims == 1 && s.sessions[v].closes == 1
  }

  /** When the earlier session has been claimed and closed once, the counts of both are once each afterwards
      if and only if it is an SSH pump that takes an SSH session, or a WinRM pump a WinRM session: then the
      new session is closed by the pump of the earlier one. */
  lemma CountsSurviveIff(s: State, i: nat, kind: Kind)
    requires Inv(s) && InRange(s) && Enabled(s, Look(i)) && !s.actors[i].role.Closer?
    requires Once(s, s.actors[i].own)
    ensures var (a, next) := (s.actors[i], |s.sessions|);
            var reused := Opened(s, a.tab, kind);
            && InRange(reused) && Enabled(reused, Look(i))
            && var after := Claims(reused, i);
            |after.sessions| == next + 1 && (Once(after, a.own) && Once(after, next) <==> ClosesKind(a.role, kind))
  {
    var a := s.actors[i];
    var reused := Opened(s, a.tab, kind);
    StaysInRange(s, Open(a.tab, kind));
    assert ActorOk(s, i);
    ClaimsOther(reused, i, |s.sessions|);
  }

  lemma OneMore(steps: seq<Step>, s: State, step: Step)
    requires Runs(steps, s) && Inv(s) && InRange(s) && Enabled(s, step) && Fresh(s, step)
    ensures Runs(steps + [step], Next(s, step)) && Inv(Next(s, step)) && InRange(Next(s, step))
  {
    assert (steps + [step])[..|steps|] == steps;
    assert StepsTo(s, step, Next(s, step));
    StepKeepsInv(s, step);
  }

  lemma OpenThenCall(tab: string, kind: Kind) returns (steps: seq<Step>, s: State)
    ensures Runs(steps, s) && Inv(s) && InRange(s)
    ensures s.sessions == [Session(tab, kind, 0, 0, 0, 0)] && s.registry == map[tab := 0]
    ensures |s.actors| == |Starts(kind)| + 1 && s.actors[|Starts(kind)|] == Actor(Closer, tab, 0, Running)
    ensures s.actors[0] == Actor(Starts(kind)[0], tab, 0, Running)
  {
    OneMore([], EMPTY, Open(tab, kind));
    s := Opened(EMPTY, tab, kind);
    steps := [] + [Open(tab, kind)];
    OneMore(steps, s, CallClose(tab));
    s := Next(s, CallClose(tab));
    steps := steps + [CallClose(tab)];
  }

  lemma CallHolds(tab: string, kind: Kind) returns (steps: seq<Step>, s: State)
    ensures Runs(steps, s) && Inv(s) && InRange(s)
    ensures s.sessions == [Session(tab, kind, 0, 1, |Starts(kind)|, 0)] && s.registry == map[]
    ensures |s.actors| == |Starts(kind)| + 1 && s.actors[|Starts(kind)|] == Actor(Closer, tab, 0, Holding(0))
    ensures s.actors[0] == Actor(Starts(kind)[0], tab, 0, Running)
  {
    steps, s := OpenThenCall(tab, kind);
    var n := |Starts(kind)|;
    OneMore(steps, s, Look(n));
    LookIsFound(s, n);
    CallerFinds(s, tab, kind, n);
    s, steps := Found(s, n, 0), steps + [Look(n)];
  }

  lemma CallerFinds(s: State, tab: string, kind: Kind, n: nat)
    requires s.sessions == [Session(tab, kind, 0, 0, 0, 0)] && s.registry == map[tab := 0]
    requires 0 < n && |s.actors| == n + 1 && s.actors[n] == Actor(Closer, tab, 0, Running)
    ensures var s' := Found(s, n, 0);
            && s'.sessions == [Session(tab, kind, 0, 1, n, 0)] && s'.registry == map[]
            && |s'.actors| == n + 1 && s'.actors[n] == Actor(Closer, tab, 0, Holding(0)) && s'.actors[0] == s.actors[0]
  {
  }

  /** That state is reachable: a session of any kind, closed by CloseTerminal, with its first goroutine
      still running under the tab id. */
  lemma ClosedWhileRunning(tab: string, kind: Kind) returns (steps: seq<Step>, s: State)
    ensures Runs(steps, s) && Inv(s) && InRange(s)
    ensures Enabled(s, Look(0)) && s.actors[0] == Actor(Starts(kind)[0], tab, 0, Running)
    ensures |s.sessions| == 1 && s.sessions[0].closes == 1 && tab !in s.registry
  {
    steps, s := CallHolds(tab, kind);
    var n := |Starts(kind)|;
    OneMore(steps, s, Close(n));
    s, steps := ClosedBy(s, n), steps + [Close(n)];
  }

  // ----- an entry that is overwritten -----

  /** Any steps from s to s', tab ids fresh or not. */
  ghost predicate Plays(s: State, steps: seq<Step>, s': State)
    decreases |steps|
  {
    if steps == [] then s' == s
    else Enabled(s, steps[0]) && InRange(s) && Plays(Next(s, steps[0]), steps[1..], s')
  }

  /** Session w is unclaimed, in no entry and held by nobody. */
  ghost predicate Orphan(s: State, w: nat) {
    && w < |s.sessions| && s.sessions[w].claims == 0
    && (forall t | t in s.registry :: s.registry[t] != w)
    && (forall i | 0 <= i < |s.actors| :: s.actors[i].phase != Holding(w))
  }

  /** None of the goroutines of an orphan closes the handle it captured. */
  ghost predicate Unclosed(s: State, w: nat) {
    && w < |s.sessions| && s.sessions[w].closes == 0
    && forall i | 0 <= i < |s.actors| :: ClosesOwn(s.actors[i].role) ==> s.actors[i].own != w
  }

  lemma LookKeepsOrphan(s: State, i: nat, w: nat)
    requires Orphan(s, w) && Enabled(s, Look(i)) && InRange(s)
    ensures Orphan(Looked(s, i), w) && (Unclosed(s, w) ==> Unclosed(Looked(s, i), w))
  {
  }

  lemma CloseKeepsOrphan(s: State, i: nat, w: nat)
    requires Orphan(s, w) && Enabled(s, Close(i)) && InRange(s)
    ensures Orphan(ClosedBy(s, i), w) && (Unclosed(s, w) ==> Unclosed(ClosedBy(s, i), w))
  {
  }

  lemma StepKeepsOrphan(s: State, step: Step, w: nat)
    requires Orphan(s, w) && Enabled(s, step) && InRange(s)
    ensures Orphan(Next(s, step), w) && (Unclosed(s, w) ==> Unclosed(Next(s, step), w))
  {
    match step {
      case Look(i) => LookKeepsOrphan(s, i, w);
      case Close(i) => CloseKeepsOrphan(s, i, w);
      case _ =>
    }
  }

  lemma {:induction false} OrphanForever(s: State, steps: seq<Step>, s': State, w: nat)
    requires Plays(s, steps, s') && Orphan(s, w)
    ensures Orphan(s', w) && (Unclosed(s, w) ==> Unclosed(s', w))
    decreases |steps|
  {
    if steps != [] {
      StepKeepsOrphan(s, steps[0], w);
      OrphanForever(Next(s, steps[0]), steps[1..], s', w);
    }
  }

  /** If a tab id is given to a new session while one is registered under it, the earlier session is never
      claimed again, whatever follows; an SSH or WinRM session is never closed. */
  lemma OverwrittenIsNeverClaimed(s: State, tab: string, kind: Kind, steps: seq<Step>, s': State)
    requires Inv(s) && tab in s.registry && Plays(Opened(s, tab, kind), steps, s')
    ensures var w := s.registry[tab];
            && w < |s'.sessions| && s'.sessions[w].claims == 0
            && (Remote(s.sessions[w].kind) ==> s'.sessions[w].closes == 0)
  {
    var w, reused := s.registry[tab], Opened(s, tab, kind);
    assert SessionOk(s, w) && Registered(s, w);
    assert forall t | t in s.registry && s.registry[t] == w :: t == tab;
    forall i | 0 <= i < |reused.actors|
      ensures reused.actors[i].phase != Holding(w)
      ensures Remote(s.sessions[w].kind) && ClosesOwn(reused.actors[i].role) ==> reused.actors[i].own != w
    {
      if i < |s.actors| {
        assert ActorOk(s, i);
      }
    }
    OrphanForever(reused, steps, s', w);
  }
}
