/**
 Ownership of terminal sessions: services/pty_service.go, services/pty_windows.go,
 services/remote_ssh.go and services/remote_winrm.go. Deleting the entry of a tab from the locked
 registry is the token for who closes the session; the goroutines of all sessions and any number of
 CloseTerminal calls are interleaved in every possible way, one locked section or call per step.
 */
module Sessions {

  datatype Kind = UnixPty | ConPty | Ssh | WinRm

  /** A goroutine of a session, or a call of CloseTerminal. */
  datatype Role = Pump | Watcher | Reader | SshPump | WinRmPump | Closer

  datatype Phase =
    | Running             // reading, waiting, or not yet at the lock
    | Holding(taken: nat) // has deleted the entry of this session
    | Telling             // about to emit pty:closed
    | Finished(told: bool)

  /** `own` is the session whose handle the goroutine captured; a call has none. */
  datatype Actor = Actor(role: Role, tab: string, own: nat, phase: Phase)

  /** A session, with what has happened to it: how often its entry was claimed, by whom last, and how
      often its handle was closed. Its goroutines are the actors from `first` on. */
  datatype Session = Session(tab: string, kind: Kind, first: nat, claims: nat, claimer: nat, closes: nat)

  datatype State = State(sessions: seq<Session>, registry: map<string, nat>, actors: seq<Actor>)

  const EMPTY := State([], map[], [])

  datatype Step =
    | Open(tab: string, kind: Kind)
    | CallClose(tab: string)
    | Look(actor: nat)   // the locked section
    | Close(actor: nat)  // the close calls after it
    | Tell(actor: nat)   // pty:closed

  /** The goroutines started with a session, in order. */
  function Starts(kind: Kind): seq<Role> {
    match kind
    case UnixPty => [Pump]
    case ConPty => [Watcher, Reader]
    case Ssh => [SshPump, SshPump]
    case WinRm => [WinRmPump, WinRmPump]
  }

  /** They close the handle they captured; the others close the session they find in the registry. */
  predicate ClosesOwn(role: Role) {
    role.Pump? || role.Watcher? || role.Reader?
  }

  /** They emit pty:closed whether or not the session was still there. */
  predicate AlwaysTells(role: Role) {
    role.Pump? || role.Reader?
  }

  predicate TellsAfterClaim(role: Role) {
    AlwaysTells(role) || role.SshPump? || role.WinRmPump?
  }

  predicate Enabled(s: State, step: Step) {
    match step
    case Open(_, _) => true
    case CallClose(_) => true
    case Look(i) => i < |s.actors| && s.actors[i].phase.Running?
    case Close(i) => i < |s.actors| && s.actors[i].phase.Holding?
    case Tell(i) => i < |s.actors| && s.actors[i].phase.Telling?
  }

  // ----- steps -----

  function Opened(s: State, tab: string, kind: Kind): State {
    var v := |s.sessions|;
    State(s.sessions + [Session(tab, kind, |s.actors|, 0, 0, 0)], s.registry[tab := v],
          s.actors + seq(|Starts(kind)|, k requires 0 <= k < |Starts(kind)| => Actor(Starts(kind)[k], tab, v, Running)))
  }

  function At(s: State, i: nat, phase: Phase): State
    requires i < |s.actors|
  {
    s.(actors := s.actors[i := s.actors[i].(phase := phase)])
  }

  function Claimed(s: State, v: nat, i: nat): State
    requires v < |s.sessions|
  {
    s.(sessions := s.sessions[v := s.sessions[v].(claims := s.sessions[v].claims + 1, claimer := i)])
  }

  function Closed(s: State, v: nat): State
    requires v < |s.sessions|
  {
    s.(sessions := s.sessions[v := s.sessions[v].(closes := s.sessions[v].closes + 1)])
  }

  ghost predicate InRange(s: State) {
    && (forall t | t in s.registry :: s.registry[t] < |s.sessions|)
    && (forall i | 0 <= i < |s.actors| ::
          && (!s.actors[i].role.Closer? ==> s.actors[i].own < |s.sessions|)
          && (s.actors[i].phase.Holding? ==> s.actors[i].phase.taken < |s.sessions|))
  }

  /** What an actor does when the entry is still there. The ConPTY reader closes inside the lock; a WinRM
      pump leaves a session of another kind unclosed and untold. */
  function Took(s: State, i: nat, v: nat): State
    requires i < |s.actors| && v < |s.sessions| && (!s.actors[i].role.Closer? ==> s.actors[i].own < |s.sessions|)
  {
    var a := s.actors[i];
    if a.role.Reader? then Closed(Claimed(At(s, i, Telling), v, i), a.own)
    else if a.role.WinRmPump? && s.sessions[v].kind != WinRm then Claimed(At(s, i, Finished(false)), v, i)
    else Claimed(At(s, i, Holding(v)), v, i)
  }

  function Looked(s: State, i: nat): State
    requires i < |s.actors| && (s.actors[i].tab in s.registry ==> s.registry[s.actors[i].tab] < |s.sessions|)
    requires !s.actors[i].role.Closer? ==> s.actors[i].own < |s.sessions|
  {
    var a := s.actors[i];
    if a.tab in s.registry then Took(s.(registry := s.registry - {a.tab}), i, s.registry[a.tab])
    else At(s, i, if AlwaysTells(a.role) then Telling else Finished(false))
  }

  /** An SSH pump finds no SSH handles in a session of another kind. */
  predicate ClosesTaken(s: State, a: Actor)
    requires a.phase.Holding? && a.phase.taken < |s.sessions|
  {
    a.role.SshPump? ==> s.sessions[a.phase.taken].kind == Ssh
  }

  function ClosedBy(s: State, i: nat): State
    requires i < |s.actors| && s.actors[i].phase.Holding? && s.actors[i].phase.taken < |s.sessions|
    requires !s.actors[i].role.Closer? ==> s.actors[i].own < |s.sessions|
  {
    var a := s.actors[i];
    var after := At(s, i, if TellsAfterClaim(a.role) then Telling else Finished(false));
    if ClosesOwn(a.role) then Closed(after, a.own)
    else if ClosesTaken(s, a) then Closed(after, a.phase.taken)
    else after
  }

  function Next(s: State, step: Step): State
    requires Enabled(s, step) && InRange(s)
  {
    match step
    case Open(tab, kind) => Opened(s, tab, kind)
    case CallClose(tab) => s.(actors := s.actors + [Actor(Closer, tab, 0, Running)])
    case Look(i) => Looked(s, i)
    case Close(i) => ClosedBy(s, i)
    case Tell(i) => At(s, i, Finished(true))
  }

  lemma LookStaysInRange(s: State, i: nat)
    requires Enabled(s, Look(i)) && InRange(s)
    ensures InRange(Looked(s, i))
  {
  }

  lemma CloseStaysInRange(s: State, i: nat)
    requires Enabled(s, Close(i)) && InRange(s)
    ensures InRange(ClosedBy(s, i))
  {
  }

  lemma StaysInRange(s: State, step: Step)
    requires Enabled(s, step) && InRange(s)
    ensures InRange(Next(s, step))
  {
    match step {
      case Look(i) => LookStaysInRange(s, i);
      case Close(i) => CloseStaysInRange(s, i);
      case _ =>
    }
  }

  // ----- fresh tab ids -----

  /** A tab id is free when no session is registered under it and no goroutine of an earlier one is still
      running. Calls of CloseTerminal may be under way. */
  ghost predicate Free(s: State, tab: string) {
    && tab !in s.registry
    && forall i | 0 <= i < |s.actors| && s.actors[i].tab == tab ::
         s.actors[i].role.Closer? || !s.actors[i].phase.Running?
  }

  ghost predicate Fresh(s: State, step: Step) {
    step.Open? ==> Free(s, step.tab)
  }

  // ----- the invariant -----

  ghost predicate RegistryOk(s: State) {
    forall t | t in s.registry :: s.registry[t] < |s.sessions| && s.sessions[s.registry[t]].tab == t
  }

  ghost predicate Registered(s: State, v: nat)
    requires v < |s.sessions|
  {
    s.sessions[v].tab in s.registry && s.registry[s.sessions[v].tab] == v
  }

  /** Claimed at most once and closed at most once; between the two, its claimer holds it. While it is
      registered its first goroutine is running. */
  ghost predicate SessionOk(s: State, v: nat)
    requires v < |s.sessions|
  {
    var x := s.sessions[v];
    && x.first < |s.actors| && s.actors[x.first].own == v && s.actors[x.first].role == Starts(x.kind)[0]
    && x.closes <= x.claims <= 1
    && (x.claims == 0 <==> Registered(s, v))
    && (x.claims == 0 ==> s.actors[x.first].phase.Running?)
    && (x.claims == 1 ==>
          && x.claimer < |s.actors| && !s.actors[x.claimer].phase.Running?
          && (x.closes == 0 <==> s.actors[x.claimer].phase == Holding(v)))
  }

  ghost predicate ActorOk(s: State, i: nat)
    requires i < |s.actors|
  {
    var a := s.actors[i];
    && (!a.role.Closer? ==>
          && a.own < |s.sessions| && a.tab == s.sessions[a.own].tab && a.role in Starts(s.sessions[a.own].kind)
          && (a.phase.Running? && a.tab in s.registry ==> s.registry[a.tab] == a.own))
    && (a.role.Closer? ==> !a.phase.Telling?)
    && (a.phase.Holding? ==>
          && a.phase.taken < |s.sessions| && s.sessions[a.phase.taken].claims == 1
          && s.sessions[a.phase.taken].claimer == i && s.sessions[a.phase.taken].closes == 0
          && (!a.role.Closer? ==> a.phase.taken == a.own && !a.role.Reader?))
  }

  ghost predicate Inv(s: State) {
    && RegistryOk(s)
    && (forall v | 0 <= v < |s.sessions| :: SessionOk(s, v))
    && (forall i | 0 <= i < |s.actors| :: ActorOk(s, i))
  }

  lemma InvInRange(s: State)
    requires Inv(s)
    ensures InRange(s)
  {
    forall i | 0 <= i < |s.actors|
      ensures !s.actors[i].role.Closer? ==> s.actors[i].own < |s.sessions|
      ensures s.actors[i].phase.Holding? ==> s.actors[i].phase.taken < |s.sessions|
    {
      assert ActorOk(s, i);
    }
  }

  lemma FreeOpenKeepsInv(s: State, tab: string, kind: Kind)
    requires Inv(s) && Free(s, tab)
    ensures Inv(Opened(s, tab, kind))
  {
    var s' := Opened(s, tab, kind);
    forall v | 0 <= v < |s'.sessions|
      ensures SessionOk(s', v)
    {
      if v < |s.sessions| {
        assert SessionOk(s, v);
      }
    }
    forall i | 0 <= i < |s'.actors|
      ensures ActorOk(s', i)
    {
      if i < |s.actors| {
        assert ActorOk(s, i);
      }
    }
  }

  /** Opening keeps the invariant if and only if the tab id is free. */
  lemma OpenKeepsInvIff(s: State, tab: string, kind: Kind)
    requires Inv(s)
    ensures Inv(Opened(s, tab, kind)) <==> Free(s, tab)
  {
    var s' := Opened(s, tab, kind);
    if Free(s, tab) {
      FreeOpenKeepsInv(s, tab, kind);
    } else if tab in s.registry {
      var w := s.registry[tab];
      assert SessionOk(s, w) && Registered(s, w);
      assert !SessionOk(s', w);
    } else {
      var i :| 0 <= i < |s.actors| && s.actors[i].tab == tab && !s.actors[i].role.Closer? && s.actors[i].phase.Running?;
      assert ActorOk(s, i) && s'.actors[i] == s.actors[i];
      assert !ActorOk(s', i);
    }
  }

  lemma CallKeepsInv(s: State, tab: string)
    requires Inv(s)
    ensures Inv(s.(actors := s.actors + [Actor(Closer, tab, 0, Running)]))
  {
    var s' := s.(actors := s.actors + [Actor(Closer, tab, 0, Running)]);
    forall v | 0 <= v < |s'.sessions|
      ensures SessionOk(s', v)
    {
      assert SessionOk(s, v);
    }
    forall i | 0 <= i < |s'.actors|
      ensures ActorOk(s', i)
    {
      if i < |s.actors| {
        assert ActorOk(s, i);
      }
    }
  }

  /** Who finds the entry finds its own session's, and nobody has claimed that one yet. */
  lemma LookFindsOwn(s: State, i: nat)
    requires Inv(s) && InRange(s) && Enabled(s, Look(i)) && s.actors[i].tab in s.registry
    ensures var v := s.registry[s.actors[i].tab];
            && s.sessions[v].claims == 0 && s.sessions[v].closes == 0 && s.sessions[v].tab == s.actors[i].tab
            && (!s.actors[i].role.Closer? ==> s.actors[i].own == v)
            && (s.actors[i].role.WinRmPump? ==> s.sessions[v].kind == WinRm)
  {
    assert ActorOk(s, i);
    assert SessionOk(s, s.registry[s.actors[i].tab]) && Registered(s, s.registry[s.actors[i].tab]);
  }

  /** The locked section of an actor that finds the entry of session v, where that is its own. */
  function Found(s: State, i: nat, v: nat): State
    requires i < |s.actors| && v < |s.sessions|
  {
    var a := s.actors[i];
    var x := s.sessions[v].(claims := s.sessions[v].claims + 1, claimer := i);
    State(s.sessions[v := if a.role.Reader? then x.(closes := x.closes + 1) else x], s.registry - {a.tab},
          s.actors[i := a.(phase := if a.role.Reader? then Telling else Holding(v))])
  }

  lemma LookIsFound(s: State, i: nat)
    requires Inv(s) && InRange(s) && Enabled(s, Look(i)) && s.actors[i].tab in s.registry
    ensures Looked(s, i) == Found(s, i, s.registry[s.actors[i].tab])
  {
    LookFindsOwn(s, i);
  }

  /** A phase that an actor may move to when it misses the entry. */
  predicate Missed(a: Actor, phase: Phase) {
    if AlwaysTells(a.role) then phase.Telling? else phase == Finished(false)
  }

  lemma MissKeepsSession(s: State, i: nat, phase: Phase, v: nat)
    requires Inv(s) && Enabled(s, Look(i)) && s.actors[i].tab !in s.registry && Missed(s.actors[i], phase)
    requires v < |s.sessions|
    ensures SessionOk(At(s, i, phase), v)
  {
    assert SessionOk(s, v) && ActorOk(s, i);
  }

  lemma MissKeepsActor(s: State, i: nat, phase: Phase, j: nat)
    requires Inv(s) && Enabled(s, Look(i)) && Missed(s.actors[i], phase) && j < |s.actors|
    ensures ActorOk(At(s, i, phase), j)
  {
    assert ActorOk(s, j);
  }

  /** What LookFindsOwn gives. */
  ghost predicate Finds(s: State, i: nat, v: nat) {
    && i < |s.actors| && v < |s.sessions| && s.actors[i].phase.Running?
    && s.actors[i].tab in s.registry && s.registry[s.actors[i].tab] == v && s.sessions[v].tab == s.actors[i].tab
    && s.sessions[v].claims == 0 && s.sessions[v].closes == 0
    && (!s.actors[i].role.Closer? ==> s.actors[i].own == v)
  }

  lemma FoundKeepsSession(s: State, i: nat, v: nat, w: nat)
    requires Finds(s, i, v) && w < |s.sessions| && SessionOk(s, w)
    ensures SessionOk(Found(s, i, v), w)
  {
  }

  lemma FoundKeepsActor(s: State, i: nat, v: nat, j: nat)
    requires Finds(s, i, v) && j < |s.actors| && ActorOk(s, i) && ActorOk(s, j)
    ensures ActorOk(Found(s, i, v), j)
  {
  }

  lemma FoundKeepsRegistry(s: State, i: nat, v: nat)
    requires RegistryOk(s) && Finds(s, i, v)
    ensures RegistryOk(Found(s, i, v))
  {
  }

  lemma LookKeepsInv(s: State, i: nat)
    requires Inv(s) && InRange(s) && Enabled(s, Look(i))
    ensures Inv(Looked(s, i))
  {
    var a := s.actors[i];
    if a.tab in s.registry {
      var v := s.registry[a.tab];
      LookFindsOwn(s, i);
      LookIsFound(s, i);
      FoundKeepsRegistry(s, i, v);
      forall w | 0 <= w < |s.sessions|
        ensures SessionOk(Found(s, i, v), w)
      {
        FoundKeepsSession(s, i, v, w);
      }
      forall j | 0 <= j < |s.actors|
        ensures ActorOk(Found(s, i, v), j)
      {
        FoundKeepsActor(s, i, v, j);
      }
    } else {
      var phase := if AlwaysTells(a.role) then Telling else Finished(false);
      forall v | 0 <= v < |s.sessions|
        ensures SessionOk(At(s, i, phase), v)
      {
        MissKeepsSession(s, i, phase, v);
      }
      forall j | 0 <= j < |s.actors|
        ensures ActorOk(At(s, i, phase), j)
      {
        MissKeepsActor(s, i, phase, j);
      }
    }
  }

  lemma CloseKeepsSession(s: State, i: nat, v: nat)
    requires Inv(s) && InRange(s) && Enabled(s, Close(i)) && v < |s.sessions|
    ensures v < |ClosedBy(s, i).sessions| && SessionOk(ClosedBy(s, i), v)
  {
    assert SessionOk(s, v) && ActorOk(s, i);
  }

  lemma CloseKeepsActor(s: State, i: nat, j: nat)
    requires Inv(s) && InRange(s) && Enabled(s, Close(i)) && j < |s.actors|
    ensures j < |ClosedBy(s, i).actors| && ActorOk(ClosedBy(s, i), j)
  {
    assert ActorOk(s, i) && ActorOk(s, j);
  }

  lemma CloseKeepsInv(s: State, i: nat)
    requires Inv(s) && InRange(s) && Enabled(s, Close(i))
    ensures Inv(ClosedBy(s, i))
  {
    var s' := ClosedBy(s, i);
    assert |s'.sessions| == |s.sessions| && |s'.actors| == |s.actors| && s'.registry == s.registry;
    forall v | 0 <= v < |s.sessions|
      ensures SessionOk(s', v)
    {
      CloseKeepsSession(s, i, v);
    }
    forall j | 0 <= j < |s.actors|
      ensures ActorOk(s', j)
    {
      CloseKeepsActor(s, i, j);
    }
  }

  lemma TellKeepsInv(s: State, i: nat)
    requires Inv(s) && InRange(s) && Enabled(s, Tell(i))
    ensures Inv(At(s, i, Finished(true)))
  {
    var s' := At(s, i, Finished(true));
    assert ActorOk(s, i);
    forall v | 0 <= v < |s'.sessions|
      ensures SessionOk(s', v)
    {
      assert SessionOk(s, v);
    }
    forall j | 0 <= j < |s'.actors|
      ensures ActorOk(s', j)
    {
      assert ActorOk(s, j);
    }
  }

  lemma StepKeepsInv(s: State, step: Step)
    requires Inv(s) && InRange(s) && Enabled(s, step) && Fresh(s, step)
    ensures Inv(Next(s, step)) && InRange(Next(s, step))
  {
    match step {
      case Open(tab, kind) => OpenKeepsInvIff(s, tab, kind);
      case CallClose(tab) => CallKeepsInv(s, tab);
      case Look(i) => LookKeepsInv(s, i);
      case Close(i) => CloseKeepsInv(s, i);
      case Tell(i) => TellKeepsInv(s, i);
    }
    InvInRange(Next(s, step));
  }

  // ----- pty:closed -----

  /** The goroutines of a session are its own; if one of them claimed a session, it claimed this one. */
  ghost predicate TeamOk(s: State, v: nat)
    requires v < |s.sessions|
  {
    var x := s.sessions[v];
    && x.first + |Starts(x.kind)| <= |s.actors|
    && s.actors[x.first].own == v && s.actors[x.first].role == Starts(x.kind)[0]
    && (!x.kind.UnixPty? ==> s.actors[x.first + 1].own == v && s.actors[x.first + 1].role == Starts(x.kind)[1])
    && (x.claims == 1 ==>
          x.claimer < |s.actors| && (!s.actors[x.claimer].role.Closer? ==> s.actors[x.claimer].own == v))
  }

  predicate InTeam(s: State, i: nat, v: nat)
    requires v < |s.sessions|
  {
    s.sessions[v].first <= i < s.sessions[v].first + |Starts(s.sessions[v].kind)|
  }

  /** Who emits: a shell's pump and a ConPTY reader always, of the SSH and WinRM pumps the one that
      claimed the session. */
  ghost predicate TellerOk(s: State, i: nat)
    requires i < |s.actors|
  {
    var a := s.actors[i];
    && (!a.role.Closer? ==> a.own < |s.sessions| && InTeam(s, i, a.own))
    && (a.phase.Telling? || a.phase == Finished(true) ==> TellsAfterClaim(a.role))
    && (AlwaysTells(a.role) ==> a.phase != Finished(false))
    && (a.role.SshPump? || a.role.WinRmPump? ==>
          ((s.sessions[a.own].claims == 1 && s.sessions[a.own].claimer == i) <==>
           a.phase.Holding? || a.phase.Telling? || a.phase == Finished(true)))
  }

  ghost predicate EventsOk(s: State) {
    && (forall v | 0 <= v < |s.sessions| :: TeamOk(s, v))
    && (forall i | 0 <= i < |s.actors| :: TellerOk(s, i))
  }

  lemma MissKeepsTeam(s: State, i: nat, phase: Phase, v: nat)
    requires i < |s.actors| && v < |s.sessions| && TeamOk(s, v)
    ensures TeamOk(At(s, i, phase), v)
  {
  }

  lemma MissKeepsTeller(s: State, i: nat, phase: Phase, j: nat)
    requires Enabled(s, Look(i)) && Missed(s.actors[i], phase) && j < |s.actors| && TellerOk(s, j)
    ensures TellerOk(At(s, i, phase), j)
  {
  }

  lemma FoundKeepsTeam(s: State, i: nat, v: nat, w: nat)
    requires Finds(s, i, v) && w < |s.sessions| && TeamOk(s, w)
    ensures TeamOk(Found(s, i, v), w)
  {
  }

  lemma FoundKeepsTeller(s: State, i: nat, v: nat, j: nat)
    requires Finds(s, i, v) && j < |s.actors| && TellerOk(s, i) && TellerOk(s, j)
    ensures TellerOk(Found(s, i, v), j)
  {
  }

  lemma CloseKeepsTeller(s: State, i: nat, j: nat)
    requires Inv(s) && InRange(s) && EventsOk(s) && Enabled(s, Close(i)) && j < |s.actors|
    ensures j < |ClosedBy(s, i).actors| && TellerOk(ClosedBy(s, i), j)
  {
    assert TellerOk(s, j) && ActorOk(s, j);
  }

  lemma LookKeepsEvents(s: State, i: nat)
    requires Inv(s) && InRange(s) && EventsOk(s) && Enabled(s, Look(i))
    ensures EventsOk(Looked(s, i))
  {
    var a := s.actors[i];
    if a.tab in s.registry {
      LookFindsOwn(s, i);
      LookIsFound(s, i);
      FoundKeepsEvents(s, i, s.registry[a.tab]);
    } else {
      MissKeepsEvents(s, i, if AlwaysTells(a.role) then Telling else Finished(false));
    }
  }

  lemma FoundKeepsEvents(s: State, i: nat, v: nat)
    requires EventsOk(s) && Finds(s, i, v)
    ensures EventsOk(Found(s, i, v))
  {
    forall w | 0 <= w < |s.sessions|
      ensures TeamOk(Found(s, i, v), w)
    {
      FoundKeepsTeam(s, i, v, w);
    }
    forall j | 0 <= j < |s.actors|
      ensures TellerOk(Found(s, i, v), j)
    {
      FoundKeepsTeller(s, i, v, j);
    }
  }

  lemma MissKeepsEvents(s: State, i: nat, phase: Phase)
    requires EventsOk(s) && Enabled(s, Look(i)) && Missed(s.actors[i], phase)
    ensures EventsOk(At(s, i, phase))
  {
    forall v | 0 <= v < |s.sessions|
      ensures TeamOk(At(s, i, phase), v)
    {
      MissKeepsTeam(s, i, phase, v);
    }
    forall j | 0 <= j < |s.actors|
      ensures TellerOk(At(s, i, phase), j)
    {
      MissKeepsTeller(s, i, phase, j);
    }
  }

  lemma CloseKeepsEvents(s: State, i: nat)
    requires Inv(s) && InRange(s) && EventsOk(s) && Enabled(s, Close(i))
    ensures EventsOk(ClosedBy(s, i))
  {
    var s' := ClosedBy(s, i);
    assert |s'.sessions| == |s.sessions| && |s'.actors| == |s.actors|;
    forall v | 0 <= v < |s.sessions|
      ensures TeamOk(s', v)
    {
      assert TeamOk(s, v);
    }
    forall j | 0 <= j < |s.actors|
      ensures TellerOk(s', j)
    {
      CloseKeepsTeller(s, i, j);
    }
  }

  lemma TellKeepsEvents(s: State, i: nat)
    requires EventsOk(s) && Enabled(s, Tell(i))
    ensures EventsOk(At(s, i, Finished(true)))
  {
    var s' := At(s, i, Finished(true));
    forall v | 0 <= v < |s.sessions|
      ensures TeamOk(s', v)
    {
      assert TeamOk(s, v);
    }
    forall j | 0 <= j < |s.actors|
      ensures TellerOk(s', j)
    {
      assert TellerOk(s, j);
    }
  }

  lemma OpenKeepsEvents(s: State, tab: string, kind: Kind)
    requires EventsOk(s)
    ensures EventsOk(Opened(s, tab, kind))
  {
    var s' := Opened(s, tab, kind);
    forall v | 0 <= v < |s'.sessions|
      ensures TeamOk(s', v)
    {
      if v < |s.sessions| {
        assert TeamOk(s, v);
      }
    }
    forall i | 0 <= i < |s'.actors|
      ensures TellerOk(s', i)
    {
      if i < |s.actors| {
        assert TellerOk(s, i);
      }
    }
  }

  lemma CallKeepsEvents(s: State, tab: string)
    requires EventsOk(s)
    ensures EventsOk(s.(actors := s.actors + [Actor(Closer, tab, 0, Running)]))
  {
    var s' := s.(actors := s.actors + [Actor(Closer, tab, 0, Running)]);
    forall v | 0 <= v < |s'.sessions|
      ensures TeamOk(s', v)
    {
      assert TeamOk(s, v);
    }
    forall i | 0 <= i < |s'.actors|
      ensures TellerOk(s', i)
    {
      if i < |s.actors| {
        assert TellerOk(s, i);
      }
    }
  }

  lemma StepKeepsEvents(s: State, step: Step)
    requires Inv(s) && InRange(s) && EventsOk(s) && Enabled(s, step)
    ensures EventsOk(Next(s, step))
  {
    match step {
      case Open(tab, kind) => OpenKeepsEvents(s, tab, kind);
      case CallClose(tab) => CallKeepsEvents(s, tab);
      case Look(i) => LookKeepsEvents(s, i);
      case Close(i) => CloseKeepsEvents(s, i);
      case Tell(i) => TellKeepsEvents(s, i);
    }
  }

  // ----- runs -----

  /** A run from the empty service, in which every step is enabled and tab ids are fresh. */
  ghost predicate Runs(steps: seq<Step>, s: State)
    decreases |steps|
  {
    if steps == [] then s == EMPTY
    else
      var init, last := steps[..|steps| - 1], steps[|steps| - 1];
      exists before :: Runs(init, before) && StepsTo(before, last, s)
  }

  ghost predicate StepsTo(before: State, step: Step, s: State) {
    Enabled(before, step) && InRange(before) && Fresh(before, step) && s == Next(before, step)
  }

  lemma {:induction false} ReachableIsOk(steps: seq<Step>, s: State)
    requires Runs(steps, s)
    ensures Inv(s) && InRange(s) && EventsOk(s)
    decreases |steps|
  {
    if steps != [] {
      var step := steps[|steps| - 1];
      var before :| Runs(steps[..|steps| - 1], before) && StepsTo(before, step, s);
      ReachableIsOk(steps[..|steps| - 1], before);
      StepKeepsInv(before, step);
      StepKeepsEvents(before, step);
    }
  }

  /** The goroutines of session v have all finished. */
  ghost predicate TeamFinished(s: State, v: nat)
    requires v < |s.sessions|
  {
    forall i | 0 <= i < |s.actors| && InTeam(s, i, v) :: s.actors[i].phase.Finished?
  }

  /** At every moment a session has been claimed at most once and closed at most once; and once its
      goroutines and the call that may have claimed it have finished, exactly once each. */
  lemma ClaimedAndClosedOnce(steps: seq<Step>, s: State, v: nat)
    requires Runs(steps, s) && v < |s.sessions|
    ensures s.sessions[v].closes <= s.sessions[v].claims <= 1
    ensures TeamFinished(s, v) ==> s.sessions[v].claims == 1 && s.sessions[v].claimer < |s.actors|
    ensures TeamFinished(s, v) && s.actors[s.sessions[v].claimer].phase.Finished? ==> s.sessions[v].closes == 1
  {
    ReachableIsOk(steps, s);
    assert SessionOk(s, v);
    assert InTeam(s, s.sessions[v].first, v);
  }

  function ToldBy(s: State, i: nat): nat {
    if i < |s.actors| && s.actors[i].phase == Finished(true) then 1 else 0
  }

  /** How many of the goroutines of session v have emitted pty:closed. */
  function ToldCount(s: State, v: nat): nat
    requires v < |s.sessions|
  {
    var x := s.sessions[v];
    ToldBy(s, x.first) + if x.kind.UnixPty? then 0 else ToldBy(s, x.first + 1)
  }

  predicate Remote(kind: Kind) {
    kind.Ssh? || kind.WinRm?
  }

  /** When its goroutines have finished, pty:closed has been emitted exactly once for the session; for SSH
      and WinRM, not at all if it was CloseTerminal that claimed it. */
  lemma ToldOnce(steps: seq<Step>, s: State, v: nat)
    requires Runs(steps, s) && v < |s.sessions| && TeamFinished(s, v)
    ensures var x := s.sessions[v];
            && x.claimer < |s.actors|
            && ToldCount(s, v) == if Remote(x.kind) && s.actors[x.claimer].role.Closer? then 0 else 1
  {
    ReachableIsOk(steps, s);
    ClaimedAndClosedOnce(steps, s, v);
    var x := s.sessions[v];
    assert TeamOk(s, v);
    assert InTeam(s, x.first, v) && (!x.kind.UnixPty? ==> InTeam(s, x.first + 1, v));
    if Remote(x.kind) {
      RemoteToldOnce(s, v);
    } else {
      LocalToldOnce(s, v);
    }
  }

  lemma LocalToldOnce(s: State, v: nat)
    requires v < |s.sessions| && !Remote(s.sessions[v].kind) && TeamOk(s, v)
    requires var i := s.sessions[v].first;
             && TellerOk(s, i) && s.actors[i].phase.Finished?
             && (s.sessions[v].kind.ConPty? ==> TellerOk(s, i + 1) && s.actors[i + 1].phase.Finished?)
    ensures ToldCount(s, v) == 1
  {
  }

  lemma RemoteToldOnce(s: State, v: nat)
    requires v < |s.sessions| && Remote(s.sessions[v].kind) && s.sessions[v].claims == 1
    requires var i := s.sessions[v].first;
             && TeamOk(s, v) && TellerOk(s, i) && TellerOk(s, i + 1) && TellerOk(s, s.sessions[v].claimer)
             && s.actors[i].phase.Finished? && s.actors[i + 1].phase.Finished?
    ensures ToldCount(s, v) == if s.actors[s.sessions[v].claimer].role.Closer? then 0 else 1
  {
  }
}
