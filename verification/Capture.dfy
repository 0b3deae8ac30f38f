/**
 The capture poller of services/capture/manager.go. Each tick updates which panes are tracked and emits
 the contents that changed. The manager is proved to be a set of independent automata, one per pane, and
 each automaton to be a function of the history of its pane.
 */
module Capture {
  import opened Options

  const MAX_MISSES := 3

  datatype PaneState = PaneState(lastHash: nat, missCount: nat)

  type Panes = map<string, PaneState>

  datatype Pane = Pane(id: string, degraded: bool)

  /** The result of capturing a pane; None is an error. */
  datatype Result = Result(pane: string, content: Option<string>)

  datatype Event = Tabs(ids: seq<string>) | Update(pane: string, content: string)

  // ----- one pane -----

  /** What a tick means for one pane: whether it was discovered, and the filtered contents captured. */
  datatype Seen = Seen(present: bool, contents: seq<string>)

  function Aged(state: Option<PaneState>, present: bool): Option<PaneState> {
    match state
    case None => if present then Some(PaneState(0, 0)) else None
    case Some(s) =>
      if present then Some(s.(missCount := 0))
      else if s.missCount + 1 >= MAX_MISSES then None
      else Some(s.(missCount := s.missCount + 1))
  }

  /** The contents of cs that differ in hash from the one before, the first from `last`; and the hash of the last. */
  function Dedup(hash: string -> nat, last: nat, cs: seq<string>): (seq<string>, nat) {
    if cs == [] then ([], last)
    else
      var (updates, before) := Dedup(hash, last, cs[..|cs| - 1]);
      var c := cs[|cs| - 1];
      if hash(c) != before then (updates + [c], hash(c)) else (updates, before)
  }

  function Recorded(hash: string -> nat, state: Option<PaneState>, cs: seq<string>): Option<PaneState> {
    match state
    case None => None
    case Some(s) => Some(s.(lastHash := Dedup(hash, s.lastHash, cs).1))
  }

  function Updates(hash: string -> nat, state: Option<PaneState>, cs: seq<string>): seq<string> {
    match state
    case None => []
    case Some(s) => Dedup(hash, s.lastHash, cs).0
  }

  // ----- all panes -----

  function Lookup(panes: Panes, id: string): Option<PaneState> {
    if id in panes then Some(panes[id]) else None
  }

  function AgedPanes(panes: Panes, current: set<string>): Panes {
    map id | id in panes.Keys + current && Aged(Lookup(panes, id), id in current).Some? ::
      Aged(Lookup(panes, id), id in current).value
  }

  function UpdateOne(hash: string -> nat, panes: Panes, pane: string, content: string): (Panes, seq<Event>) {
    if pane in panes && hash(content) != panes[pane].lastHash then
      (panes[pane := panes[pane].(lastHash := hash(content))], [Update(pane, content)])
    else (panes, [])
  }

  /** The content that is compared and emitted: filtered, or as captured if the filter fails. */
  function Filtered(pipeline: string -> Option<string>, content: string): string {
    match pipeline(content)
    case None => content
    case Some(filtered) => filtered
  }

  /** The first n results, in order. */
  function UpdateAll(hash: string -> nat, pipeline: string -> Option<string>, panes: Panes, results: seq<Result>,
                     n: nat): (Panes, seq<Event>)
    requires n <= |results|
  {
    if n == 0 then (panes, [])
    else
      var (before, events) := UpdateAll(hash, pipeline, panes, results, n - 1);
      match results[n - 1].content
      case None => (before, events)
      case Some(content) =>
        var (after, more) := UpdateOne(hash, before, results[n - 1].pane, Filtered(pipeline, content));
        (after, events + more)
  }

  function Ids(panes: seq<Pane>): seq<string> {
    seq(|panes|, i requires 0 <= i < |panes| => panes[i].id)
  }

  function IdSet(panes: seq<Pane>): set<string> {
    set p | p in panes :: p.id
  }

  /** The panes of the adapters that answered. */
  function Discovered(answers: seq<Option<seq<Pane>>>): seq<Pane> {
    if answers == [] then []
    else
      Discovered(answers[..|answers| - 1])
      + match answers[|answers| - 1] { case None => [] case Some(panes) => panes }
  }

  /** What a tick meets: the panes discovered, and the results of capturing those that are not degraded. */
  datatype Input = Input(all: seq<Pane>, results: seq<Result>)

  function Ticked(hash: string -> nat, pipeline: string -> Option<string>, panes: Panes, input: Input):
    (Panes, seq<Event>)
  {
    var aged := AgedPanes(panes, IdSet(input.all));
    var (after, updates) := UpdateAll(hash, pipeline, aged, input.results, |input.results|);
    (after, (if aged.Keys != panes.Keys then [Tabs(Ids(input.all))] else []) + updates)
  }

  class CaptureManager {
    const hash: string -> nat
    const pipeline: string -> Option<string>
    var panes: Panes

    constructor (hash: string -> nat, pipeline: string -> Option<string>)
      ensures this.hash == hash && this.pipeline == pipeline && panes == map[]
    {
      this.hash, this.pipeline, panes := hash, pipeline, map[];
    }

    /** New panes are tracked. The order in which a map is walked does not matter. */
    method TrackNew(current: set<string>) returns (changed: bool)
      modifies this
      ensures forall id | id in old(panes) :: id in panes && panes[id] == old(panes)[id]
      ensures forall id | id in panes && id !in old(panes) :: id in current && panes[id] == PaneState(0, 0)
      ensures forall id | id in current :: id in panes
      ensures changed <==> exists id :: id in panes && id !in old(panes)
    {
      changed := false;
      var todo := current;
      while todo != {}
        invariant todo <= current
        invariant forall id | id in current && id !in todo :: id in panes
        invariant forall id | id in old(panes) :: id in panes && panes[id] == old(panes)[id]
        invariant forall id | id in panes && id !in old(panes) :: id in current && panes[id] == PaneState(0, 0)
        invariant changed <==> exists id :: id in panes && id !in old(panes)
        decreases |todo|
      {
        var id :| id in todo;
        todo := todo - {id};
        if id !in panes {
          panes := panes[id := PaneState(0, 0)];
          changed := true;
          assert id in panes && id !in old(panes);
        }
      }
    }

    /** Panes that were missed age, and go after three misses in a row. */
    method CountMisses(current: set<string>) returns (changed: bool)
      modifies this
      ensures forall id | id in old(panes) :: Lookup(panes, id) == Aged(Some(old(panes)[id]), id in current)
      ensures forall id | id in panes :: id in old(panes)
      ensures changed <==> exists id :: id in old(panes) && id !in panes
    {
      changed := false;
      var left := panes.Keys;
      while left != {}
        invariant forall id | id in left :: id in panes && id in old(panes) && panes[id] == old(panes)[id]
        invariant forall id | id in panes :: id in old(panes)
        invariant forall id | id in old(panes) && id !in left ::
                    Lookup(panes, id) == Aged(Some(old(panes)[id]), id in current)
        invariant changed <==> exists id :: id in old(panes) && id !in panes
        decreases |left|
      {
        var id :| id in left;
        left := left - {id};
        var state := panes[id];
        if id !in current {
          state := state.(missCount := state.missCount + 1);
          if state.missCount >= 3 {
            panes := panes - {id};
            changed := true;
            assert id in old(panes) && id !in panes;
          } else {
            panes := panes[id := state];
          }
        } else {
          panes := panes[id := state.(missCount := 0)];
        }
      }
    }

    method UpdateMembership(current: set<string>) returns (changed: bool)
      modifies this
      ensures panes == AgedPanes(old(panes), current)
      ensures changed <==> panes.Keys != old(panes).Keys
    {
      var added := TrackNew(current);
      ghost var joined := panes;
      var removed := CountMisses(current);
      changed := added || removed;
      forall id: string
        ensures Lookup(panes, id) == Aged(Lookup(old(panes), id), id in current)
      {
      }
      AgedByLookup(old(panes), panes, current);
      if added {
        ghost var id :| id in joined && id !in old(panes);
        assert id in panes;
      }
    }

    /** The last part of a tick, on the results in the order in which they came. */
    method EmitUpdates(results: seq<Result>) returns (events: seq<Event>)
      modifies this
      ensures (panes, events) == UpdateAll(hash, pipeline, old(panes), results, |results|)
    {
      events := [];
      for i := 0 to |results|
        invariant (panes, events) == UpdateAll(hash, pipeline, old(panes), results, i)
      {
        var r := results[i];
        assert events + [] == events;
        if r.content.None? {
          continue;
        }
        if r.pane !in panes {
          continue;
        }
        var content := r.content.value;
        var filtered := pipeline(content);
        if filtered.Some? {
          content := filtered.value;
        }
        var h := hash(content);
        if h != panes[r.pane].lastHash {
          panes := panes[r.pane := panes[r.pane].(lastHash := h)];
          events := events + [Update(r.pane, content)];
        }
      }
    }

    /** One tick: what the adapters answer, and the results of capturing the panes that are not degraded. */
    method Tick(answers: seq<Option<seq<Pane>>>, results: seq<Result>) returns (events: seq<Event>)
      modifies this
      ensures (panes, events) == Ticked(hash, pipeline, old(panes), Input(Discovered(answers), results))
    {
      var allPanes := Discover(answers);
      var membershipChanged := UpdateMembership(set p | p in allPanes :: p.id);
      events := [];
      if membershipChanged {
        var ids := TabIds(allPanes);
        events := [Tabs(ids)];
      }
      var updates := EmitUpdates(results);
      events := events + updates;
    }
  }

  method Discover(answers: seq<Option<seq<Pane>>>) returns (allPanes: seq<Pane>)
    ensures allPanes == Discovered(answers)
  {
    allPanes := [];
    for i := 0 to |answers|
      invariant allPanes == Discovered(answers[..i])
    {
      assert answers[..i + 1][..i] == answers[..i];
      if answers[i].Some? {
        allPanes := allPanes + answers[i].value;
      }
    }
    assert answers[..|answers|] == answers;
  }

  method TabIds(panes: seq<Pane>) returns (tabs: seq<string>)
    ensures tabs == Ids(panes)
  {
    tabs := [];
    for i := 0 to |panes|
      invariant tabs == Ids(panes)[..i]
    {
      tabs := tabs + [panes[i].id];
    }
  }

  lemma AgedByLookup(panes: Panes, panes': Panes, current: set<string>)
    requires forall id: string :: Lookup(panes', id) == Aged(Lookup(panes, id), id in current)
    ensures panes' == AgedPanes(panes, current)
  {
    forall id: string
      ensures Lookup(AgedPanes(panes, current), id) == Lookup(panes', id)
    {
    }
    assert forall id: string :: id in panes' <==> Lookup(panes', id).Some?;
  }

  // ----- what is discovered and what is shown -----

  /** The adapters are asked one after the other. */
  lemma {:induction false} DiscoveredInOrder(a: seq<Option<seq<Pane>>>, b: seq<Option<seq<Pane>>>)
    ensures Discovered(a + b) == Discovered(a) + Discovered(b)
  {
    if b == [] {
      assert a + b == a;
    } else {
      assert (a + b)[..|a + b| - 1] == a + b[..|b| - 1];
      DiscoveredInOrder(a, b[..|b| - 1]);
    }
  }

  /** One that answers adds its panes, and one that fails adds nothing. */
  lemma DiscoveredOne(panes: seq<Pane>)
    ensures Discovered([Some(panes)]) == panes && Discovered([None]) == []
  {
    assert [Some(panes)][..0] == [];
  }

  /** What an update shows: the filtered content, or the captured one where the filter fails. */
  ghost predicate ShowsFiltered(pipeline: string -> Option<string>, results: seq<Result>, e: Event)
    requires e.Update?
  {
    exists k | 0 <= k < |results| ::
      && results[k].pane == e.pane && results[k].content.Some?
      && match pipeline(results[k].content.value) {
           case Some(filtered) => e.content == filtered
           case None => e.content == results[k].content.value
         }
  }

  /** Every update of a tick shows a content captured in it, filtered unless the filter fails. */
  lemma {:induction false} UpdatesShowFiltered(hash: string -> nat, pipeline: string -> Option<string>, panes: Panes,
                                               results: seq<Result>, n: nat)
    requires n <= |results|
    ensures forall e | e in UpdateAll(hash, pipeline, panes, results, n).1 ::
              e.Update? && ShowsFiltered(pipeline, results, e)
  {
    if n > 0 {
      UpdatesShowFiltered(hash, pipeline, panes, results, n - 1);
    }
  }

  /** The tabs announced are those discovered, each id at its place. */
  lemma TabsAreTheDiscovered(hash: string -> nat, pipeline: string -> Option<string>, panes: Panes, input: Input,
                             e: Event)
    requires e in Ticked(hash, pipeline, panes, input).1 && e.Tabs?
    ensures |e.ids| == |input.all| && forall i | 0 <= i < |e.ids| :: e.ids[i] == input.all[i].id
  {
    var aged := AgedPanes(panes, IdSet(input.all));
    UpdatesShowFiltered(hash, pipeline, aged, input.results, |input.results|);
  }
}
