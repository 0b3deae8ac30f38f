/** What the capture poller of services/capture/manager.go has done after any sequence of ticks. */
module CaptureHistory {
  import opened Options
  import opened Capture

  // ----- every pane on its own -----

  function ContentsOf(pipeline: string -> Option<string>, results: seq<Result>, n: nat, id: string): seq<string>
    requires n <= |results|
  {
    if n == 0 then []
    else
      var before := ContentsOf(pipeline, results, n - 1, id);
      if results[n - 1].pane == id && results[n - 1].content.Some?
      then before + [Filtered(pipeline, results[n - 1].content.value)] else before
  }

  function UpdatesOf(events: seq<Event>, id: string): seq<string> {
    if events == [] then []
    else
      var last := events[|events| - 1];
      UpdatesOf(events[..|events| - 1], id) + if last.Update? && last.pane == id then [last.content] else []
  }

  lemma {:induction false} UpdatesOfConcat(a: seq<Event>, b: seq<Event>, id: string)
    ensures UpdatesOf(a + b, id) == UpdatesOf(a, id) + UpdatesOf(b, id)
  {
    if b == [] {
      assert a + b == a;
    } else {
      assert (a + b)[..|a + b| - 1] == a + b[..|b| - 1];
      UpdatesOfConcat(a, b[..|b| - 1], id);
    }
  }

  /** What `after` and `events` hold of one pane is what the contents cs make of its state. */
  ghost predicate ByPane(hash: string -> nat, panes: Panes, after: Panes, events: seq<Event>, cs: seq<string>,
                         id: string)
  {
    && Lookup(after, id) == Recorded(hash, Lookup(panes, id), cs)
    && UpdatesOf(events, id) == Updates(hash, Lookup(panes, id), cs)
    && after.Keys == panes.Keys
  }

  lemma {:induction false} UpdateAllByPane(hash: string -> nat, pipeline: string -> Option<string>, panes: Panes,
                                           results: seq<Result>, n: nat, id: string)
    requires n <= |results|
    ensures var (after, events) := UpdateAll(hash, pipeline, panes, results, n);
            ByPane(hash, panes, after, events, ContentsOf(pipeline, results, n, id), id)
  {
    if n > 0 {
      UpdateAllByPane(hash, pipeline, panes, results, n - 1, id);
      var r := results[n - 1];
      if r.content.Some? {
        var (before, events) := UpdateAll(hash, pipeline, panes, results, n - 1);
        var cs := ContentsOf(pipeline, results, n - 1, id);
        NextByPane(hash, panes, before, events, cs, id, r.pane, Filtered(pipeline, r.content.value));
      }
    }
  }

  lemma NextByPane(hash: string -> nat, panes: Panes, before: Panes, events: seq<Event>, cs: seq<string>, id: string,
                   pane: string, content: string)
    requires ByPane(hash, panes, before, events, cs, id)
    ensures var (after, more) := UpdateOne(hash, before, pane, content);
            ByPane(hash, panes, after, events + more, if pane == id then cs + [content] else cs, id)
  {
    UpdatesOfConcat(events, UpdateOne(hash, before, pane, content).1, id);
    UpdateOneByPane(hash, before, pane, content, id);
    if pane == id {
      OneContentMore(hash, Lookup(panes, id), cs, content);
    }
  }

  /** Contents can be recorded in two goes. */
  lemma OneContentMore(hash: string -> nat, state: Option<PaneState>, cs: seq<string>, content: string)
    ensures var middle := Recorded(hash, state, cs);
            && Recorded(hash, state, cs + [content]) == Recorded(hash, middle, [content])
            && Updates(hash, state, cs + [content]) == Updates(hash, state, cs) + Updates(hash, middle, [content])
  {
    assert (cs + [content])[..|cs|] == cs && [content][..0] == [];
    if state.Some? {
      var last := Dedup(hash, state.value.lastHash, cs).1;
      assert Dedup(hash, last, []) == ([], last);
      var updates := Updates(hash, state, cs);
      assert updates + [] == updates;
    }
  }

  lemma UpdateOneByPane(hash: string -> nat, panes: Panes, pane: string, content: string, id: string)
    ensures var (after, events) := UpdateOne(hash, panes, pane, content);
            && (pane != id ==> Lookup(after, id) == Lookup(panes, id) && UpdatesOf(events, id) == [])
            && (pane == id ==>
                  && Lookup(after, id) == Recorded(hash, Lookup(panes, id), [content])
                  && UpdatesOf(events, id) == Updates(hash, Lookup(panes, id), [content]))
            && after.Keys == panes.Keys
  {
    var events := UpdateOne(hash, panes, pane, content).1;
    if events != [] {
      assert events[..0] == [];
    }
    if pane == id && pane in panes {
      assert [content][..0] == [];
      assert Dedup(hash, panes[id].lastHash, []) == ([], panes[id].lastHash);
    }
  }

  // ----- a pane's automaton and its history -----

  function PaneStep(hash: string -> nat, state: Option<PaneState>, seen: Seen): Option<PaneState> {
    Recorded(hash, Aged(state, seen.present), seen.contents)
  }

  function PaneRun(hash: string -> nat, history: seq<Seen>): Option<PaneState> {
    if history == [] then None else PaneStep(hash, PaneRun(hash, history[..|history| - 1]), history[|history| - 1])
  }

  function StepUpdates(hash: string -> nat, state: Option<PaneState>, seen: Seen): seq<string> {
    Updates(hash, Aged(state, seen.present), seen.contents)
  }

  function PaneUpdates(hash: string -> nat, history: seq<Seen>): seq<string> {
    if history == [] then []
    else
      var init := history[..|history| - 1];
      PaneUpdates(hash, init) + StepUpdates(hash, PaneRun(hash, init), history[|history| - 1])
  }

  function SeenIn(pipeline: string -> Option<string>, input: Input, id: string): Seen {
    Seen(id in IdSet(input.all), ContentsOf(pipeline, input.results, |input.results|, id))
  }

  function History(pipeline: string -> Option<string>, inputs: seq<Input>, id: string): seq<Seen> {
    seq(|inputs|, k requires 0 <= k < |inputs| => SeenIn(pipeline, inputs[k], id))
  }

  /** The panes tracked and all events emitted after a sequence of ticks. */
  function TickAll(hash: string -> nat, pipeline: string -> Option<string>, inputs: seq<Input>): (Panes, seq<Event>) {
    if inputs == [] then (map[], [])
    else
      var (panes, events) := TickAll(hash, pipeline, inputs[..|inputs| - 1]);
      var (after, more) := Ticked(hash, pipeline, panes, inputs[|inputs| - 1]);
      (after, events + more)
  }

  lemma TickByPane(hash: string -> nat, pipeline: string -> Option<string>, panes: Panes, input: Input, id: string)
    ensures var (after, events) := Ticked(hash, pipeline, panes, input);
            && Lookup(after, id) == PaneStep(hash, Lookup(panes, id), SeenIn(pipeline, input, id))
            && UpdatesOf(events, id) == StepUpdates(hash, Lookup(panes, id), SeenIn(pipeline, input, id))
  {
    var current := IdSet(input.all);
    var aged := AgedPanes(panes, current);
    assert Lookup(aged, id) == Aged(Lookup(panes, id), id in current);
    UpdateAllByPane(hash, pipeline, aged, input.results, |input.results|, id);
    var tabs := if aged.Keys != panes.Keys then [Tabs(Ids(input.all))] else [];
    assert UpdatesOf(tabs, id) == [];
    UpdatesOfConcat(tabs, UpdateAll(hash, pipeline, aged, input.results, |input.results|).1, id);
  }

  /** The manager is one automaton per pane: what it holds and what it emits for a pane depend on that
      pane's history alone. */
  lemma {:induction false} PanesAreIndependent(hash: string -> nat, pipeline: string -> Option<string>,
                                               inputs: seq<Input>, id: string)
    ensures var (panes, events) := TickAll(hash, pipeline, inputs);
            var history := History(pipeline, inputs, id);
            && Lookup(panes, id) == PaneRun(hash, history)
            && UpdatesOf(events, id) == PaneUpdates(hash, history)
  {
    if inputs != [] {
      var init, last := inputs[..|inputs| - 1], inputs[|inputs| - 1];
      PanesAreIndependent(hash, pipeline, init, id);
      var (panes, events) := TickAll(hash, pipeline, init);
      TickByPane(hash, pipeline, panes, last, id);
      UpdatesOfConcat(events, Ticked(hash, pipeline, panes, last).1, id);
      var history := History(pipeline, inputs, id);
      assert history[..|history| - 1] == History(pipeline, init, id);
    }
  }

  /** A tick announces the tabs exactly when the set of tracked panes changes, and then once, first. */
  lemma TabsIffMembershipChanges(hash: string -> nat, pipeline: string -> Option<string>, panes: Panes, input: Input)
    ensures var (after, events) := Ticked(hash, pipeline, panes, input);
            && (after.Keys != panes.Keys <==> events != [] && events[0].Tabs?)
            && forall i | 1 <= i < |events| :: events[i].Update?
  {
    var aged := AgedPanes(panes, IdSet(input.all));
    UpdateAllByPane(hash, pipeline, aged, input.results, |input.results|, "");
    OnlyUpdates(hash, pipeline, aged, input.results, |input.results|);
    var updates := UpdateAll(hash, pipeline, aged, input.results, |input.results|).1;
    assert forall i | 0 <= i < |updates| :: updates[i] in updates;
  }

  lemma {:induction false} OnlyUpdates(hash: string -> nat, pipeline: string -> Option<string>, panes: Panes,
                                       results: seq<Result>, n: nat)
    requires n <= |results|
    ensures forall e | e in UpdateAll(hash, pipeline, panes, results, n).1 :: e.Update?
  {
    if n > 0 {
      OnlyUpdates(hash, pipeline, panes, results, n - 1);
    }
  }

  // ----- tracking -----

  predicate SeenAt(history: seq<Seen>, k: int) {
    0 <= k < |history| && history[k].present
  }

  predicate EverSeen(history: seq<Seen>) {
    exists k | 0 <= k < |history| :: history[k].present
  }

  /** Ticks since the pane was last discovered. */
  function SinceSeen(history: seq<Seen>): nat {
    if history == [] || history[|history| - 1].present then 0 else 1 + SinceSeen(history[..|history| - 1])
  }

  lemma {:induction false} TrackedIffSeenLately(hash: string -> nat, history: seq<Seen>)
    ensures PaneRun(hash, history).Some? <==> EverSeen(history) && SinceSeen(history) < MAX_MISSES
    ensures PaneRun(hash, history).Some? ==> PaneRun(hash, history).value.missCount == SinceSeen(history)
  {
    if history != [] {
      var init := history[..|history| - 1];
      TrackedIffSeenLately(hash, init);
      if !history[|history| - 1].present {
        assert EverSeen(history) <==> EverSeen(init) by {
          if EverSeen(history) {
            var k :| 0 <= k < |history| && history[k].present;
            assert init[k].present;
          }
          if EverSeen(init) {
            var k :| 0 <= k < |init| && init[k].present;
            assert history[k].present;
          }
        }
      }
    }
  }

  lemma {:induction false} SinceSeenCounts(history: seq<Seen>, n: nat)
    ensures EverSeen(history) && SinceSeen(history) < n <==>
            exists k | |history| - n <= k < |history| :: SeenAt(history, k)
    decreases n
  {
    if history != [] && n > 0 && !history[|history| - 1].present {
      var init := history[..|history| - 1];
      SinceSeenCounts(init, n - 1);
      forall k: int
        ensures SeenAt(init, k) <==> SeenAt(history, k)
      {
      }
      assert EverSeen(history) <==> EverSeen(init);
    } else if history != [] && n > 0 {
      assert SeenAt(history, |history| - 1);
    }
  }

  /** A pane is tracked after any ticks if and only if one of the last three discovered it, and its miss
      count is the number of ticks since. */
  lemma TrackedInLastThree(hash: string -> nat, pipeline: string -> Option<string>, inputs: seq<Input>, id: string)
    ensures var panes := TickAll(hash, pipeline, inputs).0;
            var history := History(pipeline, inputs, id);
            && (id in panes <==> exists k | |history| - 3 <= k < |history| :: SeenAt(history, k))
            && (id in panes ==> panes[id].missCount == SinceSeen(history))
  {
    var history := History(pipeline, inputs, id);
    PanesAreIndependent(hash, pipeline, inputs, id);
    TrackedIffSeenLately(hash, history);
    SinceSeenCounts(history, 3);
  }

  // ----- contents -----

  lemma {:induction false} DedupConcat(hash: string -> nat, last: nat, a: seq<string>, b: seq<string>)
    ensures var (updates, middle) := Dedup(hash, last, a);
            var (more, end) := Dedup(hash, middle, b);
            Dedup(hash, last, a + b) == (updates + more, end)
  {
    if b == [] {
      assert a + b == a;
      assert Dedup(hash, last, a).0 + [] == Dedup(hash, last, a).0;
    } else {
      var init, c := b[..|b| - 1], b[|b| - 1];
      assert (a + b)[..|a + b| - 1] == a + init && (a + b)[|a + b| - 1] == c;
      DedupConcat(hash, last, a, init);
      var (updates, middle) := Dedup(hash, last, a);
      assert updates + (Dedup(hash, middle, init).0 + [c]) == updates + Dedup(hash, middle, init).0 + [c];
    }
  }

  /** The contents captured, and the updates emitted, since the pane was last tracked anew. */
  function Lifetime(hash: string -> nat, history: seq<Seen>): seq<string> {
    if PaneRun(hash, history).None? || history == [] then []
    else Lifetime(hash, history[..|history| - 1]) + history[|history| - 1].contents
  }

  function LifetimeUpdates(hash: string -> nat, history: seq<Seen>): seq<string> {
    if PaneRun(hash, history).None? || history == [] then []
    else
      var init := history[..|history| - 1];
      LifetimeUpdates(hash, init) + StepUpdates(hash, PaneRun(hash, init), history[|history| - 1])
  }

  /** Over a lifetime, emitting is one deduplication of all that was captured. */
  lemma {:induction false} LifetimeIsOneDedup(hash: string -> nat, history: seq<Seen>)
    ensures var state := PaneRun(hash, history);
            Dedup(hash, 0, Lifetime(hash, history)) ==
            (LifetimeUpdates(hash, history), if state.Some? then state.value.lastHash else 0)
  {
    if history != [] && PaneRun(hash, history).Some? {
      var init, last := history[..|history| - 1], history[|history| - 1];
      LifetimeIsOneDedup(hash, init);
      DedupConcat(hash, 0, Lifetime(hash, init), last.contents);
    }
  }

  /** The updates of a lifetime are the last ones emitted for the pane. */
  lemma {:induction false} LifetimeIsLast(hash: string -> nat, history: seq<Seen>)
    requires PaneRun(hash, history).Some?
    ensures exists before :: PaneUpdates(hash, history) == before + LifetimeUpdates(hash, history)
  {
    var init, last := history[..|history| - 1], history[|history| - 1];
    var now := StepUpdates(hash, PaneRun(hash, init), last);
    if PaneRun(hash, init).Some? {
      LifetimeIsLast(hash, init);
      var before :| PaneUpdates(hash, init) == before + LifetimeUpdates(hash, init);
      assert LifetimeUpdates(hash, history) == LifetimeUpdates(hash, init) + now;
      assert before + LifetimeUpdates(hash, init) + now == before + (LifetimeUpdates(hash, init) + now);
      assert PaneUpdates(hash, history) == before + LifetimeUpdates(hash, history);
    } else {
      assert LifetimeUpdates(hash, init) == [];
      assert PaneUpdates(hash, history) == PaneUpdates(hash, init) + LifetimeUpdates(hash, history);
    }
  }

  lemma {:induction false} HashOfLatest(hash: string -> nat, cs: seq<string>)
    requires cs != []
    ensures Dedup(hash, 0, cs).1 == hash(cs[|cs| - 1])
  {
  }

  /** No two consecutive updates of a lifetime are equal, whatever the hash. */
  lemma {:induction false} NoUpdateTwice(hash: string -> nat, last: nat, cs: seq<string>)
    ensures var (updates, end) := Dedup(hash, last, cs);
            && (forall i | 0 < i < |updates| :: updates[i - 1] != updates[i])
            && (updates != [] ==> hash(updates[|updates| - 1]) == end)
  {
    if cs != [] {
      NoUpdateTwice(hash, last, cs[..|cs| - 1]);
    }
  }

  predicate Shows(updates: seq<string>, content: string) {
    updates != [] && updates[|updates| - 1] == content
  }

  /** The hash tells the first content from nothing and every content from the one before. */
  ghost predicate Tells(hash: string -> nat, cs: seq<string>) {
    && (cs != [] ==> hash(cs[0]) != 0)
    && forall i | 0 < i < |cs| :: cs[i - 1] != cs[i] ==> hash(cs[i - 1]) != hash(cs[i])
  }

  /** The last update shows the latest content. */
  predicate Current(hash: string -> nat, cs: seq<string>, k: nat)
    requires 0 < k <= |cs|
  {
    Shows(Dedup(hash, 0, cs[..k]).0, cs[k - 1])
  }

  lemma DedupNext(hash: string -> nat, cs: seq<string>, k: nat)
    requires 0 < k < |cs|
    ensures var updates := Dedup(hash, 0, cs[..k]).0;
            Dedup(hash, 0, cs[..k + 1]).0 ==
            if hash(cs[k]) != hash(cs[k - 1]) then updates + [cs[k]] else updates
  {
    assert cs[..k + 1][..k] == cs[..k];
    HashOfLatest(hash, cs[..k]);
  }

  lemma FirstShown(hash: string -> nat, cs: seq<string>)
    requires cs != []
    ensures Current(hash, cs, 1) <==> hash(cs[0]) != 0
  {
    assert cs[..1] == [cs[0]] && cs[..1][..0] == [];
    assert Dedup(hash, 0, cs[..1][..0]) == ([], 0);
  }

  lemma {:induction false} CurrentWhileTold(hash: string -> nat, cs: seq<string>, k: nat)
    requires Tells(hash, cs) && 0 < k <= |cs|
    ensures Current(hash, cs, k)
  {
    if k == 1 {
      FirstShown(hash, cs);
    } else {
      CurrentWhileTold(hash, cs, k - 1);
      DedupNext(hash, cs, k - 1);
    }
  }

  /** Replaying the updates shows the latest content at every moment of a lifetime if and only if the hash
      of the first content is not the initial zero and no content collides with the one before it. */
  lemma AlwaysCurrentIff(hash: string -> nat, cs: seq<string>)
    ensures (forall k | 0 < k <= |cs| :: Current(hash, cs, k)) <==> Tells(hash, cs)
  {
    if Tells(hash, cs) {
      forall k | 0 < k <= |cs|
        ensures Current(hash, cs, k)
      {
        CurrentWhileTold(hash, cs, k);
      }
    }
    if forall k | 0 < k <= |cs| :: Current(hash, cs, k) {
      if cs != [] {
        FirstShown(hash, cs);
      }
      forall i | 0 < i < |cs| && cs[i - 1] != cs[i]
        ensures hash(cs[i - 1]) != hash(cs[i])
      {
        DedupNext(hash, cs, i);
        assert Current(hash, cs, i) && Current(hash, cs, i + 1);
      }
    }
  }

  /** After any ticks, the last update emitted for a tracked pane is its latest captured content, if the
      hash tells its contents apart. */
  lemma ScreenIsCurrent(hash: string -> nat, pipeline: string -> Option<string>, inputs: seq<Input>, id: string)
    requires id in TickAll(hash, pipeline, inputs).0
    requires Tells(hash, Lifetime(hash, History(pipeline, inputs, id)))
    ensures var captured := Lifetime(hash, History(pipeline, inputs, id));
            captured != [] ==> Shows(UpdatesOf(TickAll(hash, pipeline, inputs).1, id), captured[|captured| - 1])
  {
    var history := History(pipeline, inputs, id);
    var captured := Lifetime(hash, history);
    PanesAreIndependent(hash, pipeline, inputs, id);
    LifetimeIsOneDedup(hash, history);
    LifetimeIsLast(hash, history);
    if captured != [] {
      CurrentWhileTold(hash, captured, |captured|);
      assert captured[..|captured|] == captured;
    }
  }
}
