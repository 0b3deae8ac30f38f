/**
 From the provider to the chat pane: the goroutine of services/llm_service.go, the event channel, the
 hook of frontend/src/hooks/useLLMStream.ts and the store of frontend/src/stores/chatStore.ts in one
 statement, and what happens when a stream ends without an event.
 */
module Streaming {
  import opened Options
  import opened StreamBackend
  import opened Chat

  /** A delivery of a chunk event. */
  type Delivery = (nat, string)

  function ArriveAll(v: View, ds: seq<Delivery>): View {
    if ds == [] then v
    else Arrive(ArriveAll(v, ds[..|ds| - 1]), ds[|ds| - 1].0, ds[|ds| - 1].1)
  }

  lemma ArriveOneMore(v: View, ds: seq<Delivery>, d: Delivery)
    ensures ArriveAll(v, ds + [d]) == Arrive(ArriveAll(v, ds), d.0, d.1)
  {
    assert (ds + [d])[..|ds|] == ds;
  }

  lemma {:induction false} ArriveInTwo(v: View, a: seq<Delivery>, b: seq<Delivery>)
    ensures ArriveAll(v, a + b) == ArriveAll(ArriveAll(v, a), b)
  {
    if b == [] {
      assert a + b == a;
    } else {
      var init, last := b[..|b| - 1], b[|b| - 1];
      assert a + b == (a + init) + [last];
      ArriveInTwo(v, a, init);
      ArriveOneMore(v, a + init, last);
    }
  }

  /** Every delivery is one of the chunks; any order, any repetition, any omission. */
  ghost predicate Faithful(ds: seq<Delivery>, texts: seq<string>) {
    forall d | d in ds :: d.0 < |texts| && d.1 == texts[d.0]
  }

  /** The same of the deliveries numbered n or more. */
  ghost predicate FaithfulFrom(ds: seq<Delivery>, texts: seq<string>, n: nat) {
    forall d | d in ds && d.0 >= n :: d.0 < |texts| && d.1 == texts[d.0]
  }

  predicate Delivered(ds: seq<Delivery>, k: nat) {
    exists d | d in ds :: d.0 == k
  }

  /** A response of which every chunk arrives. */
  ghost predicate Whole(ds: seq<Delivery>, texts: seq<string>) {
    Faithful(ds, texts) && forall k: nat | k < |texts| :: Delivered(ds, k)
  }

  /** What the message shows when the first n chunks have been applied. */
  function ShownFor(texts: seq<string>, n: nat): Shown
    requires n <= |texts|
  {
    if n == 0 then Nothing else Streaming(Join(texts[..n]) + [CURSOR])
  }

  /** The first n chunks are applied and later ones that have arrived wait. What is kept below the place
      does not matter. */
  ghost predicate Consistent(v: View, texts: seq<string>, got: set<nat>) {
    && v.nextSeq <= |texts| && v.shown == ShownFor(texts, v.nextSeq)
    && (forall k | k in v.pending && k >= v.nextSeq :: k in got && k < |texts| && v.pending[k] == texts[k])
    && (forall k: nat | k < v.nextSeq :: k in got)
    && (forall k | k in got && k >= v.nextSeq :: k in v.pending)
  }

  /** What a delivery leaves. */
  ghost predicate Settled(v: View, texts: seq<string>, got: set<nat>) {
    Consistent(v, texts, got) && v.nextSeq !in got
  }

  /** Stripping the mark and adding text and mark appends the text, marks inside it included. */
  lemma AppendNext(texts: seq<string>, n: nat)
    requires n < |texts|
    ensures Append(ShownFor(texts, n), texts[n]) == ShownFor(texts, n + 1)
  {
    assert texts[..n + 1][..n] == texts[..n];
    if n > 0 {
      var shown := Join(texts[..n]);
      assert (shown + [CURSOR])[..|shown + [CURSOR]| - 1] == shown;
    }
  }

  lemma {:induction false} DrainIsConsistent(v: View, texts: seq<string>, got: set<nat>)
    requires Consistent(v, texts, got)
    ensures Settled(Drain(v), texts, got)
    decreases |v.pending|
  {
    if v.nextSeq in v.pending {
      AppendNext(texts, v.nextSeq);
      DrainIsConsistent(DrainOne(v), texts, got);
    }
  }

  function Numbers(ds: seq<Delivery>): set<nat> {
    set d | d in ds :: d.0
  }

  lemma {:induction false} ArrivalsAreConsistent(v: View, ds: seq<Delivery>, texts: seq<string>, got: set<nat>)
    requires Settled(v, texts, got) && FaithfulFrom(ds, texts, v.nextSeq)
    ensures Settled(ArriveAll(v, ds), texts, got + Numbers(ds))
  {
    if ds == [] {
      assert got + Numbers(ds) == got;
    } else {
      var init, last := ds[..|ds| - 1], ds[|ds| - 1];
      assert ds == init + [last];
      ArrivalsAreConsistent(v, init, texts, got);
      assert got + Numbers(ds) == got + Numbers(init) + {last.0};
      OneArrival(ArriveAll(v, init), texts, got + Numbers(init), last);
    }
  }

  lemma OneArrival(v: View, texts: seq<string>, got: set<nat>, d: Delivery)
    requires Settled(v, texts, got)
    requires d.0 >= v.nextSeq ==> d.0 < |texts| && d.1 == texts[d.0]
    ensures Settled(Arrive(v, d.0, d.1), texts, got + {d.0})
  {
    if d.0 == v.nextSeq {
      ArriveAtPlace(v, texts, got);
    } else {
      KeptIsConsistent(v, texts, got, d);
    }
  }

  lemma ArriveAtPlace(v: View, texts: seq<string>, got: set<nat>)
    requires Settled(v, texts, got) && v.nextSeq < |texts|
    ensures Settled(Arrive(v, v.nextSeq, texts[v.nextSeq]), texts, got + {v.nextSeq})
  {
    AppliedIsConsistent(v, texts, got);
    DrainIsConsistent(Applied(v, texts[v.nextSeq]), texts, got + {v.nextSeq});
  }

  lemma AppliedIsConsistent(v: View, texts: seq<string>, got: set<nat>)
    requires Consistent(v, texts, got) && v.nextSeq < |texts|
    ensures Consistent(Applied(v, texts[v.nextSeq]), texts, got + {v.nextSeq})
  {
    AppendNext(texts, v.nextSeq);
  }

  lemma KeptIsConsistent(v: View, texts: seq<string>, got: set<nat>, d: Delivery)
    requires Settled(v, texts, got) && d.0 != v.nextSeq
    requires d.0 > v.nextSeq ==> d.0 < |texts| && d.1 == texts[d.0]
    ensures Settled(v.(pending := v.pending[d.0 := d.1]), texts, got + {d.0})
  {
  }

  lemma NumbersAreDelivered(ds: seq<Delivery>, k: nat)
    ensures k in Numbers(ds) <==> Delivered(ds, k)
  {
  }

  /** At every moment the message shows, before its mark, exactly the chunks before the first one that
      has not arrived. */
  lemma AlwaysTheArrivedPrefix(ds: seq<Delivery>, texts: seq<string>)
    requires Faithful(ds, texts)
    ensures var v := ArriveAll(AT_REST, ds);
            && v.nextSeq <= |texts| && v.shown == ShownFor(texts, v.nextSeq) && v.nextSeq !in v.pending
            && !Delivered(ds, v.nextSeq) && forall k: nat | k < v.nextSeq :: Delivered(ds, k)
  {
    ArrivalsAreConsistent(AT_REST, ds, texts, {});
    forall k: nat
      ensures k in Numbers(ds) <==> Delivered(ds, k)
    {
      NumbersAreDelivered(ds, k);
    }
  }

  /** The content left by the done event. */
  function FinalContent(v: View): string {
    match Drain(v).shown
    case Nothing => ""
    case Streaming(content) => Strip(content)
  }

  lemma StripMark(text: string)
    ensures Strip(text + [CURSOR]) == text
  {
    var marked := text + [CURSOR];
    assert marked[..|marked| - 1] == text;
  }

  lemma FinalOfShown(v: View, texts: seq<string>)
    requires v.nextSeq !in v.pending && v.nextSeq <= |texts| && v.shown == ShownFor(texts, v.nextSeq)
    ensures FinalContent(v) == Join(texts[..v.nextSeq])
  {
    StripMark(Join(texts[..v.nextSeq]));
  }

  /** The done event leaves the chunks before the first missing one. */
  lemma FinalIsThePrefix(ds: seq<Delivery>, texts: seq<string>)
    requires Faithful(ds, texts)
    ensures var v := ArriveAll(AT_REST, ds);
            v.nextSeq <= |texts| && FinalContent(v) == Join(texts[..v.nextSeq])
  {
    AlwaysTheArrivedPrefix(ds, texts);
    FinalOfShown(ArriveAll(AT_REST, ds), texts);
  }

  /** With chunks missing, what is lost is exactly the text from the first missing chunk on. */
  lemma MissingChunksTruncate(ds: seq<Delivery>, texts: seq<string>)
    requires Faithful(ds, texts)
    ensures var v := ArriveAll(AT_REST, ds);
            v.nextSeq <= |texts| && FinalContent(v) + Join(texts[v.nextSeq..]) == Join(texts)
  {
    FinalIsThePrefix(ds, texts);
    JoinAround(texts, ArriveAll(AT_REST, ds).nextSeq);
  }

  lemma JoinAround(texts: seq<string>, n: nat)
    requires n <= |texts|
    ensures Join(texts[..n]) + Join(texts[n..]) == Join(texts)
  {
    assert texts == texts[..n] + texts[n..];
    JoinConcat(texts[..n], texts[n..]);
  }

  // ----- the events of a goroutine -----

  /** The events of a goroutine that a delivery may repeat. */
  ghost predicate DeliversEvents(ds: seq<Delivery>, events: seq<Event>) {
    forall d | d in ds :: ChunkEvent(d.0, d.1) in events
  }

  ghost predicate DeliversAll(ds: seq<Delivery>, events: seq<Event>) {
    forall e | e in events && e.ChunkEvent? :: (e.seqNo, e.text) in ds
  }

  /** Every chunk event of the stream is delivered, in any order and any number of times. */
  ghost predicate DeliversStream(ds: seq<Delivery>, turns: seq<Turn>) {
    DeliversEvents(ds, StreamEvents(turns)) && DeliversAll(ds, StreamEvents(turns))
  }

  lemma {:induction false} TextsOfNumbered(events: seq<Event>)
    requires Numbered(events, 0) && events != []
    ensures |ChunkTexts(events)| == if EndsStream(events) then |events| - 1 else |events|
    ensures forall i | 0 <= i < |ChunkTexts(events)| :: events[i] == ChunkEvent(i, ChunkTexts(events)[i])
  {
    var init := events[..|events| - 1];
    assert forall i | 0 <= i < |init| :: init[i] == events[i];
    if init != [] {
      TextsOfNumbered(init);
    }
  }

  /** Delivering a stream is delivering its chunk texts, whole. */
  lemma StreamIsWhole(ds: seq<Delivery>, turns: seq<Turn>)
    requires DeliversStream(ds, turns)
    ensures Whole(ds, ChunkTexts(StreamEvents(turns)))
  {
    var events := StreamEvents(turns);
    EventsAreNumbered(turns, 0, 0, []);
    if events != [] {
      TextsOfNumbered(events);
      forall k: nat | k < |ChunkTexts(events)|
        ensures Delivered(ds, k)
      {
        assert events[k] in events;
      }
    }
  }

  lemma WholeIsApplied(ds: seq<Delivery>, texts: seq<string>)
    requires Whole(ds, texts)
    ensures var v := ArriveAll(AT_REST, ds);
            v.nextSeq == |texts| && v.nextSeq !in v.pending && v.shown == ShownFor(texts, |texts|)
    ensures FinalContent(ArriveAll(AT_REST, ds)) == Join(texts)
  {
    AlwaysTheArrivedPrefix(ds, texts);
    FinalIsThePrefix(ds, texts);
    assert texts[..|texts|] == texts;
  }

  /** End to end. Whatever the chunk texts, the moments of the ticks, and the order and repetition of the
      deliveries: if every chunk event has arrived when the stream ends in an event, the message holds
      exactly the text of the provider. */
  lemma EndToEnd(turns: seq<Turn>, ds: seq<Delivery>)
    requires EndsStream(StreamEvents(turns)) && DeliversStream(ds, turns)
    ensures FinalContent(ArriveAll(AT_REST, ds)) == Join(StreamTexts(turns))
  {
    StreamIsWhole(ds, turns);
    WholeIsApplied(ds, ChunkTexts(StreamEvents(turns)));
    TextIsConserved(turns, 0, 0, []);
    assert Join([]) + Join(StreamTexts(turns)) == Join(StreamTexts(turns));
  }

  // ----- the handlers on the store -----

  lemma {:induction false} DrainKeepsShowing(v: View)
    requires v.shown.Streaming?
    ensures Drain(v).shown.Streaming?
    decreases |v.pending|
  {
    if v.nextSeq in v.pending {
      DrainKeepsShowing(DrainOne(v));
    }
  }

  lemma ArriveKeepsShowing(v: View, seqNo: nat, text: string)
    requires v.shown.Streaming?
    ensures Arrive(v, seqNo, text).shown.Streaming?
  {
    DrainKeepsShowing(Applied(v, text));
  }

  /** The handler keeps the store the rendering of what is shown. */
  method HandleDelivery(hook: LLMStreamHook, d: Delivery, uuid: string, ghost tabs: Tabs, ghost m: ChatMessage)
    requires hook.Renders(tabs, m, uuid)
    modifies hook, hook.store
    ensures hook.Renders(tabs, m, uuid) && hook.ViewOf() == Arrive(old(hook.ViewOf()), d.0, d.1)
  {
    ghost var before := hook.ViewOf();
    hook.HandleChunk(d.0, d.1, uuid);
    ghost var shown := hook.ViewOf().shown;
    if before.shown.Streaming? {
      ArriveKeepsShowing(before, d.0, d.1);
    }
    if shown.Streaming? {
      RenderTwice(tabs, hook.tabId, m, before.shown, shown);
      RenderThenFind(tabs, hook.tabId, m, shown);
    }
  }

  /** The chunk events of a stream, as they come. */
  method HandleDeliveries(hook: LLMStreamHook, ds: seq<Delivery>, uuid: string, ghost tabs: Tabs, ghost m: ChatMessage)
    requires hook.Renders(tabs, m, uuid)
    modifies hook, hook.store
    ensures hook.Renders(tabs, m, uuid) && hook.ViewOf() == ArriveAll(old(hook.ViewOf()), ds)
  {
    for i := 0 to |ds|
      invariant hook.Renders(tabs, m, uuid) && hook.ViewOf() == ArriveAll(old(hook.ViewOf()), ds[..i])
    {
      assert ds[..i + 1][..i] == ds[..i];
      HandleDelivery(hook, ds[i], uuid, tabs, m);
    }
    assert ds[..|ds|] == ds;
  }

  lemma ShownIffDelivered(ds: seq<Delivery>, texts: seq<string>)
    requires Whole(ds, texts)
    ensures ArriveAll(AT_REST, ds).shown.Nothing? <==> ds == []
  {
    WholeIsApplied(ds, texts);
    if ds != [] {
      assert ds[0] in ds;
    }
  }

  /** The event loop of one response: the chunk handler for each delivery, then the done handler. The tab
      ends with one new message, finished, holding exactly the text of the provider; without any chunk
      event nothing changes. */
  method RunResponse(hook: LLMStreamHook, turns: seq<Turn>, ds: seq<Delivery>, uuid: string)
    requires EndsDone(turns, 0) && DeliversStream(ds, turns)
    requires hook.Valid() && hook.ViewOf() == AT_REST && hook.Unused(uuid)
    modifies hook, hook.store
    ensures hook.Valid() && hook.ViewOf() == AT_REST
    ensures hook.store.messagesByTab ==
            if ds == [] then old(hook.store.messagesByTab)
            else Put(old(hook.store.messagesByTab), hook.tabId,
                     ChatMessage(uuid, Assistant, Join(StreamTexts(turns)), false, false))
  {
    DoneEventIffEndsDone(turns, 0, 0, []);
    EndToEnd(turns, ds);
    StreamIsWhole(ds, turns);
    ShownIffDelivered(ds, ChunkTexts(StreamEvents(turns)));
    FinishResponse(hook, ds, uuid);
  }

  /** From rest, the deliveries and the done handler leave one new message with the final content. */
  method FinishResponse(hook: LLMStreamHook, ds: seq<Delivery>, uuid: string)
    requires hook.Valid() && hook.ViewOf() == AT_REST && hook.Unused(uuid)
    modifies hook, hook.store
    ensures hook.Valid() && hook.ViewOf() == AT_REST
    ensures hook.store.messagesByTab ==
            if ArriveAll(AT_REST, ds).shown.Nothing? then old(hook.store.messagesByTab)
            else Put(old(hook.store.messagesByTab), hook.tabId,
                     ChatMessage(uuid, Assistant, FinalContent(ArriveAll(AT_REST, ds)), false, false))
  {
    ghost var tabs, m := hook.store.messagesByTab, hook.Current(uuid);
    hook.RendersNow(uuid);
    HandleDeliveries(hook, ds, uuid, tabs, m);
    ghost var last := hook.ViewOf();
    StaysBetween(AT_REST, ds);
    hook.HandleDone(uuid);
    FinishedRendered(tabs, hook.tabId, m, last.shown);
  }

  /** The same for a response that ends in an error at turn i: the message keeps exactly the text received
      before and is marked as interrupted; without any chunk event the provider's error becomes a message. */
  method RunFailedResponse(hook: LLMStreamHook, turns: seq<Turn>, i: nat, ds: seq<Delivery>, uuid: string)
    requires StopsAt(turns, i) && turns[i].Receive? && turns[i].chunk.error.Some?
    requires DeliversStream(ds, turns)
    requires hook.Valid() && hook.ViewOf() == AT_REST && hook.Unused(uuid)
    modifies hook, hook.store
    ensures hook.Valid() && hook.ViewOf() == AT_REST
    ensures hook.store.messagesByTab ==
            Put(old(hook.store.messagesByTab), hook.tabId,
                ChatMessage(uuid, Assistant,
                            if ds == [] then turns[i].chunk.error.value
                            else Join(Received(turns[..i])) + "\n\n(stream interrupted)",
                            false, true))
  {
    ClosingEvent(turns, i);
    var events := StreamEvents(turns);
    var error := events[|events| - 1].error;
    ghost var tabs, m := hook.store.messagesByTab, hook.Current(uuid);
    ghost var texts := ChunkTexts(StreamEvents(turns));
    hook.RendersNow(uuid);
    HandleDeliveries(hook, ds, uuid, tabs, m);
    ghost var last := hook.ViewOf();
    EndToEnd(turns, ds);
    StreamIsWhole(ds, turns);
    WholeIsApplied(ds, texts);
    ShownIffDelivered(ds, texts);
    assert Drain(last) == last;
    hook.HandleError(error, uuid);
    if last.shown.Streaming? {
      PutTwice(tabs, hook.tabId, Holding(m, last.shown),
               m.(content := Interrupted(last.shown.content), isError := true, isStreaming := false));
    }
  }

  // ----- a stream that ends without an event -----

  /** A view as the handlers leave it. */
  ghost predicate Between(v: View) {
    v.nextSeq !in v.pending && (v.shown.Nothing? <==> v.nextSeq == 0)
  }

  lemma {:induction false} DrainAdvances(v: View)
    ensures Drain(v).nextSeq !in Drain(v).pending
    ensures Drain(v).nextSeq >= v.nextSeq + if v.nextSeq in v.pending then 1 else 0
    decreases |v.pending|
  {
    if v.nextSeq in v.pending {
      DrainAdvances(DrainOne(v));
    }
  }

  lemma ArriveStaysBetween(v: View, seqNo: nat, text: string)
    requires Between(v)
    ensures Between(Arrive(v, seqNo, text))
  {
    if seqNo == v.nextSeq {
      DrainAdvances(Applied(v, text));
      DrainKeepsShowing(Applied(v, text));
    }
  }

  lemma {:induction false} StaysBetween(v: View, ds: seq<Delivery>)
    requires Between(v)
    ensures Between(ArriveAll(v, ds))
  {
    if ds != [] {
      StaysBetween(v, ds[..|ds| - 1]);
      ArriveStaysBetween(ArriveAll(v, ds[..|ds| - 1]), ds[|ds| - 1].0, ds[|ds| - 1].1);
    }
  }

  /** After anything has arrived the hook is not at rest, until a done or error event resets it. */
  lemma {:induction false} AtRestIffNothingArrived(ds: seq<Delivery>)
    ensures ArriveAll(AT_REST, ds) == AT_REST <==> ds == []
  {
    if ds != [] {
      var v, d := ArriveAll(AT_REST, ds[..|ds| - 1]), ds[|ds| - 1];
      if d.0 == v.nextSeq {
        DrainAdvances(Applied(v, d.1));
      } else {
        assert d.0 in Arrive(v, d.0, d.1).pending;
      }
    }
  }

  /** The view after a stream: `before` are the chunk deliveries up to its done or error event, if it has
      one, and `late` those after it. */
  function AfterStream(turns: seq<Turn>, before: seq<Delivery>, late: seq<Delivery>): View {
    ArriveAll(if EndsStream(StreamEvents(turns)) then AT_REST else ArriveAll(AT_REST, before), late)
  }

  /** A stream leaves the hook at rest if and only if it ends in a done or error event, or none of its
      chunks was delivered; and no chunk comes after that event. */
  lemma LeavesAtRestIff(turns: seq<Turn>, before: seq<Delivery>, late: seq<Delivery>)
    ensures AfterStream(turns, before, late) == AT_REST <==>
            late == [] && (EndsStream(StreamEvents(turns)) || before == [])
  {
    AtRestIffNothingArrived(late);
    AtRestIffNothingArrived(before + late);
    ArriveInTwo(AT_REST, before, late);
  }

  /** The first k chunks, empty and in order. */
  function Feed(k: nat): seq<Delivery> {
    if k == 0 then [] else Feed(k - 1) + [(k - 1, "")]
  }

  function Blanks(k: nat): seq<string> {
    seq(k, _ => "")
  }

  lemma {:induction false} FeedIsWhole(k: nat, text: string)
    ensures |Feed(k)| == k && forall i | 0 <= i < k :: Feed(k)[i] == (i, "")
    ensures Whole(Feed(k) + [(k, text)], Blanks(k) + [text])
  {
    if k > 0 {
      FeedIsWhole(k - 1, "");
    }
    var ds := Feed(k) + [(k, text)];
    forall i: nat | i <= k
      ensures Delivered(ds, i)
    {
      assert ds[i].0 == i && ds[i] in ds;
    }
  }

  lemma {:induction false} LeastFrom(m: map<nat, string>, i: nat, b: nat) returns (k: nat)
    requires b in m && i <= b && forall j | j in m :: j >= i
    ensures k in m && forall j | j in m :: j >= k
    decreases b - i
  {
    if i in m {
      k := i;
    } else {
      k := LeastFrom(m, i + 1, b);
    }
  }

  lemma FeedOneMore(v: View, i: nat)
    ensures ArriveAll(v, Feed(i + 1)) == Arrive(ArriveAll(v, Feed(i)), i, "")
  {
    ArriveOneMore(v, Feed(i), (i, ""));
  }

  /** The chunk at the place moves it on, over the next number too if that is the one that waits. */
  lemma PlaceMovesOn(v: View, k: nat, text: string)
    requires v.nextSeq + 1 in v.pending <==> v.nextSeq + 1 == k
    ensures var w := Arrive(v, v.nextSeq, text);
            if v.nextSeq + 1 == k then w.nextSeq > k else w.nextSeq == v.nextSeq + 1 && w.pending == v.pending
  {
    DrainAdvances(Applied(v, text));
  }

  /** After i < k empty chunks in order nothing but the place has moved; after k, it is past k. */
  ghost predicate Fed(w: View, pending: map<nat, string>, k: nat, i: nat) {
    if i < k then w.nextSeq == i && w.pending == pending else w.nextSeq > k
  }

  lemma FedOneMore(w: View, pending: map<nat, string>, k: nat, i: nat)
    requires i < k && k in pending && (forall j | j in pending :: j >= k) && Fed(w, pending, k, i)
    ensures Fed(Arrive(w, i, ""), pending, k, i + 1)
  {
    PlaceMovesOn(w, k, "");
  }

  /** Fed up to the least waiting number, the hook passes it by itself. */
  lemma {:induction false} FeedPasses(v: View, k: nat, i: nat)
    requires v.nextSeq == 0 && k in v.pending && (forall j | j in v.pending :: j >= k) && i <= k && 0 < k
    ensures Fed(ArriveAll(v, Feed(i)), v.pending, k, i)
  {
    if i == 0 {
      assert Feed(0) == [];
    } else {
      FeedPasses(v, k, i - 1);
      FeedOneMore(v, i - 1);
      FedOneMore(ArriveAll(v, Feed(i - 1)), v.pending, k, i - 1);
    }
  }

  /** From any view but the resting one, some number is passed before its chunk arrives. */
  lemma SomeNumberIsPassed(v: View) returns (k: nat)
    requires Between(v) && v != AT_REST
    ensures ArriveAll(v, Feed(k)).nextSeq > k
  {
    k := 0;
    if v.nextSeq == 0 {
      var b :| b in v.pending;
      k := LeastFrom(v.pending, 0, b);
      FeedPasses(v, k, k);
    }
  }

  /** The chunk that was passed is never shown. */
  lemma PassedIsIgnored(v: View, k: nat, text: string)
    requires Between(v) && ArriveAll(v, Feed(k)).nextSeq > k
    ensures FinalContent(ArriveAll(v, Feed(k) + [(k, text)])) == FinalContent(ArriveAll(v, Feed(k)))
  {
    StaysBetween(v, Feed(k));
    ArriveOneMore(v, Feed(k), (k, text));
  }

  ghost predicate Right(v: View, ds: seq<Delivery>, texts: seq<string>) {
    FinalContent(ArriveAll(v, ds)) == Join(texts)
  }

  /** Of every view that is not at rest there is a response, wholly delivered, that ends wrong. */
  lemma WrongResponse(v: View) returns (ds: seq<Delivery>, texts: seq<string>)
    requires Between(v) && v != AT_REST
    ensures Whole(ds, texts) && !Right(v, ds, texts)
  {
    var k := SomeNumberIsPassed(v);
    PassedIsIgnored(v, k, "");
    PassedIsIgnored(v, k, "a");
    FeedIsWhole(k, "");
    FeedIsWhole(k, "a");
    JoinConcat(Blanks(k), [""]);
    JoinConcat(Blanks(k), ["a"]);
    JoinOne("");
    JoinOne("a");
    var text := if Right(v, Feed(k) + [(k, "")], Blanks(k) + [""]) then "a" else "";
    ds, texts := Feed(k) + [(k, text)], Blanks(k) + [text];
  }

  /** Every response of which all chunks arrive, and none of another response between them, ends right if and
      only if the hook is at rest before it. */
  lemma EveryResponseIsRightIff(v: View)
    requires Between(v)
    ensures (forall ds, texts | Whole(ds, texts) :: Right(v, ds, texts)) <==> v == AT_REST
  {
    if v == AT_REST {
      forall ds, texts | Whole(ds, texts)
        ensures Right(v, ds, texts)
      {
        WholeIsApplied(ds, texts);
      }
    } else {
      var ds, texts := WrongResponse(v);
    }
  }

  /** Deliveries numbered below the place change neither what is shown nor the place. */
  lemma {:induction false} StaleHookSwallows(v: View, ds: seq<Delivery>)
    requires v.nextSeq !in v.pending && forall d | d in ds :: d.0 < v.nextSeq
    ensures ArriveAll(v, ds).shown == v.shown && ArriveAll(v, ds).nextSeq == v.nextSeq
    ensures v.nextSeq !in ArriveAll(v, ds).pending
  {
    if ds != [] {
      var init, last := ds[..|ds| - 1], ds[|ds| - 1];
      assert ds == init + [last];
      StaleHookSwallows(v, init);
    }
  }

  /** The first response, then what the second has beyond as many chunks. */
  function Glued(first: seq<string>, second: seq<string>): seq<string> {
    first + if |second| > |first| then second[|first|..] else []
  }

  lemma GluedIsConsistent(v: View, first: seq<string>, second: seq<string>, got: set<nat>)
    requires Consistent(v, first, got) && v.nextSeq == |first|
    ensures Consistent(v, Glued(first, second), got)
  {
    assert Glued(first, second)[..|first|] == first == first[..|first|];
  }

  lemma GluedIsFaithful(first: seq<string>, second: seq<string>, ds: seq<Delivery>)
    requires Whole(ds, second)
    ensures FaithfulFrom(ds, Glued(first, second), |first|)
    ensures forall k: nat | |first| <= k < |Glued(first, second)| :: Delivered(ds, k)
  {
  }

  /** A response after one that was wholly delivered but ended without an event loses as many chunks as
      that had, and the rest is glued to its text. */
  lemma ResponsesAreGlued(first: seq<string>, ds1: seq<Delivery>, second: seq<string>, ds2: seq<Delivery>)
    requires Whole(ds1, first) && Whole(ds2, second)
    ensures FinalContent(ArriveAll(ArriveAll(AT_REST, ds1), ds2)) == Join(Glued(first, second))
  {
    WholeIsApplied(ds1, first);
    ArrivalsAreConsistent(AT_REST, ds1, first, {});
    SecondIsApplied(first, ArriveAll(AT_REST, ds1), {} + Numbers(ds1), second, ds2);
  }

  lemma SecondIsApplied(first: seq<string>, v: View, got: set<nat>, second: seq<string>, ds: seq<Delivery>)
    requires Consistent(v, first, got) && v.nextSeq == |first| && v.nextSeq !in got && Whole(ds, second)
    ensures FinalContent(ArriveAll(v, ds)) == Join(Glued(first, second))
  {
    var texts, w := Glued(first, second), ArriveAll(v, ds);
    GluedIsConsistent(v, first, second, got);
    GluedIsFaithful(first, second, ds);
    ArrivalsAreConsistent(v, ds, texts, got);
    if |first| <= w.nextSeq < |texts| {
      NumbersAreDelivered(ds, w.nextSeq);
    }
    AppliedToTheEnd(w, texts, got + Numbers(ds));
  }

  lemma AppliedToTheEnd(v: View, texts: seq<string>, got: set<nat>)
    requires Consistent(v, texts, got) && v.nextSeq == |texts| && v.nextSeq !in got
    ensures FinalContent(v) == Join(texts)
  {
    FinalOfShown(v, texts);
    assert texts[..|texts|] == texts;
  }

  /** The handlers running after a stream that its context ended: one message that holds the first text and
      the tail of the second. */
  method RunAfterContextEnd(hook: LLMStreamHook, turns1: seq<Turn>, ds1: seq<Delivery>, turns2: seq<Turn>,
                            ds2: seq<Delivery>, uuid: string)
    requires !EndsStream(StreamEvents(turns1)) && DeliversStream(ds1, turns1) && ds1 != []
    requires EndsDone(turns2, 0) && DeliversStream(ds2, turns2)
    requires hook.Valid() && hook.ViewOf() == AT_REST && hook.Unused(uuid)
    modifies hook, hook.store
    ensures hook.Valid() && hook.ViewOf() == AT_REST
    ensures var text := Join(Glued(ChunkTexts(StreamEvents(turns1)), ChunkTexts(StreamEvents(turns2))));
            hook.store.messagesByTab ==
            Put(old(hook.store.messagesByTab), hook.tabId, ChatMessage(uuid, Assistant, text, false, false))
  {
    ghost var first, second := ChunkTexts(StreamEvents(turns1)), ChunkTexts(StreamEvents(turns2));
    StreamIsWhole(ds1, turns1);
    StreamIsWhole(ds2, turns2);
    ResponsesAreGlued(first, ds1, second, ds2);
    ArriveInTwo(AT_REST, ds1, ds2);
    ShownIffDelivered(ds1, first);
    KeepsShowing(ArriveAll(AT_REST, ds1), ds2);
    FinishResponse(hook, ds1 + ds2, uuid);
  }

  lemma {:induction false} KeepsShowing(v: View, ds: seq<Delivery>)
    requires v.shown.Streaming?
    ensures ArriveAll(v, ds).shown.Streaming?
  {
    if ds != [] {
      KeepsShowing(v, ds[..|ds| - 1]);
      ArriveKeepsShowing(ArriveAll(v, ds[..|ds| - 1]), ds[|ds| - 1].0, ds[|ds| - 1].1);
    }
  }

  // ----- a reset before the end of a stream -----

  lemma {:induction false} BlankTextsIff(texts: seq<string>)
    ensures Join(texts) == "" <==> forall k | 0 <= k < |texts| :: texts[k] == ""
  {
    if texts != [] {
      BlankTextsIff(texts[..|texts| - 1]);
      assert forall k | 0 <= k < |texts| - 1 :: texts[..|texts| - 1][k] == texts[k];
    }
  }

  /** From rest, chunks of a response give its text if and only if all is empty from the first that is
      missing on. */
  lemma RightIffRestIsBlank(ds: seq<Delivery>, texts: seq<string>)
    requires Faithful(ds, texts)
    ensures var n := ArriveAll(AT_REST, ds).nextSeq;
            n <= |texts| && (Right(AT_REST, ds, texts) <==> forall k | n <= k < |texts| :: texts[k] == "")
  {
    MissingChunksTruncate(ds, texts);
    var n := ArriveAll(AT_REST, ds).nextSeq;
    BlankFromIff(texts, n);
    SameIffNothingAfter(FinalContent(ArriveAll(AT_REST, ds)), Join(texts[n..]), Join(texts));
  }

  lemma BlankFromIff(texts: seq<string>, n: nat)
    requires n <= |texts|
    ensures Join(texts[n..]) == "" <==> forall k | n <= k < |texts| :: texts[k] == ""
  {
    var rest := texts[n..];
    BlankTextsIff(rest);
    assert forall k | n <= k < |texts| :: texts[k] == rest[k - n];
    assert forall k | 0 <= k < |rest| :: rest[k] == texts[n + k];
  }

  lemma SameIffNothingAfter(a: string, b: string, c: string)
    requires a + b == c
    ensures a == c <==> b == ""
  {
    assert |c| == |a| + |b|;
  }

  /** What a reset of the hook before the end of a stream costs. The chunks `early` come before it and `late`
      after it, each on one side only: then the response ends right if and only if none came early. */
  lemma ResetCostsIff(early: seq<Delivery>, late: seq<Delivery>, texts: seq<string>)
    requires Whole(early + late, texts)
    requires forall k: nat :: !(Delivered(early, k) && Delivered(late, k))
    requires forall k | 0 <= k < |texts| :: texts[k] != ""
    ensures Right(AT_REST, late, texts) <==> early == []
  {
    assert Faithful(late, texts);
    AlwaysTheArrivedPrefix(late, texts);
    RightIffRestIsBlank(late, texts);
    var n := ArriveAll(AT_REST, late).nextSeq;
    if early == [] {
      assert early + late == late;
    } else {
      var k := early[0].0;
      assert early[0] in early + late && Delivered(early, k);
    }
  }

  /** A tab change in mid-stream: the hook starts again on the new tab. The old tab keeps a message with the
      early chunks that goes on streaming, and the new tab gets what the late ones give. */
  method RunAcrossTabs(store: ChatStore, tab1: string, tab2: string, early: seq<Delivery>, late: seq<Delivery>,
                       uuid1: string, uuid2: string)
    requires tab1 != tab2
    requires Find(MessagesOf(store.messagesByTab, tab1), uuid1) == |MessagesOf(store.messagesByTab, tab1)|
    requires Find(MessagesOf(store.messagesByTab, tab2), uuid2) == |MessagesOf(store.messagesByTab, tab2)|
    modifies store
    ensures var first := ChatMessage(uuid1, Assistant, "", true, false);
            var halfway := Render(old(store.messagesByTab), tab1, first, ArriveAll(AT_REST, early).shown);
            store.messagesByTab ==
            if ArriveAll(AT_REST, late).shown.Nothing? then halfway
            else Put(halfway, tab2, ChatMessage(uuid2, Assistant, FinalContent(ArriveAll(AT_REST, late)), false, false))
  {
    var hook := new LLMStreamHook(tab1, store);
    ghost var tabs, m := store.messagesByTab, hook.Current(uuid1);
    hook.RendersNow(uuid1);
    HandleDeliveries(hook, early, uuid1, tabs, m);
    var other := new LLMStreamHook(tab2, store);
    FinishResponse(other, late, uuid2);
  }

  // ----- streams that overlap -----

  /** For every number that has arrived, one of the texts that came under it. */
  ghost predicate PicksFrom(texts: seq<string>, ds: seq<Delivery>) {
    forall k | k in Numbers(ds) :: k < |texts| && (k, texts[k]) in ds
  }

  /** What lies beyond the arrived numbers does not matter. */
  lemma LongerIsSettled(v: View, texts: seq<string>, more: seq<string>, got: set<nat>)
    requires Settled(v, texts, got)
    ensures Settled(v, texts + more, got)
  {
    assert (texts + more)[..v.nextSeq] == texts[..v.nextSeq];
  }

  function Forget(v: View, k: nat): View {
    v.(pending := v.pending - {k})
  }

  /** Whatever waits under a number can be forgotten, and then stand for any text. */
  lemma ForgottenIsSettled(v: View, texts: seq<string>, got: set<nat>, k: nat, text: string)
    requires Settled(v, texts, got) && v.nextSeq <= k < |texts|
    ensures Settled(Forget(v, k), texts[k := text], got - {k})
  {
    assert texts[k := text][..v.nextSeq] == texts[..v.nextSeq];
  }

  lemma ForgottenArrives(v: View, d: Delivery)
    requires v.nextSeq !in v.pending && v.nextSeq <= d.0
    ensures Arrive(Forget(v, d.0), d.0, d.1) == Arrive(v, d.0, d.1)
  {
    if d.0 == v.nextSeq {
      assert v.pending - {d.0} == v.pending;
    } else {
      assert (v.pending - {d.0})[d.0 := d.1] == v.pending[d.0 := d.1];
    }
  }

  /** A text that comes under a number still waiting replaces the one that waits. */
  lemma ReplacedIsSettled(v: View, texts: seq<string>, got: set<nat>, d: Delivery)
    requires Settled(v, texts, got) && v.nextSeq <= d.0 < |texts| && v.nextSeq !in v.pending
    ensures Settled(Arrive(v, d.0, d.1), texts[d.0 := d.1], got + {d.0})
  {
    ForgottenIsSettled(v, texts, got, d.0, d.1);
    OneArrival(Forget(v, d.0), texts[d.0 := d.1], got - {d.0}, d);
    ForgottenArrives(v, d);
    assert got - {d.0} + {d.0} == got + {d.0};
  }

  lemma {:induction false} ArrivalsPick(ds: seq<Delivery>) returns (texts: seq<string>)
    ensures Settled(ArriveAll(AT_REST, ds), texts, Numbers(ds)) && PicksFrom(texts, ds)
  {
    if ds == [] {
      texts := [];
    } else {
      var init, d := ds[..|ds| - 1], ds[|ds| - 1];
      assert ds == init + [d];
      texts := ArrivalsPick(init);
      var v := ArriveAll(AT_REST, init);
      assert Numbers(ds) == Numbers(init) + {d.0};
      if d.0 < v.nextSeq {
        OneArrival(v, texts, Numbers(init), d);
      } else {
        LongerIsSettled(v, texts, Blanks(d.0 + 1), Numbers(init));
        texts := texts + Blanks(d.0 + 1);
        ReplacedIsSettled(v, texts, Numbers(init), d);
        texts := texts[d.0 := d.1];
      }
    }
  }

  /** Whatever is delivered, from however many streams: the message gets one of the texts that came under
      each number, up to the first number under which none came. */
  lemma OneTextPerNumber(ds: seq<Delivery>) returns (texts: seq<string>)
    ensures |texts| == ArriveAll(AT_REST, ds).nextSeq && !Delivered(ds, |texts|)
    ensures forall k: nat | k < |texts| :: (k, texts[k]) in ds
    ensures ArriveAll(AT_REST, ds).shown == ShownFor(texts, |texts|)
    ensures FinalContent(ArriveAll(AT_REST, ds)) == Join(texts)
  {
    var all := ArrivalsPick(ds);
    var v := ArriveAll(AT_REST, ds);
    texts := all[..v.nextSeq];
    FinalOfShown(v, all);
    assert texts[..|texts|] == texts;
    NumbersAreDelivered(ds, |texts|);
    assert forall k: nat | k < |texts| :: k in Numbers(ds) && texts[k] == all[k];
  }

  predicate ChunkOf(d: Delivery, texts: seq<string>) {
    d.0 < |texts| && d.1 == texts[d.0]
  }

  /** Every chunk of two responses and nothing else, in any order. */
  ghost predicate WholeOfTwo(ds: seq<Delivery>, first: seq<string>, second: seq<string>) {
    && (forall d | d in ds :: ChunkOf(d, first) || ChunkOf(d, second))
    && (forall d: Delivery | ChunkOf(d, first) || ChunkOf(d, second) :: d in ds)
  }

  /** Under each number, the chunk of one of the two. */
  ghost predicate MixOf(texts: seq<string>, first: seq<string>, second: seq<string>) {
    && |texts| == (if |first| < |second| then |second| else |first|)
    && forall k: nat | k < |texts| :: ChunkOf((k, texts[k]), first) || ChunkOf((k, texts[k]), second)
  }

  lemma WholeDelivers(ds: seq<Delivery>, first: seq<string>, second: seq<string>)
    requires WholeOfTwo(ds, first, second)
    ensures forall k: nat | k < |first| || k < |second| :: Delivered(ds, k)
  {
    forall k: nat | k < |first| || k < |second|
      ensures Delivered(ds, k)
    {
      var d := (k, if k < |first| then first[k] else second[k]);
      assert ChunkOf(d, first) || ChunkOf(d, second);
    }
  }

  /** Two responses whose chunks all arrive before the first done event make one text. */
  lemma OverlapMixes(ds: seq<Delivery>, first: seq<string>, second: seq<string>) returns (texts: seq<string>)
    requires WholeOfTwo(ds, first, second)
    ensures MixOf(texts, first, second) && ArriveAll(AT_REST, ds).shown == ShownFor(texts, |texts|)
    ensures FinalContent(ArriveAll(AT_REST, ds)) == Join(texts)
  {
    texts := OneTextPerNumber(ds);
    WholeDelivers(ds, first, second);
    if texts != [] {
      assert (|texts| - 1, texts[|texts| - 1]) in ds;
    }
  }

  /** The chunks numbered below n. */
  function Below(texts: seq<string>, n: nat): seq<string> {
    if n < |texts| then texts[..n] else texts
  }

  lemma MixBelow(texts: seq<string>, first: seq<string>, second: seq<string>, n: nat)
    requires MixOf(texts, first, second) && |texts| == n + 1
    ensures MixOf(texts[..n], Below(first, n), Below(second, n))
    ensures ChunkOf((n, texts[n]), first) || ChunkOf((n, texts[n]), second)
  {
    forall k: nat | k < n
      ensures ChunkOf((k, texts[..n][k]), Below(first, n)) || ChunkOf((k, texts[..n][k]), Below(second, n))
    {
      assert ChunkOf((k, texts[k]), first) || ChunkOf((k, texts[k]), second);
    }
  }

  lemma JoinBelow(texts: seq<string>, n: nat)
    requires |texts| <= n + 1
    ensures |Join(texts)| == |Join(Below(texts, n))| + if |texts| == n + 1 then |texts[n]| else 0
  {
  }

  lemma {:induction false} MixIsShorter(texts: seq<string>, first: seq<string>, second: seq<string>)
    requires MixOf(texts, first, second)
    requires "" !in first && "" !in second
    ensures |Join(texts)| <= |Join(first)| + |Join(second)|
    ensures |Join(texts)| == |Join(first)| + |Join(second)| <==> first == [] || second == []
  {
    if texts != [] {
      var n := |texts| - 1;
      MixBelow(texts, first, second, n);
      MixIsShorter(texts[..n], Below(first, n), Below(second, n));
      JoinBelow(texts, n);
      JoinBelow(first, n);
      JoinBelow(second, n);
    }
  }

  /** With no empty chunks, nothing of the two responses is lost if and only if one of them is empty. */
  lemma OverlapCostsIff(ds: seq<Delivery>, first: seq<string>, second: seq<string>)
    requires WholeOfTwo(ds, first, second) && "" !in first && "" !in second
    ensures |FinalContent(ArriveAll(AT_REST, ds))| == |Join(first)| + |Join(second)| <==> first == [] || second == []
  {
    var texts := OverlapMixes(ds, first, second);
    MixIsShorter(texts, first, second);
  }

  /** Two sends on one hook, the second begun before the first is done, with all chunks before the first done
      event: that event finishes one message for both, and the second finds nothing left. */
  method RunOverlapping(hook: LLMStreamHook, turns1: seq<Turn>, turns2: seq<Turn>, ds: seq<Delivery>,
                        uuid1: string, uuid2: string)
    requires EndsDone(turns1, 0) && EndsDone(turns2, 0) && ds != []
    requires WholeOfTwo(ds, ChunkTexts(StreamEvents(turns1)), ChunkTexts(StreamEvents(turns2)))
    requires hook.Valid() && hook.ViewOf() == AT_REST
    requires hook.Unused(uuid1) && hook.Unused(uuid2) && uuid1 != uuid2
    modifies hook, hook.store
    ensures hook.Valid() && hook.ViewOf() == AT_REST
    ensures exists texts |
              MixOf(texts, ChunkTexts(StreamEvents(turns1)), ChunkTexts(StreamEvents(turns2))) ::
              hook.store.messagesByTab ==
              Put(old(hook.store.messagesByTab), hook.tabId,
                  ChatMessage(uuid1, Assistant, Join(texts), false, false))
  {
    ghost var tabs := hook.store.messagesByTab;
    ghost var texts := OverlapMixes(ds, ChunkTexts(StreamEvents(turns1)), ChunkTexts(StreamEvents(turns2)));
    assert texts != [] by {
      assert ds[0] in ds;
    }
    FinishResponse(hook, ds, uuid1);
    PutKeepsUnused(tabs, hook.tabId, ChatMessage(uuid1, Assistant, Join(texts), false, false), uuid2);
    hook.HandleDone(uuid2);
  }

  lemma PutKeepsUnused(tabs: Tabs, tabId: string, m: ChatMessage, id: string)
    requires Find(MessagesOf(tabs, tabId), id) == |MessagesOf(tabs, tabId)| && m.id != id
    ensures var after := MessagesOf(Put(tabs, tabId, m), tabId); Find(after, id) == |after|
  {
    var before, after := MessagesOf(tabs, tabId), MessagesOf(Put(tabs, tabId, m), tabId);
    assert forall k | 0 <= k < |after| :: after[k] == m || (k < |before| && after[k] == before[k]);
  }

  /** An input. "A" and "p" are sent by overlapping streams, both wholly delivered before the first done
      event: the message is "A", and "p" is stored nowhere. */
  lemma OverlappingStreams() returns (turns1: seq<Turn>, ds1: seq<Delivery>, turns2: seq<Turn>, ds2: seq<Delivery>)
    ensures EndsDone(turns1, 0) && DeliversStream(ds1, turns1) && Join(StreamTexts(turns1)) == "A"
    ensures EndsDone(turns2, 0) && DeliversStream(ds2, turns2) && Join(StreamTexts(turns2)) == "p"
    ensures FinalContent(ArriveAll(ArriveAll(AT_REST, ds1), ds2)) == "A" && FinalContent(AT_REST) == ""
  {
    turns1, ds1 := [Receive(StreamChunk("A", false, None)), ChannelClosed], [(0, "A")];
    turns2, ds2 := [Receive(StreamChunk("p", false, None)), ChannelClosed], [(0, "p")];
    OneChunkStream(turns1, "A");
    OneChunkStream(turns2, "p");
    ArriveOneMore(AT_REST, [], (0, "A"));
    assert [] + [(0, "A")] == ds1;
    StripMark("A");
    WholeOne(ds1, "A");
    WholeOne(ds2, "p");
    ResponsesAreGlued(["A"], ds1, ["p"], ds2);
    assert Glued(["A"], ["p"]) == ["A"];
    JoinOne("A");
  }

  lemma WholeOne(ds: seq<Delivery>, text: string)
    requires ds == [(0, text)]
    ensures Whole(ds, [text])
  {
    assert ds[0] in ds;
    assert Delivered(ds, 0);
  }

  lemma OneChunkStream(turns: seq<Turn>, text: string)
    requires turns == [Receive(StreamChunk(text, false, None)), ChannelClosed]
    ensures EndsDone(turns, 0) && Join(StreamTexts(turns)) == text && DeliversStream([(0, text)], turns)
  {
    JoinOne(text);
    assert [] + [text] == [text];
    assert Emitted(turns, 1, 0, [text]) == [ChunkEvent(0, text), DoneEvent(1)];
    assert Texts(turns, 1) == [];
    assert EndsDone(turns, 1);
  }

  // ----- a failing input for a stream ended by its context -----

  /** A failing input. The first stream sends "A" and is ended by its context; the second sends "p" and "q"
      and is done. Every chunk event is delivered once and in order, and the answer "pq" is stored as "Aq". */
  lemma TwoStreams() returns (turns1: seq<Turn>, ds1: seq<Delivery>, turns2: seq<Turn>, ds2: seq<Delivery>)
    ensures !EndsStream(StreamEvents(turns1)) && DeliversStream(ds1, turns1)
    ensures EndsDone(turns2, 0) && DeliversStream(ds2, turns2) && Join(StreamTexts(turns2)) == "pq"
    ensures FinalContent(ArriveAll(AfterStream(turns1, ds1, []), ds2)) == "Aq"
  {
    turns1 := [Receive(StreamChunk("A", false, None)), Tick, ContextDone];
    turns2 := [Receive(StreamChunk("p", false, None)), Tick, Receive(StreamChunk("q", false, None)), Tick,
               ChannelClosed];
    ds1, ds2 := [(0, "A")], [(0, "p"), (1, "q")];
    FirstStream(turns1);
    SecondStream(turns2);
    AfterBoth(ds1, ds2);
  }

  lemma AfterBoth(ds1: seq<Delivery>, ds2: seq<Delivery>)
    requires ds1 == [(0, "A")] && ds2 == [(0, "p"), (1, "q")]
    ensures FinalContent(ArriveAll(ArriveAll(AT_REST, ds1), ds2)) == "Aq"
  {
    var first, second := ["A"], ["p", "q"];
    assert ds1[0] in ds1 && ds2[0] in ds2 && ds2[1] in ds2;
    assert Delivered(ds1, 0) && Delivered(ds2, 0) && Delivered(ds2, 1);
    ResponsesAreGlued(first, ds1, second, ds2);
    assert Glued(first, second) == ["A", "q"];
    JoinOfTwo("A", "q");
  }

  lemma JoinOfTwo(a: string, b: string)
    ensures Join([a, b]) == a + b
  {
    assert [a, b] == [a] + [b];
    JoinConcat([a], [b]);
    JoinOne(a);
    JoinOne(b);
  }

  lemma FirstStream(turns: seq<Turn>)
    requires turns == [Receive(StreamChunk("A", false, None)), Tick, ContextDone]
    ensures StreamEvents(turns) == [ChunkEvent(0, "A")]
    ensures !EndsStream(StreamEvents(turns)) && DeliversStream([(0, "A")], turns)
  {
    JoinOne("A");
    assert Emitted(turns, 2, 1, []) == [];
    assert Emitted(turns, 1, 0, ["A"]) == [ChunkEvent(0, "A")];
    assert [] + ["A"] == ["A"];
  }

  lemma SecondStream(turns: seq<Turn>)
    requires turns == [Receive(StreamChunk("p", false, None)), Tick, Receive(StreamChunk("q", false, None)), Tick,
                       ChannelClosed]
    ensures EndsDone(turns, 0) && Join(StreamTexts(turns)) == "pq"
    ensures DeliversStream([(0, "p"), (1, "q")], turns)
  {
    SecondEvents(turns);
    SecondTexts(turns);
    JoinOfTwo("p", "q");
    assert EndsDone(turns, 4);
    assert EndsDone(turns, 3);
    assert EndsDone(turns, 2);
    assert EndsDone(turns, 1);
  }

  lemma SecondEvents(turns: seq<Turn>)
    requires turns == [Receive(StreamChunk("p", false, None)), Tick, Receive(StreamChunk("q", false, None)), Tick,
                       ChannelClosed]
    ensures StreamEvents(turns) == [ChunkEvent(0, "p"), ChunkEvent(1, "q"), DoneEvent(2)]
  {
    JoinOne("p");
    JoinOne("q");
    assert [] + ["q"] == ["q"] && [] + ["p"] == ["p"];
    assert Emitted(turns, 4, 2, []) == [DoneEvent(2)];
    assert Emitted(turns, 3, 1, ["q"]) == [ChunkEvent(1, "q"), DoneEvent(2)];
    assert Emitted(turns, 2, 1, []) == [ChunkEvent(1, "q"), DoneEvent(2)];
    assert Emitted(turns, 1, 0, ["p"]) == [ChunkEvent(0, "p"), ChunkEvent(1, "q"), DoneEvent(2)];
  }

  lemma SecondTexts(turns: seq<Turn>)
    requires turns == [Receive(StreamChunk("p", false, None)), Tick, Receive(StreamChunk("q", false, None)), Tick,
                       ChannelClosed]
    ensures StreamTexts(turns) == ["p", "q"]
  {
    assert Texts(turns, 4) == [];
    assert Texts(turns, 3) == [];
    assert Texts(turns, 2) == ["q"];
    assert Texts(turns, 1) == ["q"];
  }
}
