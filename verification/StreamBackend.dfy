/**
 The streaming goroutine of SendMessage in services/llm_service.go: provider chunks are batched, a
 ticker flushes the batch as one numbered event, and the end of the stream flushes what is left.
 */
module StreamBackend {
  import opened Options

  /** llm.StreamChunk. */
  datatype StreamChunk = StreamChunk(text: string, done: bool, error: Option<string>)

  /** What the select of the loop sees. */
  datatype Turn =
    | Receive(chunk: StreamChunk)
    | ChannelClosed
    | Tick
    | ContextDone

  datatype Event =
    | ChunkEvent(seqNo: nat, text: string)
    | DoneEvent(seqNo: nat)
    | ErrorEvent(seqNo: nat, error: string)

  function Join(parts: seq<string>): string {
    if parts == [] then "" else Join(parts[..|parts| - 1]) + parts[|parts| - 1]
  }

  lemma {:induction false} JoinConcat(a: seq<string>, b: seq<string>)
    ensures Join(a + b) == Join(a) + Join(b)
  {
    if b == [] {
      assert a + b == a;
    } else {
      assert (a + b)[..|a + b| - 1] == a + b[..|b| - 1];
      JoinConcat(a, b[..|b| - 1]);
    }
  }

  lemma Associates<T>(a: seq<T>, b: seq<T>, c: seq<T>)
    ensures a + (b + c) == a + b + c
  {
  }

  // ----- what the goroutine emits -----

  function Flush(seqNo: nat, batch: seq<string>): seq<Event> {
    if batch == [] then [] else [ChunkEvent(seqNo, Join(batch))]
  }

  /** The turns that end the loop with an event: a closed channel, an error chunk, a done chunk. */
  predicate Ends(turn: Turn) {
    turn.ChannelClosed? || (turn.Receive? && (turn.chunk.error.Some? || turn.chunk.done))
  }

  function LastEvent(turn: Turn, seqNo: nat): Event {
    if turn.Receive? && turn.chunk.error.Some? then ErrorEvent(seqNo, turn.chunk.error.value) else DoneEvent(seqNo)
  }

  /** The events from turn i of the loop on. */
  function Emitted(turns: seq<Turn>, i: nat, seqNo: nat, batch: seq<string>): seq<Event>
    requires i <= |turns|
    decreases |turns| - i
  {
    if i == |turns| || turns[i].ContextDone? then []
    else
      var after := seqNo + |Flush(seqNo, batch)|;
      if Ends(turns[i]) then Flush(seqNo, batch) + [LastEvent(turns[i], after)]
      else if turns[i].Tick? then Flush(seqNo, batch) + Emitted(turns, i + 1, after, [])
      else Emitted(turns, i + 1, seqNo, batch + [turns[i].chunk.text])
  }

  /** The texts the provider sends from turn i on, up to the turn that ends the loop. */
  function Texts(turns: seq<Turn>, i: nat): seq<string>
    requires i <= |turns|
    decreases |turns| - i
  {
    if i == |turns| || turns[i].ContextDone? || Ends(turns[i]) then []
    else if turns[i].Tick? then Texts(turns, i + 1)
    else [turns[i].chunk.text] + Texts(turns, i + 1)
  }

  /** The loop ends with the end of the response, not with an error or the context. */
  predicate EndsDone(turns: seq<Turn>, i: nat)
    requires i <= |turns|
    decreases |turns| - i
  {
    i < |turns| && !turns[i].ContextDone? &&
    if Ends(turns[i]) then !(turns[i].Receive? && turns[i].chunk.error.Some?) else EndsDone(turns, i + 1)
  }

  /** The whole stream: its events, and the provider's texts. */
  function StreamEvents(turns: seq<Turn>): seq<Event> {
    Emitted(turns, 0, 0, [])
  }

  function StreamTexts(turns: seq<Turn>): seq<string> {
    Texts(turns, 0)
  }

  /** The text written to the audit log, if any. */
  function Audited(turns: seq<Turn>): Option<string> {
    if EndsDone(turns, 0) then Some(Join(StreamTexts(turns))) else None
  }

  /** The goroutine. `audited` is the text written to the audit log, if any. */
  method RunStream(turns: seq<Turn>) returns (events: seq<Event>, audited: Option<string>)
    ensures events == StreamEvents(turns)
    ensures audited == Audited(turns)
  {
    events, audited := [], None;
    var seqNo: nat := 0;
    var batch: seq<string> := [];
    var assembledParts: seq<string> := [];
    for i := 0 to |turns|
      invariant events + Emitted(turns, i, seqNo, batch) == StreamEvents(turns)
      invariant assembledParts + Texts(turns, i) == StreamTexts(turns)
      invariant EndsDone(turns, i) == EndsDone(turns, 0)
    {
      var turn := turns[i];
      if turn.ContextDone? {
        return;
      }
      if turn.Receive? && !Ends(turn) {
        EmitReceive(turns, i, seqNo, batch, assembledParts);
        batch := batch + [turn.chunk.text];
        assembledParts := assembledParts + [turn.chunk.text];
        continue;
      }
      if turn.Tick? {
        EmitTick(turns, i, seqNo, batch, events);
      } else {
        EmitLast(turns, i, seqNo, batch, events);
        assert assembledParts + [] == assembledParts;
      }
      var flushed := Flush(seqNo, batch);
      events := events + flushed;
      seqNo := seqNo + |flushed|;
      batch := [];
      if Ends(turn) {
        if !(turn.Receive? && turn.chunk.error.Some?) {
          audited := Some(Join(assembledParts));
        }
        events := events + [LastEvent(turn, seqNo)];
        return;
      }
    }
  }

  lemma TickFlushes(turns: seq<Turn>, i: nat, seqNo: nat, batch: seq<string>)
    requires i < |turns| && turns[i].Tick?
    ensures Emitted(turns, i, seqNo, batch) ==
            Flush(seqNo, batch) + Emitted(turns, i + 1, seqNo + |Flush(seqNo, batch)|, [])
    ensures Texts(turns, i) == Texts(turns, i + 1) && EndsDone(turns, i) == EndsDone(turns, i + 1)
  {
  }

  lemma EmitTick(turns: seq<Turn>, i: nat, seqNo: nat, batch: seq<string>, events: seq<Event>)
    requires i < |turns| && turns[i].Tick?
    ensures events + Emitted(turns, i, seqNo, batch) ==
            events + Flush(seqNo, batch) + Emitted(turns, i + 1, seqNo + |Flush(seqNo, batch)|, [])
    ensures Texts(turns, i) == Texts(turns, i + 1) && EndsDone(turns, i) == EndsDone(turns, i + 1)
  {
    TickFlushes(turns, i, seqNo, batch);
    Associates(events, Flush(seqNo, batch), Emitted(turns, i + 1, seqNo + |Flush(seqNo, batch)|, []));
  }

  lemma EmitReceive(turns: seq<Turn>, i: nat, seqNo: nat, batch: seq<string>, parts: seq<string>)
    requires i < |turns| && turns[i].Receive? && !Ends(turns[i])
    ensures var text := turns[i].chunk.text;
            && Emitted(turns, i, seqNo, batch) == Emitted(turns, i + 1, seqNo, batch + [text])
            && parts + Texts(turns, i) == parts + [text] + Texts(turns, i + 1)
            && EndsDone(turns, i) == EndsDone(turns, i + 1)
  {
    var text := turns[i].chunk.text;
    Associates(parts, [text], Texts(turns, i + 1));
  }

  lemma EmitLast(turns: seq<Turn>, i: nat, seqNo: nat, batch: seq<string>, events: seq<Event>)
    requires i < |turns| && Ends(turns[i])
    ensures events + Emitted(turns, i, seqNo, batch) ==
            events + Flush(seqNo, batch) + [LastEvent(turns[i], seqNo + |Flush(seqNo, batch)|)]
    ensures Texts(turns, i) == []
  {
  }

  // ----- numbering and conservation -----

  function TextOf(e: Event): seq<string> {
    if e.ChunkEvent? then [e.text] else []
  }

  /** The texts of the chunk events, in order. */
  function ChunkTexts(events: seq<Event>): seq<string> {
    if events == [] then []
    else ChunkTexts(events[..|events| - 1]) + TextOf(events[|events| - 1])
  }

  lemma {:induction false} ChunkTextsConcat(a: seq<Event>, b: seq<Event>)
    ensures ChunkTexts(a + b) == ChunkTexts(a) + ChunkTexts(b)
  {
    if b == [] {
      assert a + b == a;
    } else {
      assert (a + b)[..|a + b| - 1] == a + b[..|b| - 1];
      ChunkTextsConcat(a, b[..|b| - 1]);
    }
  }

  predicate EndsStream(events: seq<Event>) {
    events != [] && !events[|events| - 1].ChunkEvent?
  }

  /** Chunk events are numbered from `seqNo` on without a gap and only the last event may be another; it
      then carries the next number. */
  ghost predicate Numbered(events: seq<Event>, seqNo: nat) {
    && (forall i | 0 <= i < |events| :: events[i].seqNo == seqNo + i)
    && (forall i | 0 <= i < |events| - 1 :: events[i].ChunkEvent?)
  }

  lemma {:induction false} EventsAreNumbered(turns: seq<Turn>, i: nat, seqNo: nat, batch: seq<string>)
    requires i <= |turns|
    ensures Numbered(Emitted(turns, i, seqNo, batch), seqNo)
    decreases |turns| - i
  {
    if i < |turns| && !turns[i].ContextDone? && !Ends(turns[i]) {
      if turns[i].Tick? {
        EventsAreNumbered(turns, i + 1, seqNo + |Flush(seqNo, batch)|, []);
      } else {
        EventsAreNumbered(turns, i + 1, seqNo, batch + [turns[i].chunk.text]);
      }
    }
  }

  /** Exactly then is the last event a done event. */
  lemma {:induction false} DoneEventIffEndsDone(turns: seq<Turn>, i: nat, seqNo: nat, batch: seq<string>)
    requires i <= |turns|
    ensures var events := Emitted(turns, i, seqNo, batch);
            EndsDone(turns, i) <==> events != [] && events[|events| - 1].DoneEvent?
    decreases |turns| - i
  {
    if i < |turns| && !turns[i].ContextDone? && !Ends(turns[i]) {
      if turns[i].Tick? {
        DoneEventIffEndsDone(turns, i + 1, seqNo + |Flush(seqNo, batch)|, []);
      } else {
        DoneEventIffEndsDone(turns, i + 1, seqNo, batch + [turns[i].chunk.text]);
      }
    }
  }

  /** Nothing is lost, added or reordered: once the stream has ended in a done or error event, the chunk
      events hold exactly the batched and the provider's text; before, or when the context ended it, a
      prefix of it. */
  ghost predicate Conserves(events: seq<Event>, text: string) {
    && Join(ChunkTexts(events)) <= text
    && (EndsStream(events) ==> Join(ChunkTexts(events)) == text)
  }

  lemma {:induction false} TextIsConserved(turns: seq<Turn>, i: nat, seqNo: nat, batch: seq<string>)
    requires i <= |turns|
    ensures Conserves(Emitted(turns, i, seqNo, batch), Join(batch) + Join(Texts(turns, i)))
    decreases |turns| - i
  {
    if i == |turns| || turns[i].ContextDone? {
      NothingConserves(turns, i, seqNo, batch);
    } else if Ends(turns[i]) {
      EndConserves(turns, i, seqNo, batch);
    } else if turns[i].Tick? {
      TextIsConserved(turns, i + 1, seqNo + |Flush(seqNo, batch)|, []);
      TickConserves(turns, i, seqNo, batch);
    } else {
      TextIsConserved(turns, i + 1, seqNo, batch + [turns[i].chunk.text]);
      ReceiveConserves(turns, i, seqNo, batch);
    }
  }

  lemma NothingConserves(turns: seq<Turn>, i: nat, seqNo: nat, batch: seq<string>)
    requires i <= |turns| && (i == |turns| || turns[i].ContextDone?)
    ensures Conserves(Emitted(turns, i, seqNo, batch), Join(batch) + Join(Texts(turns, i)))
  {
    assert Emitted(turns, i, seqNo, batch) == [];
  }

  lemma EndConserves(turns: seq<Turn>, i: nat, seqNo: nat, batch: seq<string>)
    requires i < |turns| && Ends(turns[i])
    ensures Conserves(Emitted(turns, i, seqNo, batch), Join(batch) + Join(Texts(turns, i)))
  {
    LastFlush(seqNo, batch, LastEvent(turns[i], seqNo + |Flush(seqNo, batch)|));
  }

  lemma ReceiveConserves(turns: seq<Turn>, i: nat, seqNo: nat, batch: seq<string>)
    requires i < |turns| && turns[i].Receive? && !Ends(turns[i])
    requires var batched := batch + [turns[i].chunk.text];
             Conserves(Emitted(turns, i + 1, seqNo, batched), Join(batched) + Join(Texts(turns, i + 1)))
    ensures Conserves(Emitted(turns, i, seqNo, batch), Join(batch) + Join(Texts(turns, i)))
  {
    BatchOne(batch, turns[i].chunk.text, Texts(turns, i + 1));
  }

  lemma TickConserves(turns: seq<Turn>, i: nat, seqNo: nat, batch: seq<string>)
    requires i < |turns| && turns[i].Tick?
    requires Conserves(Emitted(turns, i + 1, seqNo + |Flush(seqNo, batch)|, []), Join([]) + Join(Texts(turns, i + 1)))
    ensures Conserves(Emitted(turns, i, seqNo, batch), Join(batch) + Join(Texts(turns, i)))
  {
    FlushFirst(seqNo, batch, Emitted(turns, i + 1, seqNo + |Flush(seqNo, batch)|, []), Join(Texts(turns, i + 1)));
  }

  lemma BatchOne(batch: seq<string>, text: string, rest: seq<string>)
    ensures Join(batch + [text]) + Join(rest) == Join(batch) + Join([text] + rest)
  {
    JoinConcat(batch, [text]);
    JoinConcat([text], rest);
    JoinOne(text);
    assert Join(batch) + text + Join(rest) == Join(batch) + (text + Join(rest));
  }

  lemma FlushFirst(seqNo: nat, batch: seq<string>, rest: seq<Event>, text: string)
    requires Conserves(rest, Join([]) + text)
    ensures Conserves(Flush(seqNo, batch) + rest, Join(batch) + text)
  {
    assert Join([]) + text == text;
    FlushedTexts(seqNo, batch, rest);
    PutBefore(Join(batch), Join(ChunkTexts(rest)), text);
    FlushEndsNothing(seqNo, batch, rest);
  }

  lemma FlushedTexts(seqNo: nat, batch: seq<string>, rest: seq<Event>)
    ensures Join(ChunkTexts(Flush(seqNo, batch) + rest)) == Join(batch) + Join(ChunkTexts(rest))
  {
    var flushed := Flush(seqNo, batch);
    FlushedText(seqNo, batch);
    ChunkTextsConcat(flushed, rest);
    JoinConcat(ChunkTexts(flushed), ChunkTexts(rest));
  }

  lemma PutBefore(a: string, b: string, c: string)
    ensures b <= c ==> a + b <= a + c
    ensures b == c ==> a + b == a + c
  {
  }

  lemma FlushEndsNothing(seqNo: nat, batch: seq<string>, rest: seq<Event>)
    ensures EndsStream(Flush(seqNo, batch) + rest) <==> EndsStream(rest)
  {
    if rest == [] {
      assert Flush(seqNo, batch) + rest == Flush(seqNo, batch);
    }
  }

  lemma JoinOne(t: string)
    ensures Join([t]) == t
  {
    assert [t][..0] == [];
  }

  lemma FlushedText(seqNo: nat, batch: seq<string>)
    ensures Join(ChunkTexts(Flush(seqNo, batch))) == Join(batch)
  {
    if batch != [] {
      var e := ChunkEvent(seqNo, Join(batch));
      assert [e][..0] == [] && ChunkTexts([e]) == [Join(batch)];
      JoinOne(Join(batch));
    }
  }

  lemma LastFlush(seqNo: nat, batch: seq<string>, e: Event)
    requires !e.ChunkEvent?
    ensures Conserves(Flush(seqNo, batch) + [e], Join(batch) + Join([]))
  {
    FlushedText(seqNo, batch);
    var flushed := Flush(seqNo, batch);
    assert (flushed + [e])[..|flushed + [e]| - 1] == flushed;
    assert ChunkTexts(flushed + [e]) == ChunkTexts(flushed) + [] == ChunkTexts(flushed);
    assert Join(batch) + "" == Join(batch);
  }

  // ----- how a stream ends -----

  /** A tick, or a chunk that is only text. */
  predicate GoesOn(turn: Turn) {
    turn.Tick? || (turn.Receive? && turn.chunk.error.None? && !turn.chunk.done)
  }

  /** Turn i is the first that is neither. */
  ghost predicate StopsAt(turns: seq<Turn>, i: nat) {
    i < |turns| && !GoesOn(turns[i]) && forall j | 0 <= j < i :: GoesOn(turns[j])
  }

  /** The texts received in a sequence of turns. */
  function Received(turns: seq<Turn>): seq<string> {
    if turns == [] then []
    else
      var last := turns[|turns| - 1];
      Received(turns[..|turns| - 1]) + if last.Receive? then [last.chunk.text] else []
  }

  /** What is emitted up to turn i, and the batch that is left. */
  function EmittedBefore(turns: seq<Turn>, i: nat): (seq<Event>, seq<string>)
    requires i <= |turns|
  {
    if i == 0 then ([], [])
    else
      var (events, batch) := EmittedBefore(turns, i - 1);
      if turns[i - 1].Receive? then (events, batch + [turns[i - 1].chunk.text])
      else (events + Flush(|events|, batch), [])
  }

  lemma {:induction false} EmittedSoFar(turns: seq<Turn>, i: nat)
    requires i <= |turns| && forall j | 0 <= j < i :: GoesOn(turns[j])
    ensures var (events, batch) := EmittedBefore(turns, i);
            && StreamEvents(turns) == events + Emitted(turns, i, |events|, batch)
            && forall e | e in events :: e.ChunkEvent?
  {
    if i > 0 {
      EmittedSoFar(turns, i - 1);
      var (events, batch) := EmittedBefore(turns, i - 1);
      if turns[i - 1].Tick? {
        EmitTick(turns, i - 1, |events|, batch, events);
      } else {
        EmitReceive(turns, i - 1, |events|, batch, []);
      }
    }
  }

  lemma {:induction false} ReceivedSoFar(turns: seq<Turn>, i: nat)
    requires i <= |turns| && forall j | 0 <= j < i :: GoesOn(turns[j])
    ensures StreamTexts(turns) == Received(turns[..i]) + Texts(turns, i)
    ensures EndsDone(turns, 0) == EndsDone(turns, i)
  {
    if i == 0 {
      assert turns[..0] == [];
    } else {
      ReceivedSoFar(turns, i - 1);
      assert turns[..i][..i - 1] == turns[..i - 1];
      if turns[i - 1].Tick? {
        EmitTick(turns, i - 1, 0, [], []);
      } else {
        EmitReceive(turns, i - 1, 0, [], Received(turns[..i - 1]));
      }
    }
  }

  lemma GoneOn(turns: seq<Turn>, i: nat)
    requires i <= |turns| && forall j | 0 <= j < i :: GoesOn(turns[j])
    ensures var (events, batch) := EmittedBefore(turns, i);
            && StreamEvents(turns) == events + Emitted(turns, i, |events|, batch)
            && (forall e | e in events :: e.ChunkEvent?)
            && StreamTexts(turns) == Received(turns[..i]) + Texts(turns, i)
            && EndsDone(turns, 0) == EndsDone(turns, i)
  {
    EmittedSoFar(turns, i);
    ReceivedSoFar(turns, i);
  }

  function LastNumber(events: seq<Event>): nat {
    if events == [] then 0 else |events| - 1
  }

  predicate ClosesWith(events: seq<Event>, last: Event) {
    events != [] && events[|events| - 1] == last
  }

  /** How a stream ends is told by the first turn that is neither a tick nor only text. An error is passed on
      as it came; a done chunk or a closed channel makes a done event; the end of the context makes none. The
      provider's text is what was received before that turn. */
  lemma ClosingEvent(turns: seq<Turn>, i: nat)
    requires StopsAt(turns, i)
    ensures var events := StreamEvents(turns);
            match turns[i]
            case Receive(StreamChunk(_, _, Some(error))) => ClosesWith(events, ErrorEvent(LastNumber(events), error))
            case ContextDone => forall e | e in events :: e.ChunkEvent?
            case _ => ClosesWith(events, DoneEvent(LastNumber(events)))
    ensures StreamTexts(turns) == Received(turns[..i])
  {
    GoneOn(turns, i);
    var (events, batch) := EmittedBefore(turns, i);
    EventsAreNumbered(turns, 0, 0, []);
  }

  /** The closing turns after which the response is audited. */
  predicate ClosesWell(turn: Turn) {
    turn.ChannelClosed? || (turn.Receive? && turn.chunk.error.None?)
  }

  /** What is audited is all that was received before such a turn, and nothing if another turn ends the
      stream. */
  lemma AuditedIff(turns: seq<Turn>, i: nat)
    requires StopsAt(turns, i)
    ensures Audited(turns) == if ClosesWell(turns[i]) then Some(Join(Received(turns[..i]))) else None
  {
    ReceivedSoFar(turns, i);
    assert Received(turns[..i]) + [] == Received(turns[..i]);
  }

  /** As long as no turn ends it, the stream has no closing event; and when the last turn is a tick, all that
      was received has been sent. */
  lemma TickSendsAll(turns: seq<Turn>)
    requires forall turn | turn in turns :: GoesOn(turn)
    ensures forall e | e in StreamEvents(turns) :: e.ChunkEvent?
    ensures StreamTexts(turns) == Received(turns) && Audited(turns) == None
    ensures turns != [] && turns[|turns| - 1].Tick? ==>
              Join(ChunkTexts(StreamEvents(turns))) == Join(Received(turns))
  {
    var n := |turns|;
    assert forall j | 0 <= j < n :: turns[j] in turns;
    GoneOn(turns, n);
    assert turns[..n] == turns;
    SentOrBatched(turns, n);
    var (events, batch) := EmittedBefore(turns, n);
    assert StreamEvents(turns) == events + [] == events;
    if n > 0 && turns[n - 1].Tick? {
      assert batch == [];
      assert Join(ChunkTexts(events)) + "" == Join(ChunkTexts(events));
    }
  }

  lemma {:induction false} SentOrBatched(turns: seq<Turn>, i: nat)
    requires i <= |turns| && forall j | 0 <= j < i :: GoesOn(turns[j])
    ensures var (events, batch) := EmittedBefore(turns, i);
            Join(ChunkTexts(events)) + Join(batch) == Join(Received(turns[..i]))
  {
    if i > 0 {
      SentOrBatched(turns, i - 1);
      assert turns[..i][..i - 1] == turns[..i - 1];
      if turns[i - 1].Receive? {
        ReceivedOne(turns, i);
      } else {
        SentOne(turns, i);
      }
    }
  }

  lemma ReceivedOne(turns: seq<Turn>, i: nat)
    requires 0 < i <= |turns| && turns[i - 1].Receive? && turns[..i][..i - 1] == turns[..i - 1]
    requires var (events, batch) := EmittedBefore(turns, i - 1);
             Join(ChunkTexts(events)) + Join(batch) == Join(Received(turns[..i - 1]))
    ensures var (events, batch) := EmittedBefore(turns, i);
            Join(ChunkTexts(events)) + Join(batch) == Join(Received(turns[..i]))
  {
    var (events, batch) := EmittedBefore(turns, i - 1);
    OneMoreBatched(ChunkTexts(events), batch, Received(turns[..i - 1]), turns[i - 1].chunk.text);
  }

  lemma SentOne(turns: seq<Turn>, i: nat)
    requires 0 < i <= |turns| && !turns[i - 1].Receive? && turns[..i][..i - 1] == turns[..i - 1]
    requires var (events, batch) := EmittedBefore(turns, i - 1);
             Join(ChunkTexts(events)) + Join(batch) == Join(Received(turns[..i - 1]))
    ensures var (events, batch) := EmittedBefore(turns, i);
            Join(ChunkTexts(events)) + Join(batch) == Join(Received(turns[..i]))
  {
    var (events, batch) := EmittedBefore(turns, i - 1);
    AllSent(events, batch);
    assert Received(turns[..i]) == Received(turns[..i - 1]) + [] == Received(turns[..i - 1]);
  }

  lemma OneMoreBatched(sent: seq<string>, batch: seq<string>, received: seq<string>, text: string)
    requires Join(sent) + Join(batch) == Join(received)
    ensures Join(sent) + Join(batch + [text]) == Join(received + [text])
  {
    JoinConcat(batch, [text]);
    JoinConcat(received, [text]);
    Associates(Join(sent), Join(batch), Join([text]));
  }

  lemma AllSent(events: seq<Event>, batch: seq<string>)
    ensures Join(ChunkTexts(events + Flush(|events|, batch))) + Join([]) == Join(ChunkTexts(events)) + Join(batch)
  {
    var flushed := Flush(|events|, batch);
    FlushedText(|events|, batch);
    ChunkTextsConcat(events, flushed);
    JoinConcat(ChunkTexts(events), ChunkTexts(flushed));
    assert Join(ChunkTexts(events + flushed)) + Join([]) == Join(ChunkTexts(events + flushed));
  }

  /** What has been sent is never taken back: later turns only add events. */
  lemma EventsOnlyGrow(turns: seq<Turn>, more: seq<Turn>)
    ensures StreamEvents(turns) <= StreamEvents(turns + more)
  {
    EmittedGrows(turns, more, 0, 0, []);
  }

  lemma {:induction false} EmittedGrows(turns: seq<Turn>, more: seq<Turn>, i: nat, seqNo: nat, batch: seq<string>)
    requires i <= |turns|
    ensures Emitted(turns, i, seqNo, batch) <= Emitted(turns + more, i, seqNo, batch)
    decreases |turns| - i
  {
    if i < |turns| && !turns[i].ContextDone? && !Ends(turns[i]) {
      if turns[i].Tick? {
        EmittedGrows(turns, more, i + 1, seqNo + |Flush(seqNo, batch)|, []);
      } else {
        EmittedGrows(turns, more, i + 1, seqNo, batch + [turns[i].chunk.text]);
      }
    }
  }
}
