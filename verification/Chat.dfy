/**
 The receiving end of a stream: the message list of frontend/src/stores/chatStore.ts and the handlers
 of frontend/src/hooks/useLLMStream.ts, both updated in place and proved against functions of values.
 */
module Chat {
  import opened Options

  const CURSOR := '\U{258B}'

  datatype Role = User | Assistant | System

  datatype ChatMessage = ChatMessage(id: string, role: Role, content: string, isStreaming: bool, isError: bool)

  /** content.replace(/▋$/, ""): drops one trailing cursor mark. */
  function Strip(content: string): string {
    if content != "" && content[|content| - 1] == CURSOR then content[..|content| - 1] else content
  }

  function AppendText(content: string, text: string): string {
    Strip(content) + text + [CURSOR]
  }

  /** Array.find by id: the first place, or the length. */
  function Find(messages: seq<ChatMessage>, id: string): (i: nat)
    ensures i <= |messages|
    ensures i < |messages| ==> messages[i].id == id
    ensures forall k | 0 <= k < i :: messages[k].id != id
  {
    if messages == [] || messages[0].id == id then 0 else 1 + Find(messages[1..], id)
  }

  type Tabs = map<string, seq<ChatMessage>>

  function MessagesOf(tabs: Tabs, tabId: string): seq<ChatMessage> {
    if tabId in tabs then tabs[tabId] else []
  }

  /** The tabs with one message written: over the one of its id, or new at the end of its tab. */
  function Put(tabs: Tabs, tabId: string, m: ChatMessage): Tabs {
    var messages := MessagesOf(tabs, tabId);
    var i := Find(messages, m.id);
    tabs[tabId := if i == |messages| then messages + [m] else messages[i := m]]
  }

  lemma PutThenFind(tabs: Tabs, tabId: string, m: ChatMessage)
    ensures var messages := MessagesOf(Put(tabs, tabId, m), tabId);
            Find(messages, m.id) < |messages| && messages[Find(messages, m.id)] == m
  {
    var before, after := MessagesOf(tabs, tabId), MessagesOf(Put(tabs, tabId, m), tabId);
    assert after[Find(before, m.id)] == m;
    assert Find(after, m.id) <= Find(before, m.id);
  }

  lemma PutTwice(tabs: Tabs, tabId: string, m: ChatMessage, m': ChatMessage)
    requires m.id == m'.id
    ensures Put(Put(tabs, tabId, m), tabId, m') == Put(tabs, tabId, m')
  {
    PutThenFind(tabs, tabId, m);
    var before, after := MessagesOf(tabs, tabId), MessagesOf(Put(tabs, tabId, m), tabId);
    assert forall k | 0 <= k < Find(before, m.id) :: after[k] == before[k];
    assert after[Find(before, m.id)] == m;
    var i := Find(before, m.id);
    assert Find(after, m.id) == i;
    assert after[i := m'] == if i == |before| then before + [m'] else before[i := m'];
  }

  lemma PutBack(tabs: Tabs, tabId: string, id: string)
    requires Find(MessagesOf(tabs, tabId), id) < |MessagesOf(tabs, tabId)|
    ensures var messages := MessagesOf(tabs, tabId);
            Put(tabs, tabId, messages[Find(messages, id)]) == tabs
  {
    var messages := MessagesOf(tabs, tabId);
    var i := Find(messages, id);
    assert messages[i := messages[i]] == messages;
  }

  class ChatStore {
    var messagesByTab: Tabs

    constructor ()
      ensures messagesByTab == map[]
    {
      messagesByTab := map[];
    }

    method Push(tabId: string, m: ChatMessage)
      modifies this
      ensures messagesByTab == old(messagesByTab)[tabId := MessagesOf(old(messagesByTab), tabId) + [m]]
    {
      if tabId !in messagesByTab {
        messagesByTab := messagesByTab[tabId := []];
      }
      messagesByTab := messagesByTab[tabId := messagesByTab[tabId] + [m]];
    }

    method StartStreamingMessage(tabId: string, uuid: string) returns (id: string)
      requires Find(MessagesOf(messagesByTab, tabId), uuid) == |MessagesOf(messagesByTab, tabId)|
      modifies this
      ensures id == uuid
      ensures messagesByTab == Put(old(messagesByTab), tabId, ChatMessage(uuid, Assistant, "", true, false))
    {
      id := uuid;
      Push(tabId, ChatMessage(id, Assistant, "", true, false));
    }

    /** The message found by its id, if there is one. */
    ghost function Found(tabId: string, msgId: string): Option<ChatMessage>
      reads this
    {
      var messages := MessagesOf(messagesByTab, tabId);
      var i := Find(messages, msgId);
      if i == |messages| then None else Some(messages[i])
    }

    method AppendChunk(tabId: string, msgId: string, text: string)
      modifies this
      ensures messagesByTab ==
              match old(Found(tabId, msgId)) {
                case None => old(messagesByTab)
                case Some(m) => Put(old(messagesByTab), tabId, m.(content := AppendText(m.content, text)))
              }
    {
      if tabId !in messagesByTab { return; }
      var messages := messagesByTab[tabId];
      var i := Find(messages, msgId);
      if i == |messages| { return; }
      var msg := messages[i];
      msg := msg.(content := Strip(msg.content) + text + [CURSOR]);
      messagesByTab := messagesByTab[tabId := messages[i := msg]];
    }

    method FinalizeMessage(tabId: string, msgId: string)
      modifies this
      ensures messagesByTab ==
              match old(Found(tabId, msgId)) {
                case None => old(messagesByTab)
                case Some(m) => Put(old(messagesByTab), tabId, m.(content := Strip(m.content), isStreaming := false))
              }
    {
      if tabId !in messagesByTab { return; }
      var messages := messagesByTab[tabId];
      var i := Find(messages, msgId);
      if i == |messages| { return; }
      var msg := messages[i];
      msg := msg.(content := Strip(msg.content));
      msg := msg.(isStreaming := false);
      messagesByTab := messagesByTab[tabId := messages[i := msg]];
    }

    method SetStreamError(tabId: string, msgId: Option<string>, errorText: string, uuid: string)
      requires msgId.None? ==> Find(MessagesOf(messagesByTab, tabId), uuid) == |MessagesOf(messagesByTab, tabId)|
      modifies this
      ensures msgId.None? ==>
                messagesByTab == Put(old(messagesByTab), tabId, ChatMessage(uuid, Assistant, errorText, false, true))
      ensures msgId.Some? ==>
                messagesByTab == match old(Found(tabId, msgId.value)) {
                                   case None => old(messagesByTab)[tabId := MessagesOf(old(messagesByTab), tabId)]
                                   case Some(m) => Put(old(messagesByTab), tabId, Marked(m))
                                 }
    {
      if tabId !in messagesByTab {
        messagesByTab := messagesByTab[tabId := []];
      }
      if msgId.Some? {
        var messages := messagesByTab[tabId];
        var i := Find(messages, msgId.value);
        if i < |messages| {
          var msg := messages[i].(content := Interrupted(messages[i].content), isError := true, isStreaming := false);
          messagesByTab := messagesByTab[tabId := messages[i := msg]];
        }
      } else {
        Push(tabId, ChatMessage(uuid, Assistant, errorText, false, true));
      }
    }
  }

  /** The message when its stream is interrupted. */
  function Marked(m: ChatMessage): ChatMessage {
    m.(content := Interrupted(m.content), isError := true, isStreaming := false)
  }

  function Interrupted(content: string): string {
    Strip(content) + "\n\n(stream interrupted)"
  }

  // ----- the hook, seen from outside -----

  datatype Shown = Nothing | Streaming(content: string)

  datatype View = View(nextSeq: nat, pending: map<nat, string>, shown: Shown)

  const AT_REST := View(0, map[], Nothing)

  function Append(shown: Shown, text: string): Shown {
    Streaming(AppendText(if shown.Nothing? then "" else shown.content, text))
  }

  lemma RemovingShrinks(m: map<nat, string>, k: nat)
    requires k in m
    ensures |m - {k}| < |m|
  {
    assert (m - {k}).Keys == m.Keys - {k};
  }

  function DrainOne(v: View): (w: View)
    requires v.nextSeq in v.pending
    ensures |w.pending| < |v.pending|
  {
    RemovingShrinks(v.pending, v.nextSeq);
    View(v.nextSeq + 1, v.pending - {v.nextSeq}, Append(v.shown, v.pending[v.nextSeq]))
  }

  function Drain(v: View): View
    decreases |v.pending|
  {
    if v.nextSeq in v.pending then Drain(DrainOne(v)) else v
  }

  /** The view once its next chunk is applied, before what waits is drained. */
  function Applied(v: View, text: string): View {
    View(v.nextSeq + 1, v.pending, Append(v.shown, text))
  }

  function Arrive(v: View, seqNo: nat, text: string): View {
    if seqNo == v.nextSeq then Drain(Applied(v, text))
    else v.(pending := v.pending[seqNo := text])
  }

  /** The streamed message m when it holds what is shown, and the tabs with it. */
  function Holding(m: ChatMessage, shown: Shown): ChatMessage {
    if shown.Nothing? then m else m.(content := shown.content)
  }

  function Render(tabs: Tabs, tabId: string, m: ChatMessage, shown: Shown): Tabs {
    if shown.Nothing? then tabs else Put(tabs, tabId, Holding(m, shown))
  }

  lemma RenderThenFind(tabs: Tabs, tabId: string, m: ChatMessage, shown: Shown)
    requires shown.Streaming?
    ensures var messages := MessagesOf(Render(tabs, tabId, m, shown), tabId);
            Find(messages, m.id) < |messages| && messages[Find(messages, m.id)] == Holding(m, shown)
  {
    PutThenFind(tabs, tabId, Holding(m, shown));
  }

  lemma RenderTwice(tabs: Tabs, tabId: string, m: ChatMessage, shown: Shown, shown': Shown)
    requires shown'.Streaming?
    ensures Render(Render(tabs, tabId, m, shown), tabId, Holding(m, shown), shown') == Render(tabs, tabId, m, shown')
  {
    if shown.Streaming? {
      PutTwice(tabs, tabId, Holding(m, shown), Holding(m, shown'));
    }
  }

  /** The tabs when the streamed message is finished with what is shown: without its mark, and no longer
      streaming. */
  function Finished(tabs: Tabs, tabId: string, m: ChatMessage, shown: Shown): Tabs {
    match shown
    case Nothing => tabs
    case Streaming(content) => Put(tabs, tabId, m.(content := Strip(content), isStreaming := false))
  }

  lemma FinishedRendered(tabs: Tabs, tabId: string, m: ChatMessage, shown: Shown)
    ensures Finished(Render(tabs, tabId, m, shown), tabId, Holding(m, shown), shown) == Finished(tabs, tabId, m, shown)
  {
    if shown.Streaming? {
      PutTwice(tabs, tabId, Holding(m, shown), m.(content := Strip(shown.content), isStreaming := false));
    }
  }

  class LLMStreamHook {
    const tabId: string
    const store: ChatStore
    var msgId: Option<string>
    var nextSeq: nat
    var pending: map<nat, string>

    constructor (tabId: string, store: ChatStore)
      ensures this.tabId == tabId && this.store == store
      ensures Valid() && ViewOf() == AT_REST
    {
      this.tabId := tabId;
      this.store := store;
      msgId, nextSeq, pending := None, 0, map[];
    }

    ghost function Messages(): seq<ChatMessage>
      reads this, store
    {
      MessagesOf(store.messagesByTab, tabId)
    }

    /** The message being streamed is in the tab. */
    ghost predicate Valid()
      reads this, store
    {
      msgId.Some? ==> Find(Messages(), msgId.value) < |Messages()|
    }

    ghost predicate Unused(uuid: string)
      reads this, store
    {
      Find(Messages(), uuid) == |Messages()|
    }

    ghost function ViewOf(): View
      reads this, store
      requires Valid()
    {
      View(nextSeq, pending,
           if msgId.None? then Nothing else Streaming(Messages()[Find(Messages(), msgId.value)].content))
    }

    /** The streamed message, or the one a first chunk would start. */
    ghost function Current(uuid: string): ChatMessage
      reads this, store
      requires Valid()
    {
      if msgId.None? then ChatMessage(uuid, Assistant, "", true, false)
      else Messages()[Find(Messages(), msgId.value)]
    }

    /** The store is `tabs` with the streamed message m holding what is shown. */
    ghost predicate Renders(tabs: Tabs, m: ChatMessage, uuid: string)
      reads this, store
    {
      && Valid() && (msgId.None? ==> Unused(uuid))
      && msgId == (if ViewOf().shown.Nothing? then None else Some(m.id))
      && Current(uuid) == Holding(m, ViewOf().shown)
      && store.messagesByTab == Render(tabs, tabId, m, ViewOf().shown)
    }

    /** Start the message if there is none, append the text, count the chunk. */
    method Apply(text: string, uuid: string)
      requires Valid() && (msgId.None? ==> Unused(uuid))
      modifies this`msgId, this`nextSeq, store
      ensures Renders(old(store.messagesByTab), old(Current(uuid)), uuid)
      ensures ViewOf() == Applied(old(ViewOf()), text)
    {
      ghost var tabs, m := store.messagesByTab, Current(uuid);
      if msgId.None? {
        var id := store.StartStreamingMessage(tabId, uuid);
        msgId := Some(id);
        PutThenFind(tabs, tabId, m);
      }
      ghost var started := store.messagesByTab;
      store.AppendChunk(tabId, msgId.value, text);
      nextSeq := nextSeq + 1;
      ghost var m' := m.(content := AppendText(m.content, text));
      PutThenFind(started, tabId, m');
      PutTwice(tabs, tabId, m, m');
      assert Current(uuid) == m';
      assert ViewOf() == Applied(old(ViewOf()), text);
      assert store.messagesByTab == Put(tabs, tabId, m');
    }

    lemma RendersNow(uuid: string)
      requires Valid() && (msgId.None? ==> Unused(uuid))
      ensures Renders(store.messagesByTab, Current(uuid), uuid)
    {
      if msgId.Some? {
        PutBack(store.messagesByTab, tabId, msgId.value);
      }
    }

    method FlushPending(uuid: string, ghost tabs: Tabs, ghost m: ChatMessage)
      requires Renders(tabs, m, uuid)
      modifies this, store
      ensures Renders(tabs, m, uuid) && ViewOf() == Drain(old(ViewOf()))
    {
      ghost var start := ViewOf();
      while nextSeq in pending
        invariant Renders(tabs, m, uuid)
        invariant Drain(ViewOf()) == Drain(start)
        decreases |pending|
      {
        RemovingShrinks(pending, nextSeq);
        ghost var shown := ViewOf().shown;
        ApplyNext(uuid);
        RenderTwice(tabs, tabId, m, shown, ViewOf().shown);
        RenderThenFind(tabs, tabId, m, ViewOf().shown);
      }
    }

    /** The body of the loop. */
    method ApplyNext(uuid: string)
      requires Valid() && (msgId.None? ==> Unused(uuid)) && nextSeq in pending
      modifies this, store
      ensures Renders(old(store.messagesByTab), old(Current(uuid)), uuid)
      ensures ViewOf() == DrainOne(old(ViewOf()))
    {
      var text := pending[nextSeq];
      pending := pending - {nextSeq};
      Apply(text, uuid);
    }

    /** The chunk at the place, and what waits behind it. */
    method HandleInOrder(text: string, uuid: string)
      requires Valid() && (msgId.None? ==> Unused(uuid))
      modifies this, store
      ensures Renders(old(store.messagesByTab), old(Current(uuid)), uuid)
      ensures ViewOf() == Drain(Applied(old(ViewOf()), text))
    {
      ghost var tabs, m := store.messagesByTab, Current(uuid);
      Apply(text, uuid);
      FlushPending(uuid, tabs, m);
    }

    /** The store is the one before with the streamed message holding what is shown now. */
    method HandleChunk(seqNo: nat, text: string, uuid: string)
      requires Valid() && (msgId.None? ==> Unused(uuid))
      modifies this, store
      ensures Renders(old(store.messagesByTab), old(Current(uuid)), uuid)
      ensures ViewOf() == Arrive(old(ViewOf()), seqNo, text)
    {
      if seqNo == nextSeq {
        HandleInOrder(text, uuid);
      } else {
        pending := pending[seqNo := text];
        RendersNow(uuid);
      }
    }

    /** Afterwards the hook is at rest, and what was streaming is final: without its mark, and no longer
        streaming. Nothing else in the store has changed. */
    method HandleDone(uuid: string)
      requires Valid() && (msgId.None? ==> Unused(uuid))
      modifies this, store
      ensures Valid() && ViewOf() == AT_REST
      ensures store.messagesByTab ==
              Finished(old(store.messagesByTab), tabId, old(Current(uuid)), Drain(old(ViewOf())).shown)
    {
      ghost var tabs, m := store.messagesByTab, Current(uuid);
      RendersNow(uuid);
      FlushPending(uuid, tabs, m);
      Finish(uuid);
      FinishedRendered(tabs, tabId, m, Drain(old(ViewOf())).shown);
    }

    /** What is left to do when nothing waits. */
    method Finish(uuid: string)
      requires Valid() && (msgId.None? ==> Unused(uuid))
      modifies this, store
      ensures Valid() && ViewOf() == AT_REST
      ensures store.messagesByTab ==
              Finished(old(store.messagesByTab), tabId, old(Current(uuid)), old(ViewOf()).shown)
    {
      if msgId.Some? {
        store.FinalizeMessage(tabId, msgId.value);
      }
      msgId := None;
      nextSeq := 0;
      pending := map[];
    }

    /** Afterwards the hook is at rest; a message already streaming keeps its text and is marked, otherwise
        the error becomes a message of its own. Nothing else in the store has changed. */
    method HandleError(error: string, uuid: string)
      requires Valid() && (msgId.None? ==> Unused(uuid))
      modifies this, store
      ensures Valid() && ViewOf() == AT_REST
      ensures store.messagesByTab ==
              Put(old(store.messagesByTab), tabId, old(Current(uuid)).(
                content := match old(ViewOf()).shown {
                  case Nothing => error
                  case Streaming(content) => Interrupted(content)
                },
                isError := true, isStreaming := false))
    {
      store.SetStreamError(tabId, msgId, error, uuid);
      msgId := None;
      nextSeq := 0;
      pending := map[];
    }
  }
}
