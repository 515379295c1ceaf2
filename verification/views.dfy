/** What the component derives from its state for display: the sidebar
    preview of each thread, the empty-thread placeholder and the transcript
    of the selected thread. */
module Views {
  import opened Threads

  /** Sidebar text of a thread that has no usable first prompt. */
  const Fallback := "How can I help you today?"

  /** One chat bubble of the transcript. */
  datatype Bubble = PromptBubble(text: string) | ResponseBubble(text: string)

  /** Sidebar preview of thread `id`: the first conversation's prompt when
      there is a record with that id, it has a conversation and that prompt is
      truthy; the fallback text otherwise. */
  function Preview(h: seq<Thread>, id: string): (text: string)
    ensures text != ""
    ensures text != Fallback ==>
              Find(h, id).Some? && |Find(h, id).value.conversations| > 0
              && text == Find(h, id).value.conversations[0].prompt
    ensures Find(h, id).Some? && |Find(h, id).value.conversations| > 0
            && Find(h, id).value.conversations[0].prompt != "" ==>
              text == Find(h, id).value.conversations[0].prompt
  {
    match Find(h, id)
    case None => Fallback
    case Some(t) =>
      if |t.conversations| > 0 && t.conversations[0].prompt != "" then t.conversations[0].prompt
      else Fallback
  }

  /** The sidebar: one preview per entry of `threads`, in order. */
  function Sidebar(threads: seq<string>, h: seq<Thread>): (previews: seq<string>)
    ensures |previews| == |threads|
    ensures forall i :: 0 <= i < |threads| ==> previews[i] == Preview(h, threads[i])
  {
    if threads == [] then [] else [Preview(h, threads[0])] + Sidebar(threads[1..], h)
  }

  /** Number of conversations whose response is truthy. */
  function Answered(cs: seq<Conversation>): nat
  {
    if cs == [] then 0 else (if Truthy(cs[0].response) then 1 else 0) + Answered(cs[1..])
  }

  /** The bubbles of one conversation: its prompt, then its response if truthy. */
  function Items(c: Conversation): seq<Bubble>
  {
    [PromptBubble(c.prompt)] + if Truthy(c.response) then [ResponseBubble(c.response.value)] else []
  }

  /** The bubbles of a conversation list, conversation by conversation. */
  function Render(cs: seq<Conversation>): (r: seq<Bubble>)
    ensures |r| == |cs| + Answered(cs)
    ensures cs != [] ==> r[0] == PromptBubble(cs[0].prompt)
    ensures forall i :: 0 <= i < |r| && r[i].ResponseBubble? ==>
              r[i].text != "" && 0 < i && r[i - 1].PromptBubble?
  {
    if cs == [] then [] else Items(cs[0]) + Render(cs[1..])
  }

  /** The transcript area: nothing unless a thread is selected (truthy id) and
      a record with that id exists; then that record's bubbles. */
  function Transcript(h: seq<Thread>, selected: Option<string>): (r: seq<Bubble>)
    ensures r != [] ==> Truthy(selected) && Contains(h, selected.value)
    ensures Truthy(selected) && Contains(h, selected.value) ==>
              r == Render(Find(h, selected.value).value.conversations)
    ensures Truthy(selected) && Contains(h, selected.value) ==>
              |r| == |Find(h, selected.value).value.conversations|
                     + Answered(Find(h, selected.value).value.conversations)
  {
    if !Truthy(selected) then []
    else
      match Find(h, selected.value)
      case None => []
      case Some(t) => Render(t.conversations)
  }

  /** The "Hello, how can I help you today?" placeholder: shown exactly when
      a thread is selected, found, and its transcript is empty. */
  function ShowsPlaceholder(h: seq<Thread>, selected: Option<string>): (shown: bool)
    ensures shown <==> Truthy(selected) && Contains(h, selected.value) && Transcript(h, selected) == []
  {
    Truthy(selected) && Find(h, selected.value).Some?
    && |Find(h, selected.value).value.conversations| == 0
  }

  lemma {:induction false} RenderAppend(a: seq<Conversation>, b: seq<Conversation>)
    ensures Render(a + b) == Render(a) + Render(b)
    ensures Answered(a + b) == Answered(a) + Answered(b)
  {
    if a == [] {
      assert a + b == b;
    } else {
      assert (a + b)[1..] == a[1..] + b;
      RenderAppend(a[1..], b);
    }
  }

  /** Where conversation `k` lands in the transcript: its prompt bubble sits
      after the `k` earlier prompts and the earlier answered responses, and the
      bubble right after it is a response bubble exactly when its response is
      truthy, holding that response. */
  lemma RenderAt(cs: seq<Conversation>, k: nat)
    requires k < |cs|
    ensures k + Answered(cs[..k]) < |Render(cs)|
    ensures Render(cs)[k + Answered(cs[..k])] == PromptBubble(cs[k].prompt)
    ensures (k + Answered(cs[..k]) + 1 < |Render(cs)|
             && Render(cs)[k + Answered(cs[..k]) + 1].ResponseBubble?) <==> Truthy(cs[k].response)
    ensures Truthy(cs[k].response) ==>
              Render(cs)[k + Answered(cs[..k]) + 1] == ResponseBubble(cs[k].response.value)
  {
    assert cs == cs[..k] + cs[k..];
    RenderAppend(cs[..k], cs[k..]);
    assert Render(cs[k..]) == Items(cs[k]) + Render(cs[k + 1..]);
  }

  /** The sidebar and the transcript agree: when thread `id` has a conversation
      with a non-empty first prompt, its preview is the text of the first bubble
      its transcript shows; otherwise the preview is the fallback. */
  lemma PreviewMatchesTranscript(h: seq<Thread>, id: string)
    requires id != ""
    ensures Transcript(h, Some(id)) != [] && Transcript(h, Some(id))[0].text != "" ==>
              Preview(h, id) == Transcript(h, Some(id))[0].text
    ensures Transcript(h, Some(id)) == [] || Transcript(h, Some(id))[0].text == "" ==>
              Preview(h, id) == Fallback
  {
  }

  /** An id with no record renders an empty transcript rather than failing. */
  lemma UnknownThreadRendersNothing(h: seq<Thread>, id: string)
    requires !Contains(h, id)
    ensures Transcript(h, Some(id)) == []
    ensures !ShowsPlaceholder(h, Some(id))
    ensures Preview(h, id) == Fallback
  {
  }

  /** A freshly created, empty thread shows the placeholder and the fallback
      preview, and leaves every other thread's preview and transcript as it was. */
  lemma NewThreadViews(h: seq<Thread>, id: string, other: string)
    requires id != "" && !Contains(h, id)
    ensures ShowsPlaceholder(h + [Thread(id, [], map[])], Some(id))
    ensures Preview(h + [Thread(id, [], map[])], id) == Fallback
    ensures other != id ==> Preview(h + [Thread(id, [], map[])], other) == Preview(h, other)
    ensures other != id ==> Transcript(h + [Thread(id, [], map[])], Some(other)) == Transcript(h, Some(other))
  {
    FindAppend(h, Thread(id, [], map[]), id);
    FindAppend(h, Thread(id, [], map[]), other);
  }

  /** After a successful send, the transcript of the reply's thread is exactly
      the rendering of the server's conversation list. */
  lemma MergeTranscript(h: seq<Thread>, t: Thread)
    requires t.threadId != ""
    ensures Transcript(Merge(h, t), Some(t.threadId)) == Render(t.conversations)
    ensures ShowsPlaceholder(Merge(h, t), Some(t.threadId)) <==> t.conversations == []
  {
    MergeFind(h, t);
  }
}
