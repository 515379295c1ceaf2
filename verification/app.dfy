/** The chat state held by the `App` component and the transitions its event
    handlers run. Network results arrive as parameters: the decoded history
    list, or the chat endpoint's reply to the request a send issues. */
module ChatApp {
  import opened Threads
  import opened Views
  import opened Naming

  /** Outcome of the history request. */
  datatype HistoryReply = HistoryLoaded(data: seq<Thread>) | HistoryFailed

  /** Outcome of the chat request: a success body carrying the authoritative
      thread, a non-2xx body whose `error` may be missing, or a failure to
      fetch or decode the body at all. */
  datatype ChatReply = ThreadReply(thread: Thread) | ErrorReply(error: Option<string>) | TransportFailure

  /** The query a send puts to the chat endpoint. */
  datatype ChatRequest = ChatRequest(threadId: string, prompt: string)

  const ValidationAlert := "Please select a thread and enter a message."
  const DefaultErrorAlert := "Error sending message"

  /** `data.error || "Error sending message"` */
  function ErrorAlert(error: Option<string>): (message: string)
    ensures message != ""
    ensures Truthy(error) ==> message == error.value
    ensures !Truthy(error) ==> message == DefaultErrorAlert
  {
    if Truthy(error) then error.value else DefaultErrorAlert
  }

  class App {
    var threads: seq<string>
    var history: seq<Thread>
    var inputText: string
    var selectedThreadId: Option<string>

    /** The sidebar id list mirrors the ids of the history records. */
    ghost predicate InSync()
      reads this
    {
      threads == ThreadIds(history)
    }

    constructor ()
      ensures threads == [] && history == [] && inputText == "" && selectedThreadId == None
      ensures InSync()
    {
      threads, history, inputText, selectedThreadId := [], [], "", None;
    }

    /** `fetchHistory`: on a decoded list, the history becomes that list and
        the sidebar ids its ids in the same order; when the fetch or the
        decoding fails nothing changes. */
    method FetchHistory(reply: HistoryReply)
      modifies this
      ensures reply.HistoryLoaded? ==> history == reply.data && threads == ThreadIds(reply.data)
      ensures reply.HistoryLoaded? ==> InSync()
      ensures reply.HistoryFailed? ==> history == old(history) && threads == old(threads)
      ensures inputText == old(inputText) && selectedThreadId == old(selectedThreadId)
    {
      if reply.HistoryLoaded? {
        history := reply.data;
        threads := ThreadIds(reply.data);
      }
    }

    /** `handleNewChat`: append the new id and an empty record, select the new id. */
    method NewChat(timestamp: nat)
      modifies this
      ensures threads == old(threads) + [NewThreadId(timestamp)]
      ensures history == old(history) + [Thread(NewThreadId(timestamp), [], map[])]
      ensures selectedThreadId == Some(NewThreadId(timestamp)) && Truthy(selectedThreadId)
      ensures inputText == old(inputText)
      ensures old(InSync()) ==> InSync()
      ensures old(Distinct(threads)) && NewThreadId(timestamp) !in old(threads) ==> Distinct(threads)
    {
      var newThreadId := NewThreadId(timestamp);
      threads := threads + [newThreadId];
      history := history + [Thread(newThreadId, [], map[])];
      selectedThreadId := Some(newThreadId);
      assert old(InSync()) ==> ThreadIds(history) == ThreadIds(old(history)) + [newThreadId];
    }

    /** `handleThreadSelect`: select any id, unchecked. */
    method SelectThread(threadId: string)
      modifies this
      ensures selectedThreadId == Some(threadId)
      ensures threads == old(threads) && history == old(history) && inputText == old(inputText)
    {
      selectedThreadId := Some(threadId);
    }

    /** The input box's change handler. */
    method EditInput(text: string)
      modifies this
      ensures inputText == text
      ensures threads == old(threads) && history == old(history)
      ensures selectedThreadId == old(selectedThreadId)
    {
      inputText := text;
    }

    /** `handleSendMessage`. Without a truthy selected id and a non-empty input
        it only raises the validation alert and issues no request. Otherwise it
        issues one request for the selected thread and the input text (blank
        text included), and `reply` is the answer: a thread reply is merged into
        the history and clears the input; an error body raises an alert; a
        transport failure is only logged. The sidebar ids and the selection
        never change. */
    method SendMessage(reply: ChatReply) returns (request: Option<ChatRequest>, alert: Option<string>)
      modifies this
      ensures request.Some? <==> Truthy(old(selectedThreadId)) && old(inputText) != ""
      ensures request.Some? ==> request.value == ChatRequest(old(selectedThreadId).value, old(inputText))
      ensures request.None? ==> alert == Some(ValidationAlert)
      ensures request.Some? && reply.ThreadReply? ==>
                history == Merge(old(history), reply.thread) && inputText == "" && alert == None
      ensures request.Some? && reply.ErrorReply? ==> alert == Some(ErrorAlert(reply.error))
      ensures request.Some? && reply.TransportFailure? ==> alert == None
      ensures request.None? || !reply.ThreadReply? ==>
                history == old(history) && inputText == old(inputText)
      ensures threads == old(threads) && selectedThreadId == old(selectedThreadId)
      ensures request.Some? && reply.ThreadReply? && old(InSync()) ==>
                (InSync() <==> Contains(old(history), reply.thread.threadId))
    {
      if !Truthy(selectedThreadId) || inputText == "" {
        return None, Some(ValidationAlert);
      }
      request := Some(ChatRequest(selectedThreadId.value, inputText));
      match reply
      case ThreadReply(thread) =>
        var updatedHistory := ReplaceConversations(history, thread.threadId, thread.conversations);
        if !Contains(history, thread.threadId) {
          updatedHistory := updatedHistory + [thread];
        }
        MergeThreadIds(history, thread);
        history := updatedHistory;
        inputText := "";
        alert := None;
      case ErrorReply(error) =>
        alert := Some(ErrorAlert(error));
      case TransportFailure =>
        alert := None;
    }
  }

  /** A sample session: load one thread, select it, send a prompt the server
      answers, then try to send with an empty input. */
  method Session()
  {
    var hi := Conversation("hi", Some("hello"), "2025-01-01");
    var app := new App();
    app.FetchHistory(HistoryLoaded([Thread("a", [hi], map[])]));
    assert app.threads == ["a"];
    app.SelectThread("a");
    assert Transcript(app.history, app.selectedThreadId) == [PromptBubble("hi"), ResponseBubble("hello")];

    app.EditInput("hi");
    var more := Conversation("hi", None, "2025-01-02");
    var request, alert := app.SendMessage(ThreadReply(Thread("a", [hi, more], map[])));
    assert request == Some(ChatRequest("a", "hi"));
    assert app.inputText == "" && app.selectedThreadId == Some("a");
    MergeTranscript([Thread("a", [hi], map[])], Thread("a", [hi, more], map[]));
    assert Transcript(app.history, app.selectedThreadId) == Render([hi, more]);

    request, alert := app.SendMessage(ThreadReply(Thread("a", [], map[])));
    assert request == None && alert == Some(ValidationAlert);
  }
}
