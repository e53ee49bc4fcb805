/** The chat panel component: its four pieces of state, the key-value store
    its log is persisted in, and the handlers that change them. React's state
    setters are modelled as applied at once and in order, and the effect that
    persists the log as running after every change of the log. */
module ChatPanel {
  import JsString
  import opened ChatLog

  datatype Option<T> = None | Some(value: T)

  /** The fixed key the log is stored under. */
  const StorageKey: string := "chatMessages"

  /** The one user-visible error message, whatever went wrong. */
  const ErrorText: string :=
    "An error occurred while communicating with the server. Please try again."

  /** The send guard: `input.trim() === ''`. */
  predicate IsBlank(input: string): (r: bool)
    ensures r <==> JsString.AllSpace(input, JsString.IsTrimmed)
  {
    JsString.TrimEmptyIffAllSpace(input, JsString.IsTrimmed);
    JsString.Trim(input) == ""
  }

  /** The saved log the mount effect adopts: only an entry that exists and is
      not the empty log (the stored text `'[]'`). */
  function SavedLog(store: map<string, seq<Message>>): (r: Option<seq<Message>>)
    ensures r.Some? ==> StorageKey in store && r.value == store[StorageKey] && r.value != []
    ensures r.None? ==> StorageKey !in store || store[StorageKey] == []
  {
    if StorageKey in store && store[StorageKey] != [] then Some(store[StorageKey]) else None
  }

  /** The log after the mount effect, starting from `current`. */
  function AfterLoad(current: seq<Message>, store: map<string, seq<Message>>): (r: seq<Message>)
    ensures r == current || (StorageKey in store && r == store[StorageKey] && r != [])
    ensures StorageKey !in store ==> r == current
  {
    match SavedLog(store)
    case Some(log) => log
    case None => current
  }

  /** Persisting the log and mounting a fresh panel on that store reproduces
      the log, the empty one included; entries under other keys do not matter. */
  lemma ReloadRestores(store: map<string, seq<Message>>, log: seq<Message>)
    ensures AfterLoad([], store[StorageKey := log]) == log
    ensures SavedLog(store[StorageKey := log]).Some? <==> log != []
  {
  }

  /** A write of the key replaces whatever an earlier write of it left. */
  lemma RewriteKey(base: map<string, seq<Message>>, current: map<string, seq<Message>>, log: seq<Message>)
    requires current == base || (StorageKey in current && current == base[StorageKey := current[StorageKey]])
    ensures current[StorageKey := log] == base[StorageKey := log]
  {
  }

  class Panel {
    var messages: seq<Message>
    var input: string
    var isLoading: bool
    var error: Option<string>
    /** Stands for the browser's local storage. */
    var store: map<string, seq<Message>>

    /** The store holds the current log under the fixed key. */
    ghost predicate Persisted()
      reads this
    {
      StorageKey in store && store[StorageKey] == messages
    }

    /** The initial state of the four `useState` hooks; `saved` is what local
        storage holds when the panel mounts. */
    constructor (saved: map<string, seq<Message>>)
      ensures messages == [] && input == "" && !isLoading && error == None
      ensures store == saved
    {
      messages := [];
      input := "";
      isLoading := false;
      error := None;
      store := saved;
    }

    /** The two mount effects: adopt a saved non-empty log, then persist the log. */
    method Load()
      modifies this`messages, this`store
      ensures messages == AfterLoad(old(messages), old(store))
      ensures store == old(store)[StorageKey := messages] && Persisted()
    {
      var saved := if StorageKey in store then Some(store[StorageKey]) else None;
      if saved.Some? && saved.value != [] {
        messages := saved.value;
      }
      store := store[StorageKey := messages];
    }

    /** `handlePromptChange`: the input field's new value. */
    method ChangeInput(value: string)
      modifies this`input
      ensures input == value
    {
      input := value;
    }

    /** `handleSend` with the synchronous start of `handleMessage`: blank input
        is ignored; otherwise the panel starts loading, clears the error and
        appends the raw, untrimmed input as a user message. It does not look at
        `isLoading`: only the disabled controls keep a second send out. */
    method Send() returns (sent: bool)
      modifies this
      ensures sent <==> !IsBlank(old(input))
      ensures !sent ==> unchanged(this)
      ensures sent ==> isLoading && error == None && input == old(input)
      ensures sent ==> messages == Sent(old(messages), old(input))
      ensures sent ==> store == old(store)[StorageKey := messages] && Persisted()
    {
      if JsString.Trim(input) == "" {
        return false;
      }
      isLoading := true;
      error := None;
      messages := messages + [Message(User, input)];
      store := store[StorageKey := messages];
      sent := true;
    }

    /** One run of the merge updater, followed by the persist effect. */
    method ApplyChunk(chunkValue: string, botMessage: string)
      modifies this`messages, this`store
      ensures messages == Merge(old(messages), chunkValue, botMessage)
      ensures store == old(store)[StorageKey := messages] && Persisted()
    {
      var updated := messages;
      var last := |updated| - 1;
      if last >= 0 && updated[last].sender == Bot {
        updated := updated[last := updated[last].(text := botMessage)];
      } else {
        updated := updated + [Message(Bot, chunkValue)];
      }
      messages := updated;
      store := store[StorageKey := messages];
    }

    /** The `while (!done)` loop over the body reader. Read number i + 1 yields
        chunks[i]; after the last chunk the read either reports `done` (and
        decodes to "") or, for `ReadFailed`, rejects. Before read i + 1 the log
        is `Fold(old(messages), chunks[..i])`. */
    method ReadStream(chunks: seq<string>, ending: Ending) returns (failed: bool)
      modifies this`messages, this`store
      ensures failed <==> ending == ReadFailed
      ensures messages == if failed then Fold(old(messages), chunks) else Stream(old(messages), chunks)
      ensures store == if failed && chunks == [] then old(store) else old(store)[StorageKey := messages]
    {
      ghost var start := messages;
      var done := false;
      var botMessage := "";
      var i := 0;
      failed := false;
      while !done
        invariant 0 <= i <= |chunks|
        invariant botMessage == Concat(chunks[..i])
        invariant messages == if done then Stream(start, chunks) else Fold(start, chunks[..i])
        invariant done ==> i == |chunks| && ending == Closed
        invariant store == if i == 0 && !done then old(store) else old(store)[StorageKey := messages]
        decreases |chunks| - i, !done
      {
        if i == |chunks| && ending == ReadFailed {
          // the read rejects: the exception leaves the loop
          assert chunks[..i] == chunks;
          failed := true;
          return;
        }
        var value: string;
        if i < |chunks| {
          value, done := chunks[i], false;
        } else {
          value, done := "", true;
        }
        var chunkValue := value;
        botMessage := botMessage + chunkValue;
        ghost var before := store;
        ApplyChunk(chunkValue, botMessage);
        RewriteKey(old(store), before, messages);
        if !done {
          FoldStep(start, chunks, i);
          i := i + 1;
        } else {
          assert chunks[..i] == chunks && botMessage == Concat(chunks);
        }
      }
      assert chunks[..i] == chunks;
    }

    /** The `catch` branch: the fixed error message; nothing is rolled back. */
    method Fail()
      modifies this`error
      ensures error == Some(ErrorText)
    {
      error := Some(ErrorText);
    }

    /** The `finally` branch, run on every outcome. */
    method Finish()
      modifies this`isLoading, this`input
      ensures !isLoading && input == ""
    {
      isLoading := false;
      input := "";
    }

    /** The asynchronous rest of `handleMessage`: fetch, check the status,
        stream the body, catch any failure, and clean up in every case. */
    method Respond(response: Response)
      modifies this
      ensures messages == Received(old(messages), response)
      ensures error == if Fails(response) then Some(ErrorText) else old(error)
      ensures !isLoading && input == ""
      ensures store == if response.Body? && (response.ending == Closed || response.chunks != [])
                       then old(store)[StorageKey := messages] else old(store)
    {
      match response {
        case FetchRejected =>
          Fail();
        case NotOk =>
          Fail();
        case Body(chunks, ending) =>
          var failed := ReadStream(chunks, ending);
          if failed {
            Fail();
          }
      }
      Finish();
    }

    /** A whole send: the blank guard, then one turn against `response`. */
    method HandleSend(response: Response)
      modifies this
      ensures IsBlank(old(input)) ==> unchanged(this)
      ensures !IsBlank(old(input)) ==>
        messages == TurnLog(old(messages), old(input), response) &&
        !isLoading && input == "" &&
        error == (if Fails(response) then Some(ErrorText) else None) &&
        store == old(store)[StorageKey := messages] && Persisted()
    {
      var sent := Send();
      if sent {
        ghost var afterSend := store;
        Respond(response);
        assert afterSend[StorageKey := messages] == old(store)[StorageKey := messages];
      }
    }

    /** `handleNewChat`: the log and its stored entry become empty, whether or
        not a send is in flight. */
    method NewChat()
      modifies this`messages, this`store
      ensures messages == [] && store == old(store)[StorageKey := []] && Persisted()
    {
      messages := [];
      store := store[StorageKey := []];
    }
  }

  /** Chunks "Hel", "lo " and "world" after the user's "hi": after two reads
      the log holds one bot message "Hello ", and the turn ends with the single
      bot message "Hello world". */
  lemma HelloWorldTurn()
    ensures Fold(Sent([], "hi"), ["Hel", "lo "]) == [Message(User, "hi"), Message(Bot, "Hello ")]
    ensures TurnLog([], "hi", Body(["Hel", "lo ", "world"], Closed)) ==
      [Message(User, "hi"), Message(Bot, "Hello world")]
  {
    var chunks := ["Hel", "lo ", "world"];
    TurnShape([], "hi", Body(chunks, Closed));
    FoldIsReplied(Sent([], "hi"), chunks[..2]);
    assert chunks[..2] == [chunks[0]] + ["lo "] && chunks == chunks[..2] + ["world"];
    ConcatCons("Hel", ["lo "]);
    ConcatAppend(chunks[..2], ["world"]);
    assert Concat(chunks[..2]) == "Hello ";
    assert Concat(chunks) == "Hello world";
  }
}
