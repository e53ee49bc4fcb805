/** The conversation log of the chat panel as a value, and the pure rules that
    change it during one chat turn: the optimistic user message, the merge
    updater applied per streamed chunk, and the outcome of a whole turn. */
module ChatLog {

  datatype Sender = User | Bot

  /** One entry of the log: `{ sender, text }`. */
  datatype Message = Message(sender: Sender, text: string)

  predicate EndsWithBot(log: seq<Message>) {
    |log| > 0 && log[|log| - 1].sender == Bot
  }

  /** The log after the optimistic append of the user's own message. */
  function Sent(log: seq<Message>, message: string): (r: seq<Message>)
    ensures |r| == |log| + 1 && r[..|log|] == log && r[|log|] == Message(User, message)
    ensures !EndsWithBot(r)
  {
    log + [Message(User, message)]
  }

  /** The merge updater run for each chunk: when the last message is a bot
      message its text becomes the cumulative `botMessage`, otherwise a new bot
      message holding only `chunkValue` is pushed. Either way the result ends
      with a bot message, at most one longer than before. */
  function Merge(log: seq<Message>, chunkValue: string, botMessage: string): (r: seq<Message>)
    ensures EndsWithBot(r)
    ensures |log| <= |r| <= |log| + 1
  {
    if EndsWithBot(log) then
      log[..|log| - 1] + [log[|log| - 1].(text := botMessage)]
    else
      log + [Message(Bot, chunkValue)]
  }

  /** Merge onto a bot message: same length, the earlier messages untouched,
      and the last one is still a bot message whose text is now `botMessage`. */
  lemma MergeOverwritesBot(log: seq<Message>, chunkValue: string, botMessage: string)
    requires EndsWithBot(log)
    ensures var r := Merge(log, chunkValue, botMessage);
      |r| == |log| && r[..|log| - 1] == log[..|log| - 1] && r[|log| - 1] == Message(Bot, botMessage)
  {
  }

  /** Merge onto a log that does not end with a bot message appends exactly one
      bot message holding the chunk, after an unchanged log. */
  lemma MergeAppendsBot(log: seq<Message>, chunkValue: string, botMessage: string)
    requires !EndsWithBot(log)
    ensures var r := Merge(log, chunkValue, botMessage);
      |r| == |log| + 1 && r[..|log|] == log && r[|log|] == Message(Bot, chunkValue)
  {
  }

  /** Re-applying the cumulative text the last bot message already holds
      changes nothing, whatever the chunk (so an empty final chunk is harmless). */
  lemma MergeSameTextIsNoOp(log: seq<Message>, chunkValue: string, botMessage: string)
    requires EndsWithBot(log) && log[|log| - 1].text == botMessage
    ensures Merge(log, chunkValue, botMessage) == log
  {
  }

  /** c1 ++ ... ++ cn, accumulated from the front as `botMessage += chunkValue`
      does, one chunk at a time. */
  function Concat(chunks: seq<string>): string {
    if chunks == [] then "" else Concat(chunks[..|chunks| - 1]) + chunks[|chunks| - 1]
  }

  /** Concat is ordinary concatenation: the first chunk comes first. */
  lemma {:induction false} ConcatCons(c: string, rest: seq<string>)
    ensures Concat([c] + rest) == c + Concat(rest)
  {
    if rest != [] {
      var init := rest[..|rest| - 1];
      assert ([c] + rest)[..|rest|] == [c] + init;
      ConcatCons(c, init);
    }
  }

  /** Concatenation distributes over splitting the chunk list. */
  lemma {:induction false} ConcatAppend(xs: seq<string>, ys: seq<string>)
    ensures Concat(xs + ys) == Concat(xs) + Concat(ys)
  {
    if ys == [] {
      assert xs + ys == xs;
    } else {
      var init := ys[..|ys| - 1];
      assert (xs + ys)[..|xs + ys| - 1] == xs + init;
      ConcatAppend(xs, init);
    }
  }

  /** The log after the stream loop has read and merged `chunks`, one merge per
      chunk with the cumulative text so far (the closing read not included). */
  function Fold(log: seq<Message>, chunks: seq<string>): (r: seq<Message>)
    ensures |log| <= |r| <= |log| + 1
    ensures chunks != [] ==> EndsWithBot(r)
  {
    if chunks == [] then log
    else Merge(Fold(log, chunks[..|chunks| - 1]), chunks[|chunks| - 1], Concat(chunks))
  }

  /** The log after a whole stream: the merges of the chunks, then the final
      iteration whose read reports `done` and decodes to the empty string. */
  function Stream(log: seq<Message>, chunks: seq<string>): (r: seq<Message>)
    ensures |log| <= |r| <= |log| + 1 && EndsWithBot(r)
  {
    Merge(Fold(log, chunks), "", Concat(chunks))
  }

  /** The closed form of a reply: a trailing bot message is replaced, any other
      log gets the bot message appended. */
  function Replied(log: seq<Message>, text: string): seq<Message> {
    (if EndsWithBot(log) then log[..|log| - 1] else log) + [Message(Bot, text)]
  }

  /** One more read of the stream loop: the prefix of i + 1 chunks is the
      prefix of i chunks followed by one more merge. */
  lemma FoldStep(log: seq<Message>, chunks: seq<string>, i: nat)
    requires i < |chunks|
    ensures Concat(chunks[..i + 1]) == Concat(chunks[..i]) + chunks[i]
    ensures Fold(log, chunks[..i + 1]) == Merge(Fold(log, chunks[..i]), chunks[i], Concat(chunks[..i + 1]))
  {
    var read := chunks[..i + 1];
    assert read[..i] == chunks[..i] && read[i] == chunks[i];
  }

  /** After at least one chunk the log is the closed form with the concatenated
      chunks: a single bot reply, even though every merge but the first
      rewrites the last message. */
  lemma {:induction false} FoldIsReplied(log: seq<Message>, chunks: seq<string>)
    requires chunks != []
    ensures Fold(log, chunks) == Replied(log, Concat(chunks))
  {
    var init := chunks[..|chunks| - 1];
    var c := chunks[|chunks| - 1];
    if init == [] {
      assert Concat(chunks) == Concat(init) + c == c;
      assert Fold(log, init) == log;
      if EndsWithBot(log) {
        MergeOverwritesBot(log, c, Concat(chunks));
        var r := Fold(log, chunks);
        assert r == r[..|log| - 1] + [r[|log| - 1]];
      }
    } else {
      FoldIsReplied(log, init);
      var prev := Fold(log, init);
      MergeOverwritesBot(prev, c, Concat(chunks));
      var r := Fold(log, chunks);
      assert r == r[..|prev| - 1] + [r[|prev| - 1]];
    }
  }

  /** A whole stream always ends with one bot reply holding c1 ++ ... ++ cn;
      for zero chunks the closing read pushes a bot message with empty text. */
  lemma StreamIsReplied(log: seq<Message>, chunks: seq<string>)
    ensures Stream(log, chunks) == Replied(log, Concat(chunks))
  {
    if chunks == [] {
      if EndsWithBot(log) {
        MergeOverwritesBot(log, "", "");
        var r := Stream(log, chunks);
        assert r == r[..|log| - 1] + [r[|log| - 1]];
      }
    } else {
      FoldIsReplied(log, chunks);
      MergeSameTextIsNoOp(Fold(log, chunks), "", Concat(chunks));
    }
  }

  /** The closing read changes nothing once a chunk has been merged. */
  lemma FinalReadIsNoOp(log: seq<Message>, chunks: seq<string>)
    requires chunks != []
    ensures Stream(log, chunks) == Fold(log, chunks)
  {
    FoldIsReplied(log, chunks);
    MergeSameTextIsNoOp(Fold(log, chunks), "", Concat(chunks));
  }

  /** While a reply streams after the user's message, every intermediate log is
      the log so far plus at most one bot message, which holds the text
      received up to that point. */
  lemma AtMostOneBotReply(log: seq<Message>, message: string, chunks: seq<string>)
    ensures forall k :: 0 <= k <= |chunks| ==>
      Fold(Sent(log, message), chunks[..k]) == Sent(log, message) ||
      Fold(Sent(log, message), chunks[..k]) == Sent(log, message) + [Message(Bot, Concat(chunks[..k]))]
    ensures Stream(Sent(log, message), chunks) == Sent(log, message) + [Message(Bot, Concat(chunks))]
  {
    var s := Sent(log, message);
    forall k | 0 <= k <= |chunks|
      ensures Fold(s, chunks[..k]) == s || Fold(s, chunks[..k]) == s + [Message(Bot, Concat(chunks[..k]))]
    {
      if k > 0 {
        FoldIsReplied(s, chunks[..k]);
      }
    }
    StreamIsReplied(s, chunks);
  }

  /** How the body read ends: the reader reports `done`, or a read rejects. */
  datatype Ending = Closed | ReadFailed

  /** What the network does with one request: the fetch rejects, the status is
      not ok, or ok with a body delivering already-decoded chunks in order.
      A missing body is `Body([], ReadFailed)`: reading it throws at once. */
  datatype Response = FetchRejected | NotOk | Body(chunks: seq<string>, ending: Ending)

  /** Every outcome except a body read to its end raises the error. */
  predicate Fails(response: Response) {
    !response.Body? || response.ending == ReadFailed
  }

  /** The log once the response has been handled, starting from the log that
      already holds the user's message: failures roll nothing back. */
  function Received(log: seq<Message>, response: Response): (r: seq<Message>)
    ensures |log| <= |r| <= |log| + 1
    ensures !Fails(response) ==> EndsWithBot(r)
    ensures !response.Body? ==> r == log
  {
    match response
    case FetchRejected => log
    case NotOk => log
    case Body(chunks, Closed) => Stream(log, chunks)
    case Body(chunks, ReadFailed) => Fold(log, chunks)
  }

  /** The log after one whole send of `message`. */
  function TurnLog(log: seq<Message>, message: string, response: Response): (r: seq<Message>)
    ensures |log| + 1 <= |r| <= |log| + 2
    ensures !Fails(response) ==> EndsWithBot(r)
  {
    Received(Sent(log, message), response)
  }

  /** Every turn keeps all earlier messages and the user's own message, and adds
      at most one bot message after it; a successful turn adds exactly
      `user: message` then `bot: c1 ++ ... ++ cn`. */
  lemma TurnShape(log: seq<Message>, message: string, response: Response)
    ensures var r := TurnLog(log, message, response);
      |log| + 1 <= |r| <= |log| + 2 && r[..|log| + 1] == Sent(log, message)
    ensures response.Body? && response.ending == Closed ==>
      TurnLog(log, message, response) == log + [Message(User, message), Message(Bot, Concat(response.chunks))]
  {
    var s := Sent(log, message);
    if response.Body? {
      AtMostOneBotReply(log, message, response.chunks);
      assert response.chunks[..|response.chunks|] == response.chunks;
    }
    var r := TurnLog(log, message, response);
    assert r[..|log| + 1] == s;
  }

  /** A failed turn: the user's message stays; when the failure is a read error
      after some chunks, the bot text merged so far stays as well. */
  lemma FailedTurnKeepsPartialReply(log: seq<Message>, message: string, response: Response)
    requires Fails(response)
    ensures !response.Body? || response.chunks == [] ==>
      TurnLog(log, message, response) == Sent(log, message)
    ensures response.Body? && response.chunks != [] ==>
      TurnLog(log, message, response) == Sent(log, message) + [Message(Bot, Concat(response.chunks))]
  {
    if response.Body? && response.chunks != [] {
      FoldIsReplied(Sent(log, message), response.chunks);
    }
  }

  /** `user`, `bot`, `user`, `bot`, ... of even length. */
  predicate Alternating(log: seq<Message>) {
    |log| % 2 == 0 &&
    forall i :: 0 <= i < |log| ==> log[i].sender == (if i % 2 == 0 then User else Bot)
  }

  /** A sequence of turns, each a message and the response it got. */
  function Replay(log: seq<Message>, turns: seq<(string, Response)>): seq<Message> {
    if turns == [] then log
    else TurnLog(Replay(log, turns[..|turns| - 1]), turns[|turns| - 1].0, turns[|turns| - 1].1)
  }

  /** One successful turn keeps an alternating log alternating, two longer. */
  lemma SuccessfulTurnAlternates(log: seq<Message>, message: string, response: Response)
    requires Alternating(log) && !Fails(response)
    ensures var r := TurnLog(log, message, response); |r| == |log| + 2 && Alternating(r)
  {
    TurnShape(log, message, response);
    var r := TurnLog(log, message, response);
    var n := |log|;
    assert r[n].sender == User && r[n + 1].sender == Bot;
    forall i | 0 <= i < |r| ensures r[i].sender == (if i % 2 == 0 then User else Bot) {
      if i < n {
        assert r[..n + 1][i] == log[i];
      }
    }
  }

  /** N successful sends starting from an empty log leave exactly 2N messages,
      alternating user and bot, starting with user. */
  lemma {:induction false} SuccessfulTurnsAlternate(turns: seq<(string, Response)>)
    requires forall t :: t in turns ==> !Fails(t.1)
    ensures |Replay([], turns)| == 2 * |turns| && Alternating(Replay([], turns))
  {
    if turns != [] {
      var init := turns[..|turns| - 1];
      var last := turns[|turns| - 1];
      assert forall t :: t in init ==> t in turns;
      assert last in turns;
      SuccessfulTurnsAlternate(init);
      SuccessfulTurnAlternates(Replay([], init), last.0, last.1);
    }
  }
}
