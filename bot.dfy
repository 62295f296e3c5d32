/** The bot's per-message handler and its history command over the shared
    history table (Bot.py:26-27, 47-147). The chat client, the completion
    API and the history file are outside the model: the completion API is a
    function from prompt parts to a reply or an exception, and each write of
    the history file is recorded as a ghost snapshot of the table. */
module Bot {
  import opened Wrappers
  import opened History
  import Gate
  import Prompt
  import opened Attachments
  import Chunking

  /** An incoming chat message. */
  datatype Message = Message(
    authorId: nat,
    channelId: nat,
    content: string,
    attachments: seq<Attachment>)

  const ErrorPrefix: string := "\U{274C} Error: "
  const ClearedAck: string := "\U{2705} Your chat history has been cleared!"
  const NoHistoryAck: string := "You don't have any chat history yet!"

  /** `f"❌ Error: {str(e)}"` */
  function ErrorReply(message: string): string
  {
    ErrorPrefix + message
  }

  /** The prompt parts handed to the completion API for a message from a
      user whose stored history is `history`. */
  function Payload(history: seq<Turn>, msg: Message): Result<seq<Part>>
  {
    Parts(Prompt.Head(history, msg.content), msg.attachments)
  }

  /** The reply the handler obtains: the completion of the payload, or the
      first exception raised while reading attachments or generating. */
  function Outcome(history: seq<Turn>, msg: Message, generate: seq<Part> -> Result<string>): Result<string>
  {
    match Payload(history, msg)
    case Error(e) => Error(e)
    case Ok(parts) => generate(parts)
  }

  /** The completion API sees the payload only when every attachment read;
      otherwise the attachment's exception is the outcome. */
  lemma OutcomeSpec(history: seq<Turn>, msg: Message, generate: seq<Part> -> Result<string>)
    ensures FirstFailure(msg.attachments).Some? ==>
      Outcome(history, msg, generate) == Error(FirstFailure(msg.attachments).value)
    ensures FirstFailure(msg.attachments).None? ==>
      Payload(history, msg).Ok? &&
      Outcome(history, msg, generate) == generate(Payload(history, msg).value)
  {
    PartsShape(Prompt.Head(history, msg.content), msg.attachments);
  }

  /** The body of the `try` up to the completion call (Bot.py:66-114):
      build the context, add the current turn, read the attachments and ask
      the completion API. */
  method Complete(history: seq<Turn>, msg: Message, generate: seq<Part> -> Result<string>)
    returns (outcome: Result<string>)
    ensures outcome == Outcome(history, msg, generate)
  {
    var context := Prompt.BuildContext(history);
    var head := context + Prompt.CurrentTurn(msg.content);
    var parts := BuildParts(head, msg.attachments);
    if parts.Error? {
      return Error(parts.message);
    }
    outcome := generate(parts.value);
  }

  class ChatBot {
    /** `bot.user`: the bot's own user id. */
    const botUserId: nat
    /** `CHANNEL_ID`; 0 serves every channel. */
    const channelFilter: int

    /** `chat_histories` */
    var histories: Table
    /** The tables written by `save_history`, oldest first. */
    ghost var saves: seq<Table>

    constructor (botUserId: nat, channelFilter: int)
      ensures this.botUserId == botUserId && this.channelFilter == channelFilter
      ensures histories == map[] && saves == []
    {
      this.botUserId := botUserId;
      this.channelFilter := channelFilter;
      histories := map[];
      saves := [];
    }

    /** `save_history()`: the whole table is written, unless writing the
        file raises `failure`, in which case nothing is recorded. */
    method SaveHistory(failure: Option<string>)
      modifies this`saves
      ensures saves == if failure.None? then old(saves) + [histories] else old(saves)
    {
      if failure.None? {
        saves := saves + [histories];
      }
    }

    /** Bot.py:59-60: a user seen for the first time gets an empty list;
        an existing entry is left as it is. Nothing is saved. */
    method EnsureEntry(key: string)
      modifies this`histories
      ensures key in histories
      ensures histories == if key in old(histories) then old(histories) else old(histories)[key := []]
    {
      if key !in histories {
        histories := histories[key := []];
      }
    }

    /** Bot.py:117-121: one turn is appended to the user's list; every other
        entry keeps its value. */
    method AppendTurn(key: string, turn: Turn)
      requires key in histories
      modifies this`histories
      ensures histories == old(histories)[key := old(histories)[key] + [turn]]
      ensures histories.Keys == old(histories).Keys
    {
      histories := histories[key := histories[key] + [turn]];
    }

    /** `clearhistory`, returning the texts sent back: an existing entry,
        even an empty one, is emptied and saved and the success
        acknowledgment sent; if the save raises `saveError`, the entry stays
        emptied in memory and the exception leaves the command with nothing
        sent. For a user with no entry nothing changes and the "no history
        yet" reply is sent. */
    method ClearHistory(authorId: nat, saveError: Option<string>) returns (sent: seq<string>)
      modifies this`histories, this`saves
      ensures var key := UserKey(authorId);
        if key in old(histories) then
          && histories == old(histories)[key := []]
          && saves == (if saveError.None? then old(saves) + [histories] else old(saves))
          && sent == (if saveError.None? then [ClearedAck] else [])
        else
          && histories == old(histories)
          && saves == old(saves)
          && sent == [NoHistoryAck]
    {
      var key := UserKey(authorId);
      if key in histories {
        histories := histories[key := []];
        SaveHistory(saveError);
        sent := if saveError.None? then [ClearedAck] else [];
      } else {
        sent := [NoHistoryAck];
      }
    }

    /** `on_message`, returning the texts sent back to the channel: a
        message that does not pass the gate changes nothing and gets no
        reply; any other is handled by `Respond`. */
    method OnMessage(msg: Message, generate: seq<Part> -> Result<string>, now: string,
                     saveError: Option<string>)
      returns (sent: seq<string>)
      modifies this`histories, this`saves
      ensures !Gate.Handles(msg.authorId, msg.channelId, botUserId, channelFilter) ==>
        histories == old(histories) && saves == old(saves) && sent == []
      ensures Gate.Handles(msg.authorId, msg.channelId, botUserId, channelFilter) ==>
        Responded(old(histories), old(saves), msg, generate, now, saveError, sent)
    {
      if Gate.Handles(msg.authorId, msg.channelId, botUserId, channelFilter) {
        sent := Respond(msg, generate, now, saveError);
      } else {
        sent := [];
      }
    }

    /** What handling a message that passed the gate does: its author always
        has an entry afterwards. On success exactly one turn is appended to
        that entry, holding the user's text (or the placeholder) and the full
        reply; then the table is saved and the reply is sent in chunks, or,
        if the save raises `saveError`, the turn stays unsaved and one error
        reply is sent instead. On an exception from an attachment or from the
        completion API nothing is appended or saved and one error reply is
        sent. Other users' entries never change. */
    ghost predicate Responded(before: Table, savedBefore: seq<Table>, msg: Message,
                              generate: seq<Part> -> Result<string>, now: string,
                              saveError: Option<string>, sent: seq<string>)
      reads this
    {
      var key := UserKey(msg.authorId);
      var history := if key in before then before[key] else [];
      match Outcome(history, msg, generate)
      case Ok(reply) =>
        && histories == before[key := history + [Turn(now, RecordedUserText(msg.content), reply)]]
        && (match saveError
            case None => saves == savedBefore + [histories] && sent == Chunking.Replies(reply)
            case Some(e) => saves == savedBefore && sent == [ErrorReply(e)])
      case Error(e) =>
        && histories == before[key := history]
        && saves == savedBefore
        && sent == [ErrorReply(e)]
    }

    /** The `try` block of `on_message` and its `except` clause (Bot.py:58-134). */
    method Respond(msg: Message, generate: seq<Part> -> Result<string>, now: string,
                   saveError: Option<string>)
      returns (sent: seq<string>)
      modifies this`histories, this`saves
      ensures Responded(old(histories), old(saves), msg, generate, now, saveError, sent)
    {
      var key := UserKey(msg.authorId);
      EnsureEntry(key);
      var history := histories[key];
      assert history == if key in old(histories) then old(histories)[key] else [];
      var outcome := Complete(history, msg, generate);
      match outcome
      case Ok(reply) =>
        AppendTurn(key, Turn(now, RecordedUserText(msg.content), reply));
        SaveHistory(saveError);
        sent := if saveError.None? then Chunking.Replies(reply) else [ErrorReply(saveError.value)];
        assert histories == old(histories)[key := history + [Turn(now, RecordedUserText(msg.content), reply)]];
      case Error(e) =>
        sent := [ErrorReply(e)];
        assert histories == old(histories)[key := history];
    }
  }
}
