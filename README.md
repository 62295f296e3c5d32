# Discord AI chat bot: per-message prompt shaping and history, in Dafny

This project models the data-shaping core of a Discord bot (`Bot.py`). The bot
relays each chat message to a generative-AI completion API and sends the reply
back to the channel, and it keeps a per-user history of past exchanges. The
model covers:

- the gate that decides which messages are answered;
- the history table (`chat_histories`): creating an entry, appending a turn,
  and the `clearhistory` command;
- assembly of the prompt: the fixed preamble, the last 10 turns, the current
  turn or its `[Sent attachment(s)]` placeholder;
- the attachment loop: images become extra parts; text files and PDFs extend
  part 0, truncated to 3000 characters (a PDF contributes its first 5 pages);
  anything else is ignored;
- cutting a reply into 2000-character messages.

Every I/O step is a parameter:

- An attachment comes with what each way of reading its URL yields: a decoded
  image (an opaque token), the text, or the text of each PDF page. Each of
  these is a value or the text of the exception it raises.
- The completion API is a total function from prompt parts to a reply or an
  exception.
- The timestamp is a string argument.
- Saving the history file is recorded as a ghost snapshot of the table.
- Sent messages are the output sequence of `OnMessage` and `ClearHistory`.
- Whether `save_history()` raises, and with what message, is the `saveError`
  argument.

Modules, one per component of the source file:

- `Wrappers`: `Option` and `Result`.
- `Text`: Python's `startswith`, `endswith` and slicing, plus string joining.
- `History`: the turn record, the table type and the user key `str(author.id)`.
- `Gate`: the message filter.
- `Prompt`: the preamble, the window, the turn rendering and the context loop.
- `Attachments`: classification, sections, the PDF page loop and the attachment loop.
- `Chunking`: reply slicing.
- `Bot`: the `ChatBot` class, holding the table and the handlers.

Details of the code that the model keeps:

- The truncation limit for file and PDF text is 3000 characters.
- The preamble is "You are a helpful Discord bot assistant. Be friendly and concise.\n\n".
- Each file or PDF section starts with `"\n\n"` before its `[File: …]` or `[PDF: …]` header.
- The turn is appended and the table saved *before* the reply is sent.
- If `save_history()` raises inside the handler, the appended turn stays in
  memory unsaved, no reply chunk is sent, and one `❌ Error: …` reply is sent.
- An empty reply is sent as one empty message.
- `clearhistory` acknowledges success whenever the user has an entry, even an
  empty one. The command runs only through `process_commands` (Bot.py:136),
  which is reached only after the author's entry has been created
  (Bot.py:59-60), so in practice the command always finds an entry and the
  "no history yet" reply is never sent.

## Model

| member | source | states |
|---|---|---|
| `Gate.HandlesExactly` | Bot.py:50-55 | the bot's own messages are never handled; with `CHANNEL_ID == 0` every channel is served; otherwise a message is handled iff it comes from that channel |
| `History.UserKeyInjective` | Bot.py:58 | `str(author.id)` keys are equal iff the ids are equal, so users never share a history entry |
| `History.DecimalInjective` | Bot.py:58 | the decimal rendering of a non-negative id is injective |
| `History.RecordedUserText` | Bot.py:119 | the stored user text is the message text, or `[Image/File]` when the text is empty; it is never empty |
| `Prompt.Window` | Bot.py:72 | `history[-10:]` has exactly `min(10, len(history))` turns and is the suffix of the history of that length |
| `Prompt.WindowIsNewestTurns` | Bot.py:72-73 | a history of at most 10 turns is replayed whole; in general the full transcript is the older turns' transcript followed by the replayed one, so the replayed turns are the newest ones in stored order |
| `Prompt.WindowAfterAppend` | Bot.py:72 | storing one more turn adds it at the end of the next window, and once the window is full its oldest turn drops out |
| `Prompt.TranscriptAppend` | Bot.py:72-73 | the rendered text of two turn lists one after the other is the first's text followed by the second's |
| `Prompt.BuildContext` | Bot.py:69-73 | the `+=` loop yields the preamble followed by the rendered window turns, oldest first |
| `Prompt.HeadShape` | Bot.py:69-82 | part 0 is exactly the preamble, then the window transcript, then directly `User: <content>\nBot:`, or `User: [Sent attachment(s)]\nBot:` when the content is empty; the preamble, the transcript and the closing line each sit at their own position |
| `Text.Take` | Bot.py:99 | Python's `s[:n]` has length `min(n, len(s))`, is a prefix of `s`, and is `s` itself when `s` is short enough |
| `Attachments.TextAndPdfNamesDisjoint` | Bot.py:95-102 | no file name matches both a text extension and `.pdf` |
| `Attachments.ClassifyPrecedence` | Bot.py:86-102 | an `image/` content type gives the image branch whatever the file name; otherwise a text extension gives the text branch; otherwise `.pdf` gives the PDF branch; anything else is unsupported |
| `Attachments.ImageTypeWins` | Bot.py:87 | `a.pdf` and `notes.txt` sent as `image/png` are both taken as images |
| `Attachments.PdfByName` | Bot.py:95-102 | `a.pdf` with no content type takes the PDF branch |
| `Attachments.UnknownSkipped` | Bot.py:87-102 | `video.mp4` with no content type matches no branch and is skipped |
| `Text.EndsWithAnyWitness` | Bot.py:95 | `endswith` with a tuple holds iff the name ends with one of its suffixes |
| `Attachments.FirstPages` | Bot.py:108 | `pages[:5]` has `min(5, len(pages))` pages and is a prefix of the page list |
| `Attachments.ExtractPdfText` | Bot.py:107-109 | the page loop yields the text of the first five pages concatenated in page order |
| `Attachments.PdfBodyBounds` | Bot.py:106-110 | the PDF text reaching the prompt has at most 3000 characters, is a prefix of the whole document's text, and does not depend on pages after the fifth |
| `Attachments.FileSectionBounds` | Bot.py:99 | a text file's section is its header followed by at most 3000 characters that are a prefix of the downloaded text, all of it when that text is short enough |
| `Attachments.NoFailureReadable` | Bot.py:85-110 | the attachment loop finishes without an exception iff every attachment reads in the branch it takes |
| `Attachments.AddAttachment` | Bot.py:86-110 | one loop iteration: part 0 grows by the attachment's section, and only an image adds a part, at the end |
| `Attachments.BuildParts` | Bot.py:76-110 | the attachment loop computes `Parts`: the first attachment that raises aborts with its exception; otherwise part 0 is the head followed by every text and PDF section in message order, and then come the images in message order |
| `Attachments.PartsShape` | Bot.py:76-110 | the parts are built iff no attachment raises; then there are exactly `1 + #images` parts, part 0 is the only text part, and every later part is an image |
| `Attachments.UnsupportedIgnored` | Bot.py:85-110 | an attachment of no recognized kind adds no part, leaves part 0 unchanged and raises nothing |
| `Attachments.FailureAborts` | Bot.py:85-110 | once an attachment has raised, the message fails with that error whatever attachments follow; the first attachment to raise decides the error |
| `Attachments.FailureSticks` | Bot.py:85-110 | once some attachment has raised, no number of later attachments changes the error |
| `Attachments.FirstFailureAt` | Bot.py:85-110 | when every attachment before index i reads and attachment i raises, the message fails with attachment i's exception |
| `Attachments.ImageAppended` | Bot.py:87-92 | one more image attachment becomes the new last part, and nothing else changes |
| `Attachments.SectionAppended` | Bot.py:95-110 | one more text-file or PDF attachment only extends part 0, by its section |
| `Bot.OutcomeSpec` | Bot.py:85-114 | the completion API is called with the prompt parts exactly when no attachment raised; otherwise the attachment's exception is the outcome |
| `Bot.Complete` | Bot.py:66-114 | the `try` body up to the completion call returns the completion of the assembled payload, or the first exception |
| `Chunking.SlicesUnfold` | Bot.py:126 | an empty reply has no slices, a reply of 1 to 2000 characters is its own only slice, and a longer one is its first 2000 characters followed by the slices of the rest |
| `Chunking.SlicesConcat` | Bot.py:126 | joining the 2000-character slices gives back the reply |
| `Chunking.SliceLengths` | Bot.py:126 | every slice but the last has exactly 2000 characters, and the last has 1 to 2000 |
| `Chunking.RepliesSpec` | Bot.py:125-130 | the sent messages join back to the reply; a reply of at most 2000 characters is sent as exactly one message equal to it; a longer one as `ceil(L/2000)` messages, at least two; every message has at most 2000 characters |
| `Bot.ChatBot.constructor` | Bot.py:27 | the history table starts empty, with nothing saved |
| `Bot.ChatBot.SaveHistory` | Bot.py:37-39 | a save writes the whole current table, or records nothing when writing raises |
| `Bot.ChatBot.EnsureEntry` | Bot.py:58-60 | afterwards the key is present; an existing entry is unchanged, and a new key gets an empty list; nothing is saved |
| `Bot.ChatBot.AppendTurn` | Bot.py:117-121 | exactly one turn is appended to the user's list, and every other entry and the key set are unchanged |
| `Bot.ChatBot.ClearHistory` | Bot.py:139-147 | an existing key, even with an empty list, becomes empty, is saved and gets the success acknowledgment; when the save raises, the key stays emptied in memory, nothing is saved and nothing is sent; an absent key leaves table and file untouched and gets the "no history yet" reply; no other entry changes |
| `Bot.ChatBot.Respond` | Bot.py:58-134 | the author's entry exists afterwards. On success exactly one turn `{now, content or [Image/File], full reply}` is appended; then the table is saved and the reply is sent in chunks, or, when the save raises, the turn stays unsaved and only one `❌ Error: …` reply is sent. On an attachment or completion exception nothing is appended or saved, and one `❌ Error: …` reply is sent. Other users' entries are unchanged |
| `Bot.ChatBot.OnMessage` | Bot.py:48-136 | a message that fails the gate changes nothing and gets no reply; any other message is handled as in `Respond` |

## Left out

- The Discord client: events, `typing()`, `reply`/`send`, `process_commands`
  and command-prefix routing (Bot.py:20-24, 41-45, 63, 136, 149). Sent messages
  are the returned sequence.
- Bot.ChatBot.Respond: sending always succeeds in the model. In the code a failing `reply` after the
  append raises inside the `try`, so the turn stays stored and an error reply
  follows. An empty reply, rejected by Discord, is one such case.
- HTTP downloads, PIL image decoding and PyPDF2 parsing (Bot.py:88-91, 96-98,
  103-106, 109) are foreign libraries. Their results are given per attachment;
  a failing step is an `Error` with the exception's text.
- PDF page extraction is all-or-nothing in the model: an exception from
  `extract_text()` on one of the first five pages is folded into the
  attachment's PDF `Error`.
- The Gemini SDK call and model selection (Bot.py:18, 66, 113-114). The
  completion API is a function parameter, whose `Error` covers any exception,
  including one from reading `response.text`.
- `load_history` and the JSON encoding of `save_history` (Bot.py:29-39) are
  file I/O. A save is a ghost snapshot of the table, and loading is not
  modelled. Whether a save raises is the `saveError` parameter of the
  handlers.
- Bot.ChatBot.SaveHistory: the file's contents after a raising save are not
  modelled. `open(..., 'w')` (Bot.py:38) empties the file before `json.dump`
  writes, so a save that raises can leave it empty or partly written. The
  model only records that no snapshot was written.
- Environment-variable parsing (Bot.py:13-15): `CHANNEL_ID` is a
  constructor argument.
- The Discord login: the bot's own user id (`bot.user`, Bot.py:50) is a
  constructor argument.
- `datetime.now().isoformat()` (Bot.py:118) is the `now` argument.
- Console logging with `print` (Bot.py:44-45, 134).
- Interleaving of concurrent message handlers at `await` points: each
  `OnMessage` call runs to completion on its own.
