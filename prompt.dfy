/** Assembling the text part of the prompt: preamble, the recent history
    window and the current turn (Bot.py:69-82). */
module Prompt {
  import opened History
  import opened Text

  const Preamble: string := "You are a helpful Discord bot assistant. Be friendly and concise.\n\n"

  /** How many past turns are replayed into the prompt. */
  const WindowSize: nat := 10

  /** Stands in for the message text when the message has none. */
  const AttachmentsOnly: string := "[Sent attachment(s)]"

  /** `history[-10:]` */
  function Window(history: seq<Turn>): (w: seq<Turn>)
    ensures |w| == if |history| < WindowSize then |history| else WindowSize
    ensures w == history[|history| - |w|..]
  {
    if |history| <= WindowSize then history else history[|history| - WindowSize..]
  }

  /** `f"User: {hist['user']}\nBot: {hist['bot']}\n\n"` */
  function RenderTurn(t: Turn): string
  {
    "User: " + t.user + "\nBot: " + t.bot + "\n\n"
  }

  /** The turns rendered one after the other, oldest first. */
  function Transcript(turns: seq<Turn>): string
  {
    if turns == [] then "" else Transcript(turns[..|turns| - 1]) + RenderTurn(turns[|turns| - 1])
  }

  /** The line for the message being answered. */
  function CurrentTurn(content: string): string
  {
    "User: " + (if content != "" then content else AttachmentsOnly) + "\nBot:"
  }

  /** `content_parts[0]` before any attachment is looked at. */
  function Head(history: seq<Turn>, content: string): string
  {
    Preamble + Transcript(Window(history)) + CurrentTurn(content)
  }

  /** The context string grown turn by turn with `+=` over the window. */
  method BuildContext(history: seq<Turn>) returns (context: string)
    ensures context == Preamble + Transcript(Window(history))
  {
    var window := Window(history);
    context := Preamble;
    for i := 0 to |window|
      invariant context == Preamble + Transcript(window[..i])
    {
      ContextStep(window, i);
      context := context + RenderTurn(window[i]);
    }
    assert window[..|window|] == window;
  }

  lemma ContextStep(window: seq<Turn>, i: nat)
    requires i < |window|
    ensures Preamble + Transcript(window[..i]) + RenderTurn(window[i]) == Preamble + Transcript(window[..i + 1])
  {
    assert window[..i + 1] == window[..i] + [window[i]];
    TranscriptSnoc(window[..i], window[i]);
    AppendAssoc(Preamble, Transcript(window[..i]), RenderTurn(window[i]));
  }

  /** Rendering distributes over concatenation of turn lists. */
  lemma {:induction false} TranscriptAppend(a: seq<Turn>, b: seq<Turn>)
    ensures Transcript(a + b) == Transcript(a) + Transcript(b)
  {
    if b == [] {
      assert a + b == a;
    } else {
      var b', last := b[..|b| - 1], b[|b| - 1];
      assert b == b' + [last];
      assert a + b == (a + b') + [last];
      TranscriptAppend(a, b');
      TranscriptSnoc(a + b', last);
      TranscriptSnoc(b', last);
      AppendAssoc(Transcript(a), Transcript(b'), RenderTurn(last));
    }
  }

  lemma TranscriptSnoc(turns: seq<Turn>, t: Turn)
    ensures Transcript(turns + [t]) == Transcript(turns) + RenderTurn(t)
  {
    assert (turns + [t])[..|turns|] == turns;
  }

  /** The replayed context is exactly the newest min(10, |h|) turns, in stored
      order: the full transcript is the part left out followed by it, and a
      history of at most 10 turns is replayed whole. */
  lemma WindowIsNewestTurns(history: seq<Turn>)
    ensures |history| <= WindowSize ==> Transcript(Window(history)) == Transcript(history)
    ensures var k := |history| - |Window(history)|;
      Transcript(history) == Transcript(history[..k]) + Transcript(Window(history))
  {
    var k := |history| - |Window(history)|;
    assert history == history[..k] + history[k..];
    TranscriptAppend(history[..k], history[k..]);
  }

  /** Storing one more turn slides the window by one: the new turn enters at
      the end, and the oldest drops out once the window is full. */
  lemma WindowAfterAppend(history: seq<Turn>, t: Turn)
    ensures |history| < WindowSize ==> Window(history + [t]) == Window(history) + [t]
    ensures |history| >= WindowSize ==> Window(history + [t]) == Window(history)[1..] + [t]
  {
    var h := history + [t];
    if |history| >= WindowSize {
      assert h[|h| - WindowSize..] == history[|history| - WindowSize + 1..] + [t];
    }
  }

  lemma ThreeParts(a: string, b: string, c: string)
    ensures var h := a + b + c;
      && h[..|a|] == a
      && h[|a|..|a| + |b|] == b
      && EndsWith(h, c)
  {
    var h := a + b + c;
    assert h[|h| - |c|..] == c;
  }

  /** Part 0 is the preamble, then the replayed turns, then directly the
      current turn, whose text is the placeholder exactly when the message
      has none. */
  lemma HeadShape(history: seq<Turn>, content: string)
    ensures var h := Head(history, content);
      && h[..|Preamble|] == Preamble
      && h[|Preamble|..|Preamble| + |Transcript(Window(history))|] == Transcript(Window(history))
      && (content != "" ==> EndsWith(h, "User: " + content + "\nBot:"))
      && (content == "" ==> EndsWith(h, "User: " + AttachmentsOnly + "\nBot:"))
      && (content != "" ==> h == Preamble + Transcript(Window(history)) + ("User: " + content + "\nBot:"))
      && (content == "" ==> h == Preamble + Transcript(Window(history)) + ("User: " + AttachmentsOnly + "\nBot:"))
  {
    var p, t, c := Preamble, Transcript(Window(history)), CurrentTurn(content);
    assert Head(history, content) == p + t + c;
    ThreeParts(p, t, c);
    if content != "" {
      assert c == "User: " + content + "\nBot:";
    } else {
      assert c == "User: " + AttachmentsOnly + "\nBot:";
    }
  }
}
