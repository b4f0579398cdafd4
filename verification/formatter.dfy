/** format_history_for_gemini in app.py: stored (role, text) entries become
    the {role, parts} turns the Gemini chat API takes, and the bounded window
    of recent entries that a turn sends. */
module Formatter {
  import opened Store

  /** {"role": role, "parts": parts} */
  datatype Turn = Turn(role: string, parts: seq<string>)

  /** How many trailing entries of the history a turn sends. */
  const WINDOW_SIZE: nat := 10

  /** Gemini says "model" where the store says "assistant"; every other
      stored role, expected or not, is sent as "user". */
  function GeminiRole(role: string): (r: string)
    ensures r == "model" <==> role == "assistant"
    ensures r == "user" <==> role != "assistant"
  {
    if role == "assistant" then "model" else "user"
  }

  /** The turn for one stored entry. */
  function ToTurn(m: Message): Turn
  {
    Turn(GeminiRole(m.role), [m.text])
  }

  /** The formatted history: one turn per entry, in the same order. */
  function Formatted(history: seq<Message>): seq<Turn>
  {
    seq(|history|, i requires 0 <= i < |history| => ToTurn(history[i]))
  }

  /** Formatting distributes over concatenation of histories. */
  lemma FormattedAppend(front: seq<Message>, back: seq<Message>)
    ensures Formatted(front + back) == Formatted(front) + Formatted(back)
  {
  }

  /** format_history_for_gemini: a fresh list filled by one loop over the
      entries. */
  method FormatHistoryForGemini(history: seq<Message>) returns (formatted: seq<Turn>)
    ensures formatted == Formatted(history)
    ensures |formatted| == |history|
    ensures forall i :: 0 <= i < |history| ==>
              formatted[i] == Turn(GeminiRole(history[i].role), [history[i].text])
  {
    formatted := [];
    for k := 0 to |history|
      invariant formatted == Formatted(history[..k])
    {
      assert history[..k + 1][..k] == history[..k];
      formatted := formatted + [Turn(GeminiRole(history[k].role), [history[k].text])];
    }
    assert history[..|history|] == history;
  }

  /** history[-10:]: the last WINDOW_SIZE entries, or all of them when there
      are fewer. */
  function Recent<T>(history: seq<T>): (r: seq<T>)
    ensures |r| == if |history| < WINDOW_SIZE then |history| else WINDOW_SIZE
    ensures forall i :: 0 <= i < |r| ==> r[i] == history[|history| - |r| + i]
  {
    if |history| <= WINDOW_SIZE then history else history[|history| - WINDOW_SIZE..]
  }

  /** The turns a chat turn sends: at most WINDOW_SIZE of them, the last
      one being the prompt just appended, as a "user" turn. */
  lemma SentWindow(history: seq<Message>, prompt: string)
    ensures var sent := Formatted(Recent(history + [Message("user", prompt)]));
            && 0 < |sent| <= WINDOW_SIZE
            && sent[|sent| - 1] == Turn("user", [prompt])
  {
  }

  /** Formatting the window is the same as windowing the formatted history:
      the turns sent are the formatted forms of the last entries, oldest first. */
  lemma FormattedRecent(history: seq<Message>)
    ensures Formatted(Recent(history)) == Recent(Formatted(history))
  {
  }
}
