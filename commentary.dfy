/** The AI commentary of the `dashboard` route: the non-empty profit and loss
    reasons of the user's DailyTrade rows, joined one per line under a fixed
    instruction, and sent to the AI endpoint. */
module Commentary {
  import opened Records

  const TipsInstruction: string := "Generate trading tips from these profit reasons:"
  const LessonsInstruction: string := "Generate trading lessons from these loss reasons:"
  const KeyMissingReply: string := "Gemini API key not configured"

  /** `[r.reason_profit for r in rows if r.reason_profit]` (Gains), or the same
      for `reason_loss` (Losses), over the user's rows in table order. */
  function Reasons(trades: seq<DailyTrade>, userId: nat, side: Side): (rs: seq<string>)
    ensures |rs| <= |trades|
    ensures forall n :: 0 <= n < |rs| ==> rs[n] != ""
    ensures forall x :: x in rs <==> exists i :: 0 <= i < |trades| && trades[i].userId == userId
                                              && ReasonOf(trades[i], side) == x && x != ""
  {
    if trades == [] then []
    else
      var t := trades[0];
      var rest := Reasons(trades[1..], userId, side);
      assert forall i :: 1 <= i < |trades| ==> trades[i] == trades[1..][i - 1];
      assert forall x :: x in rest ==> exists i :: 0 <= i < |trades| && trades[i].userId == userId
                                                && ReasonOf(trades[i], side) == x && x != "" by {
        forall x | x in rest
          ensures exists i :: 0 <= i < |trades| && trades[i].userId == userId
                              && ReasonOf(trades[i], side) == x && x != ""
        {
          var i :| 0 <= i < |trades[1..]| && trades[1..][i].userId == userId
                   && ReasonOf(trades[1..][i], side) == x && x != "";
          assert trades[i + 1] == trades[1..][i];
        }
      }
      (if t.userId == userId && ReasonOf(t, side) != "" then [ReasonOf(t, side)] else []) + rest
  }

  /** A row added at the end adds its reason, when it has one, at the end. */
  lemma {:induction false} ReasonsAppend(trades: seq<DailyTrade>, t: DailyTrade, userId: nat, side: Side)
    ensures Reasons(trades + [t], userId, side)
            == Reasons(trades, userId, side)
               + (if t.userId == userId && ReasonOf(t, side) != "" then [ReasonOf(t, side)] else [])
  {
    if trades != [] {
      assert (trades + [t])[1..] == trades[1..] + [t];
      ReasonsAppend(trades[1..], t, userId, side);
    }
  }

  /** `"\n".join(lines)`. */
  function JoinLines(lines: seq<string>): string
  {
    if lines == [] then ""
    else if |lines| == 1 then lines[0]
    else lines[0] + "\n" + JoinLines(lines[1..])
  }

  /** Position of the first newline of `s`, or |s|. */
  function LineEnd(s: string): (i: nat)
    ensures i <= |s|
    ensures forall k :: 0 <= k < i ==> s[k] != '\n'
    ensures i < |s| ==> s[i] == '\n'
  {
    if s == [] then 0
    else if s[0] == '\n' then 0
    else
      var i := LineEnd(s[1..]);
      assert forall k :: 1 <= k < i + 1 ==> s[k] == s[1..][k - 1];
      1 + i
  }

  /** `s.split("\n")`. */
  function SplitLines(s: string): (lines: seq<string>)
    ensures |lines| >= 1
    decreases |s|
  {
    var i := LineEnd(s);
    if i == |s| then [s] else [s[..i]] + SplitLines(s[i + 1..])
  }

  lemma {:induction false} LineEndOf(a: string, rest: string)
    requires '\n' !in a
    requires rest == [] || rest[0] == '\n'
    ensures LineEnd(a + rest) == |a|
  {
    if a != [] {
      assert a[0] in a;
      assert (a + rest)[1..] == a[1..] + rest;
      assert forall c :: c in a[1..] ==> c in a;
      LineEndOf(a[1..], rest);
    }
  }

  /** Splitting on newlines undoes joining, as long as no line holds a newline. */
  lemma {:induction false} SplitJoinLines(lines: seq<string>)
    requires lines != []
    requires forall n :: 0 <= n < |lines| ==> '\n' !in lines[n]
    ensures SplitLines(JoinLines(lines)) == lines
  {
    if |lines| == 1 {
      LineEndOf(lines[0], "");
      assert lines[0] + "" == lines[0];
    } else {
      var rest := JoinLines(lines[1..]);
      var s := lines[0] + "\n" + rest;
      LineEndOf(lines[0], "\n" + rest);
      assert s == lines[0] + ("\n" + rest);
      assert s[..|lines[0]|] == lines[0];
      assert s[|lines[0]| + 1..] == rest;
      SplitJoinLines(lines[1..]);
    }
  }

  /** The text sent for one list: the instruction, a newline, then one reason per line. */
  function Prompt(instruction: string, reasons: seq<string>): (p: string)
    ensures |p| >= |instruction| + 1 && p[..|instruction| + 1] == instruction + "\n"
    ensures reasons == [] ==> p == instruction + "\n"
  {
    instruction + "\n" + JoinLines(reasons)
  }

  /** Read line by line, a prompt is its instruction followed by its reasons
      (with no reasons, by one empty line). */
  lemma PromptLines(instruction: string, reasons: seq<string>)
    requires '\n' !in instruction
    requires forall n :: 0 <= n < |reasons| ==> '\n' !in reasons[n]
    ensures SplitLines(Prompt(instruction, reasons))
            == [instruction] + (if reasons == [] then [""] else reasons)
  {
    var lines := [instruction] + (if reasons == [] then [""] else reasons);
    assert JoinLines(if reasons == [] then [""] else reasons) == JoinLines(reasons);
    assert lines[1..] == (if reasons == [] then [""] else reasons);
    assert JoinLines(lines) == Prompt(instruction, reasons);
    SplitJoinLines(lines);
  }

  /** `call_gemini`: the fixed reply when no key is configured, otherwise what
      the endpoint answers (its error text included). */
  function CallGemini(cfg: Config, prompt: string): (reply: string)
    ensures cfg.geminiKey == "" ==> reply == KeyMissingReply
    ensures cfg.geminiKey != "" ==> reply == cfg.gemini(prompt)
  {
    if cfg.geminiKey == "" then KeyMissingReply else cfg.gemini(prompt)
  }

  /** Without a key the endpoint is not consulted: whatever it would answer,
      and whatever the prompt, the reply is the fixed text. */
  lemma KeyMissingNoCall(cfg: Config)
    requires cfg.geminiKey == ""
    ensures forall g: string -> string, q: string :: CallGemini(cfg.(gemini := g), q) == KeyMissingReply
  {
  }

  /** With a key, the reply is the endpoint's answer to exactly this prompt:
      two endpoints that agree on it give the same reply. */
  lemma KeyedCallAsksEndpoint(cfg: Config, prompt: string, g: string -> string)
    requires cfg.geminiKey != "" && g(prompt) == cfg.gemini(prompt)
    ensures CallGemini(cfg.(gemini := g), prompt) == CallGemini(cfg, prompt) == g(prompt)
  {
  }
}
