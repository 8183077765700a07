/**
 * Turning a check-in message into the JSON the hook stores: the prompt sent to
 * the language model, the clean-up of its reply (markdown fences, surrounding
 * whitespace), and the minimal record used when the model cannot be reached or
 * its reply does not parse.
 */
module Extraction {
  import opened Wrappers
  import Js

  type Json = Js.Json

  /* ---------------------------------------------------------------------- */
  /* The prompt                                                              */
  /* ---------------------------------------------------------------------- */

  /** The question the check-in prompt asks, quoted in the extraction prompt. */
  const Question: string := "Quick check-in: Mood (1-5), Energy (L/M/H), Doing, Next hour?"

  /** The part of the extraction prompt in front of the message. */
  const PromptHead: string :=
    "You are analyzing a mood check-in SMS. Extract structured data from the following message.\n"
    + "\n"
    + "The user was asked: \"" + Question + "\"\n"
    + "\n"
    + "Their response: \""

  /** The part of the extraction prompt behind the message. */
  const PromptTail: string :=
    "\"\n"
    + "\n"
    + "Extract and return a JSON object with:\n"
    + "{\n"
    + "  \"mood\": <number 1-5, or null if not mentioned>,\n"
    + "  \"energy\": <\"L\", \"M\", \"H\", or null if not mentioned>,\n"
    + "  \"doing\": <what they're currently doing, or null>,\n"
    + "  \"intention\": <what they plan to do next, or null>,\n"
    + "  \"doing_category\": <one of: \"work\", \"social\", \"rest\", \"exercise\", \"chores\", \"transit\", or null>,\n"
    + "  \"location\": <where they are, or null>,\n"
    + "  \"social_context\": <who they're with, or null>,\n"
    + "  \"insights\": {\n"
    + "    \"notable_change\": <if mood/energy seems significantly different from normal, note it>,\n"
    + "    \"energy_mood_mismatch\": <if energy and mood seem misaligned, note it>,\n"
    + "    \"observation\": <any other brief observation about this entry>\n"
    + "  },\n"
    + "  \"word_count\": <number of words in the raw text>\n"
    + "}\n"
    + "\n"
    + "Be concise in insights. Only include insight fields if there's something notable. Return ONLY the JSON object, no markdown or explanation."

  /** The extraction prompt: the message is interpolated as it is, with no escaping. */
  function Prompt(body: Option<string>): string {
    PromptHead + Js.Render(body) + PromptTail
  }

  /** The message sits verbatim between the head and the tail of the prompt. */
  lemma PromptEmbedsMessage(body: string)
    ensures |Prompt(Some(body))| == |PromptHead| + |body| + |PromptTail|
    ensures Prompt(Some(body))[..|PromptHead|] == PromptHead
    ensures Prompt(Some(body))[|PromptHead|..|PromptHead| + |body|] == body
    ensures Prompt(Some(body))[|PromptHead| + |body|..] == PromptTail
  {
  }

  /** Different messages give different prompts. */
  lemma {:induction false} PromptInjective(a: string, b: string)
    ensures Prompt(Some(a)) == Prompt(Some(b)) ==> a == b
  {
    if Prompt(Some(a)) == Prompt(Some(b)) {
      PromptEmbedsMessage(a);
      PromptEmbedsMessage(b);
    }
  }

  /** An absent message is indistinguishable, in the prompt, from the text "undefined". */
  lemma AbsentMessageReadsUndefined()
    ensures Prompt(None) == Prompt(Some("undefined"))
  {
  }

  /* ---------------------------------------------------------------------- */
  /* Markdown fences                                                         */
  /* ---------------------------------------------------------------------- */

  const Fence: string := "```"

  /**
   * The four letters `json` under the `i` flag. Only ASCII letters fold here:
   * without the `u` flag no character above U+007F folds onto an ASCII one.
   */
  predicate IsJsonTag(t: string) {
    && |t| == 4
    && (t[0] == 'j' || t[0] == 'J')
    && (t[1] == 's' || t[1] == 'S')
    && (t[2] == 'o' || t[2] == 'O')
    && (t[3] == 'n' || t[3] == 'N')
  }

  /** Whether the reply starts with "```json" in any letter case. */
  predicate OpensWithFence(s: string) {
    |s| >= 7 && s[..3] == Fence && IsJsonTag(s[3..7])
  }

  /**
   * `s.replace(/^```json\s*\n?/i, '')`. The greedy `\s*` takes every whitespace
   * character after the tag, newlines included, so `\n?` is left to match
   * nothing.
   */
  function StripOpeningFence(s: string): (r: string)
    ensures OpensWithFence(s) ==> |r| <= |s| - 7 && r == s[|s| - |r|..] && Js.AllSpace(s[7..|s| - |r|])
    ensures OpensWithFence(s) ==> r == [] || !Js.IsSpace(r[0])
    ensures !OpensWithFence(s) ==> r == s
  {
    if OpensWithFence(s) then
      var r := Js.TrimStart(s[7..]);
      Js.TrimStartIsSuffix(s[7..]);
      assert s[7..][|s[7..]| - |r|..] == s[|s| - |r|..];
      assert s[7..][..|s[7..]| - |r|] == s[7..|s| - |r|];
      r
    else s
  }

  predicate EndsWith(s: string, p: string) {
    |p| <= |s| && s[|s| - |p|..] == p
  }

  /** Whether `\n?```\s*$` matches the whole of `u` (the pattern has no `m` flag, so `$` is the end of input). */
  predicate ClosingMatches(u: string) {
    || (Js.StartsWith(u, Fence) && Js.AllSpace(u[3..]))
    || (|u| >= 4 && u[0] == '\n' && u[1..4] == Fence && Js.AllSpace(u[4..]))
  }

  /** The leftmost position at or after `p` where the closing pattern matches, as a regular expression search finds it. */
  function LeftmostClosing(s: string, p: nat): (r: Option<nat>)
    requires p <= |s|
    ensures r.Some? ==> p <= r.value <= |s| && ClosingMatches(s[r.value..])
    decreases |s| - p
  {
    if ClosingMatches(s[p..]) then Some(p)
    else if p == |s| then None
    else LeftmostClosing(s, p + 1)
  }

  /** `s.replace(/\n?```\s*$/i, '')`: the leftmost match, if any, is cut off with everything after it. */
  function StripClosingFence(s: string): string {
    match LeftmostClosing(s, 0)
    case Some(p) => s[..p]
    case None => s
  }

  /**
   * Where the closing fence starts, read off the reply directly: the reply
   * without its trailing whitespace must end in "```", and a newline right in
   * front of that goes too.
   */
  function ClosingCut(s: string): Option<nat> {
    var t := Js.TrimEnd(s);
    if EndsWith(t, Fence) then
      var p := |t| - 3;
      Some(if p > 0 && s[p - 1] == '\n' then p - 1 else p)
    else None
  }

  /** A match of the closing pattern pins down the trimmed end of the reply. */
  lemma MatchPinsEnd(s: string, q: nat)
    requires q <= |s| && ClosingMatches(s[q..])
    ensures EndsWith(Js.TrimEnd(s), Fence)
    ensures q == |Js.TrimEnd(s)| - 3 || (q == |Js.TrimEnd(s)| - 4 && s[q] == '\n')
  {
    var u := s[q..];
    if Js.StartsWith(u, Fence) && Js.AllSpace(u[3..]) {
      FenceEndsAt(s, q);
    } else {
      assert s[q + 1..][..3] == u[1..4] && s[q + 1..][3..] == u[4..];
      FenceEndsAt(s, q + 1);
    }
  }

  /** A fence followed only by whitespace ends the trimmed reply. */
  lemma FenceEndsAt(s: string, q: nat)
    requires q <= |s| && Js.StartsWith(s[q..], Fence) && Js.AllSpace(s[q..][3..])
    ensures Js.TrimEnd(s) == s[..q + 3] && EndsWith(s[..q + 3], Fence)
  {
    assert q + 2 < |s| && !Js.IsSpace(s[q + 2]) && Js.AllSpace(s[q + 3..]) by {
      var u := s[q..];
      assert s[q + 2] == u[2];
      assert s[q + 3..] == u[3..];
    }
    Js.TrimEndAt(s, q + 2);
    assert s[..q + 3][q..] == s[q..][..3];
  }

  /** The directly computed cut is a match of the closing pattern. */
  lemma CutMatches(s: string)
    requires ClosingCut(s).Some?
    ensures ClosingCut(s).value <= |s| && ClosingMatches(s[ClosingCut(s).value..])
  {
    var t := Js.TrimEnd(s);
    var p := |t| - 3;
    Js.TrimEndIsPrefix(s);
    assert s[p..p + 3] == t[p..] == Fence;
    assert s[p + 3..] == s[|t|..];
    if p > 0 && s[p - 1] == '\n' {
      assert s[p - 1..][1..4] == s[p..p + 3];
      assert s[p - 1..][4..] == s[p + 3..];
    } else {
      assert s[p..][..3] == s[p..p + 3];
      assert s[p..][3..] == s[p + 3..];
    }
  }

  /** From any position up to the cut, the search finds the cut; without a cut it finds nothing. */
  lemma {:induction false} SearchFindsCut(s: string, p: nat)
    requires p <= |s|
    requires ClosingCut(s).Some? ==> p <= ClosingCut(s).value
    ensures LeftmostClosing(s, p) == ClosingCut(s)
    decreases |s| - p
  {
    if ClosingMatches(s[p..]) {
      MatchPinsEnd(s, p);
    } else {
      if ClosingCut(s).Some? {
        CutMatches(s);
        assert ClosingCut(s).value != p;
      }
      if p < |s| {
        SearchFindsCut(s, p + 1);
      }
    }
  }

  /** The regular-expression search and the direct reading agree. */
  lemma ClosingFenceIsCut(s: string)
    ensures StripClosingFence(s) == match ClosingCut(s) case Some(c) => s[..c] case None => s
  {
    SearchFindsCut(s, 0);
  }

  /** The reply text after both fences are stripped and the rest is trimmed, as handed to `JSON.parse`. */
  function Cleaned(reply: string): string {
    Js.Trim(StripClosingFence(StripOpeningFence(reply)))
  }

  /** The opening fence and the whitespace after it go; trimming then starts at the text inside. */
  lemma OpeningOfFenced(tag: string, w: string, x: string)
    requires IsJsonTag(tag) && Js.AllSpace(w)
    ensures StripOpeningFence(Fence + tag + w + x) == Js.TrimStart(x)
  {
    var s := Fence + tag + w + x;
    assert s[..3] == Fence && s[3..7] == tag;
    assert s[7..] == w + x;
    Js.TrimStartSkipsSpace(w, x);
  }

  /** What trimming the start leaves of the text inside, its newline, the closing fence and trailing whitespace. */
  function Inner(x: string): string {
    if Js.TrimStart(x) != [] then Js.TrimStart(x) + "\n" else []
  }

  lemma InnerKeepsFence(x: string, w': string)
    ensures Js.TrimStart(x + ("\n" + Fence + w')) == Inner(x) + Fence + w'
  {
    var f := Fence + w';
    assert "\n" + Fence + w' == "\n" + f;
    if Js.TrimStart(x) != [] {
      TextThenFence(x, f);
      assert Inner(x) + Fence + w' == (Js.TrimStart(x) + "\n") + f;
    } else {
      SpaceThenFence(x, f);
      assert Inner(x) + Fence + w' == f;
    }
  }

  lemma TextThenFence(x: string, f: string)
    requires Js.TrimStart(x) != []
    ensures Js.TrimStart(x + ("\n" + f)) == (Js.TrimStart(x) + "\n") + f
  {
    Js.TrimStartOfConcat(x, "\n" + f);
  }

  lemma SpaceThenFence(x: string, f: string)
    requires Js.TrimStart(x) == [] && f != [] && f[0] == '`'
    ensures Js.TrimStart(x + ("\n" + f)) == f
  {
    Js.TrimStartOfBlank(x, "\n" + f);
    assert ("\n" + f)[0] == '\n' && ("\n" + f)[1..] == f;
  }

  /** A reply ending in a fence and whitespace is cut in front of the fence, or in front of the newline before it. */
  lemma CutOfFenced(v: string, w': string)
    requires Js.AllSpace(w')
    ensures ClosingCut(v + Fence + w') == Some(if v != [] && v[|v| - 1] == '\n' then |v| - 1 else |v|)
  {
    var u := v + Fence + w';
    Js.TrimEndSkipsSpace(v + Fence, w');
    Js.TrimEndAt(v + Fence, |v| + 2);
    assert (v + Fence)[..|v| + 3] == v + Fence;
    assert v != [] ==> u[|v| - 1] == v[|v| - 1];
  }

  /** The closing fence, its newline and the whitespace behind it go. */
  lemma ClosingOfInner(x: string, w': string)
    requires Js.AllSpace(w')
    ensures StripClosingFence(Inner(x) + Fence + w') == Js.TrimStart(x)
  {
    var v := Inner(x);
    CutOfFenced(v, w');
    ClosingFenceIsCut(v + Fence + w');
    assert v != [] ==> (v + Fence + w')[..|v| - 1] == Js.TrimStart(x);
  }

  /** A fenced reply, with any whitespace around its parts, comes back as the trimmed text inside the fence. */
  lemma FencedReplyUnwrapped(tag: string, w: string, x: string, w': string)
    requires IsJsonTag(tag) && Js.AllSpace(w) && Js.AllSpace(w')
    ensures Cleaned(Fence + tag + w + x + "\n" + Fence + w') == Js.Trim(x)
  {
    var tail := "\n" + Fence + w';
    assert Fence + tag + w + x + "\n" + Fence + w' == Fence + tag + w + (x + tail);
    OpeningOfFenced(tag, w, x + tail);
    InnerKeepsFence(x, w');
    ClosingOfInner(x, w');
    Js.TrimStartIdempotent(x);
  }

  /** A fence without the `json` tag keeps its opening backticks: only the closing fence is taken off. */
  lemma UntaggedFenceKeepsOpening()
    ensures Cleaned("```\n{}\n```") == "```\n{}"
  {
    var s := "```\n{}\n```";
    assert !OpensWithFence(s) by {
      assert !IsJsonTag(s[3..7]) by { assert s[3] == '\n'; }
    }
    Js.TrimEndAt(s, 9);
    assert Js.TrimEnd(s) == s;
    ClosingFenceIsCut(s);
    assert s[6] == '\n';
    var r := s[..6];
    assert r == "```\n{}";
    assert !Js.IsSpace(r[0]) && !Js.IsSpace(r[5]);
  }

  /** A reply with no fence at either end is only trimmed. */
  lemma UnfencedReplyTrimmed(s: string)
    requires !OpensWithFence(s) && !EndsWith(Js.TrimEnd(s), Fence)
    ensures Cleaned(s) == Js.Trim(s)
  {
    ClosingFenceIsCut(s);
  }

  /* ---------------------------------------------------------------------- */
  /* Word count                                                              */
  /* ---------------------------------------------------------------------- */

  predicate NoSpace(s: string) {
    forall k | 0 <= k < |s| :: !Js.IsSpace(s[k])
  }

  /** The position of the first whitespace character. */
  function FirstSpace(s: string): (i: nat)
    requires !NoSpace(s)
    ensures i < |s| && Js.IsSpace(s[i]) && NoSpace(s[..i])
  {
    if Js.IsSpace(s[0]) then 0
    else
      var i := 1 + FirstSpace(s[1..]);
      assert s[..i] == [s[0]] + s[1..][..i - 1];
      i
  }

  /**
   * `s.split(/\s+/)`: the pieces between maximal runs of whitespace. A run at
   * either end leaves an empty piece there, so the empty text is one piece.
   */
  function Split(s: string): (pieces: seq<string>)
    ensures |pieces| >= 1
    decreases |s|
  {
    if NoSpace(s) then [s]
    else
      var i := FirstSpace(s);
      var rest := Js.TrimStart(s[i..]);
      Js.TrimStartShrinks(s[i..]);
      [s[..i]] + Split(rest)
  }

  /** How many maximal runs of whitespace the text holds, counted left to right. */
  function RunsFrom(s: string, inRun: bool): nat {
    if s == [] then 0
    else if Js.IsSpace(s[0]) then (if inRun then 0 else 1) + RunsFrom(s[1..], true)
    else RunsFrom(s[1..], false)
  }

  function Runs(s: string): nat {
    RunsFrom(s, false)
  }

  lemma {:induction false} RunsOfNoSpace(s: string)
    requires NoSpace(s)
    ensures Runs(s) == 0
  {
    if s != [] {
      assert NoSpace(s[1..]) by {
        assert forall k | 0 <= k < |s[1..]| :: s[1..][k] == s[k + 1];
      }
      RunsOfNoSpace(s[1..]);
    }
  }

  /** The split has one piece more than the text has whitespace runs. */
  lemma {:induction false} SplitCountsRuns(s: string)
    ensures |Split(s)| == Runs(s) + 1
    decreases |s|
  {
    if NoSpace(s) {
      RunsOfNoSpace(s);
    } else {
      var rest := Js.TrimStart(s[FirstSpace(s)..]);
      RunsAtFirstSpace(s);
      Js.TrimStartShrinks(s[FirstSpace(s)..]);
      SplitCountsRuns(rest);
      SplitUnfold(s);
    }
  }

  /** The first run of whitespace counts one, and counting goes on after it. */
  lemma RunsAtFirstSpace(s: string)
    requires !NoSpace(s)
    ensures Runs(s) == 1 + Runs(Js.TrimStart(s[FirstSpace(s)..]))
  {
    var u := s[FirstSpace(s)..];
    RunsBeforeSpace(s);
    assert u[0] == s[FirstSpace(s)];
    assert RunsFrom(u, false) == 1 + RunsFrom(u[1..], true);
    RunsInSpace(u[1..]);
    assert Js.TrimStart(u) == Js.TrimStart(u[1..]);
    RunsAfterSpace(Js.TrimStart(u));
  }

  /** Counting is not changed by the characters in front of the first whitespace. */
  lemma {:induction false} RunsBeforeSpace(s: string)
    requires !NoSpace(s)
    ensures RunsFrom(s, false) == RunsFrom(s[FirstSpace(s)..], false)
    decreases |s|
  {
    if !Js.IsSpace(s[0]) {
      var t := s[1..];
      assert !NoSpace(t) by {
        assert t[FirstSpace(s) - 1] == s[FirstSpace(s)];
      }
      RunsBeforeSpace(t);
      assert s[FirstSpace(s)..] == t[FirstSpace(t)..];
    }
  }

  /** Inside a run, the whitespace still to come adds nothing. */
  lemma {:induction false} RunsInSpace(x: string)
    ensures RunsFrom(x, true) == RunsFrom(Js.TrimStart(x), true)
  {
    if x != [] && Js.IsSpace(x[0]) {
      RunsInSpace(x[1..]);
    }
  }

  /** Before a non-space character, or at the end, it does not matter whether a run was open. */
  lemma RunsAfterSpace(y: string)
    requires y == [] || !Js.IsSpace(y[0])
    ensures RunsFrom(y, true) == RunsFrom(y, false)
  {
  }

  /** The first whitespace character is the one in front of which nothing is whitespace. */
  lemma FirstSpaceIs(s: string, i: nat)
    requires i < |s| && Js.IsSpace(s[i]) && NoSpace(s[..i])
    ensures !NoSpace(s) && FirstSpace(s) == i
  {
    var j := FirstSpace(s);
    assert forall k | 0 <= k < i :: s[..i][k] == s[k];
    assert forall k | 0 <= k < j :: s[..j][k] == s[k];
  }

  /** A text with whitespace splits into the piece before its first run and the split of what follows the run. */
  lemma SplitUnfold(s: string)
    requires !NoSpace(s)
    ensures Split(s) == [s[..FirstSpace(s)]] + Split(Js.TrimStart(s[FirstSpace(s)..]))
  {
  }

  /** A word followed by one space and a text that does not start with whitespace splits off as the first piece. */
  lemma SplitAtSpace(a: string, b: string)
    requires NoSpace(a) && (b == [] || !Js.IsSpace(b[0]))
    ensures Split(a + " " + b) == [a] + Split(b)
  {
    var s := a + " " + b;
    SpaceAfterWord(a, b);
    FirstSpaceIs(s, |a|);
    TrimAfterSpace(b);
    SplitUnfold(s);
  }

  lemma SpaceAfterWord(a: string, b: string)
    requires NoSpace(a)
    ensures var s := a + " " + b;
      |a| < |s| && Js.IsSpace(s[|a|]) && s[..|a|] == a && NoSpace(s[..|a|]) && s[|a|..] == " " + b
  {
    var s := a + " " + b;
    assert s[..|a|] == a;
    assert s[|a|..] == " " + b;
  }

  lemma TrimAfterSpace(b: string)
    requires b == [] || !Js.IsSpace(b[0])
    ensures Js.TrimStart(" " + b) == b
  {
    Js.TrimStartSkipsSpace(" ", b);
    assert Js.TrimStart(b) == b;
  }

  /** Words joined by single spaces. */
  function Words(ws: seq<string>): string
    requires |ws| >= 1
  {
    if |ws| == 1 then ws[0] else ws[0] + " " + Words(ws[1..])
  }

  /** Non-empty words without whitespace, joined by single spaces, split back into those words. */
  lemma {:induction false} SplitOfWords(ws: seq<string>)
    requires |ws| >= 1 && WordList(ws)
    ensures Split(Words(ws)) == ws
  {
    if |ws| > 1 {
      assert WordList(ws[1..]) by {
        forall k | 0 <= k < |ws[1..]| ensures ws[1..][k] != [] && NoSpace(ws[1..][k]) {
          assert ws[1..][k] == ws[k + 1];
        }
      }
      SplitOfWords(ws[1..]);
      SplitOfMoreWords(ws);
    }
  }

  /** Non-empty words without whitespace. */
  predicate WordList(ws: seq<string>) {
    forall k | 0 <= k < |ws| :: ws[k] != [] && NoSpace(ws[k])
  }

  lemma SplitOfMoreWords(ws: seq<string>)
    requires |ws| > 1 && ws[0] != [] && NoSpace(ws[0]) && ws[1] != []
    requires Split(Words(ws[1..])) == ws[1..]
    ensures Split(Words(ws)) == ws
  {
    var b := Words(ws[1..]);
    assert Words(ws) == ws[0] + " " + b;
    WordsStart(ws[1..]);
    SplitAtSpace(ws[0], b);
    assert ws == [ws[0]] + ws[1..];
  }

  /** Joined words start with the first character of the first word. */
  lemma WordsStart(ws: seq<string>)
    requires |ws| >= 1 && ws[0] != []
    ensures Words(ws) != [] && Words(ws)[0] == ws[0][0]
  {
    if |ws| > 1 {
      assert Words(ws) == ws[0] + (" " + Words(ws[1..]));
    }
  }

  /** The number `body.split(/\s+/).length` stored as the word count. */
  function WordCount(s: string): nat {
    |Split(s)|
  }

  /** A text without whitespace is one piece. */
  lemma OneWord(a: string)
    requires NoSpace(a)
    ensures WordCount(a) == 1
  {
  }

  /** A word and a space in front of a text that does not start with whitespace add one to its count. */
  lemma OneMoreWord(a: string, b: string)
    requires NoSpace(a) && b != [] && !Js.IsSpace(b[0])
    ensures WordCount(a + " " + b) == WordCount(b) + 1
    ensures a != [] ==> (a + " " + b)[0] == a[0]
  {
    SplitAtSpace(a, b);
  }

  /** The empty message counts one word, and whitespace at both ends counts two more. */
  lemma WordCountEdges()
    ensures WordCount("") == 1
    ensures WordCount(" a ") == 3
  {
    var s := " a ";
    assert !NoSpace(s) by { assert Js.IsSpace(s[0]); }
    assert FirstSpace(s) == 0;
    assert s[0..] == s;
    assert Js.TrimStart(s) == "a " by {
      assert s[1..] == "a ";
    }
    var t := "a ";
    assert !NoSpace(t) by { assert Js.IsSpace(t[1]); }
    assert FirstSpace(t) == 1;
    assert t[1..] == " ";
    assert Js.TrimStart(" ") == "" by {
      assert " "[1..] == "";
    }
    assert Split("") == [""];
  }

  /* ---------------------------------------------------------------------- */
  /* The model's reply and the fallback                                      */
  /* ---------------------------------------------------------------------- */

  /**
   * What came back from the completion call: the call threw, or it answered
   * with a status and, when the reply has one, the string at
   * `content[0].text` (None when that path is missing or not a string, so that
   * reading or cleaning it throws).
   */
  datatype Completion = CallFailed | Answered(status: int, text: Option<string>)

  /**
   * How the extraction ended: the cleaned reply parsed, the fallback record was
   * built, or building the fallback itself threw (the message was absent, so
   * `body.split` failed inside the handler).
   */
  datatype Extraction = Parsed(value: Json) | FellBack(value: Json) | Escaped

  /** The field names of the JSON the model is asked for, and of the fallback. */
  const ExtractedKeys: seq<string> :=
    ["mood", "energy", "doing", "intention", "doing_category", "location", "social_context", "insights", "word_count"]

  /** The minimal record used when the model gives nothing usable. */
  function Fallback(body: string): (r: Json) {
    Js.Obj(map[
      "mood" := Js.Null, "energy" := Js.Null, "doing" := Js.Null, "intention" := Js.Null,
      "doing_category" := Js.Null, "location" := Js.Null, "social_context" := Js.Null,
      "insights" := Js.Obj(map[]),
      "word_count" := Js.Num(WordCount(body) as real)])
  }

  /** The reply text the parser is given, when the call succeeded with a usable text. */
  function ReplyText(c: Completion): Option<string> {
    if c.Answered? && c.status == 200 && c.text.Some? then Some(Cleaned(c.text.value)) else None
  }

  /**
   * The extracted value: the parsed reply when the call answered 200 with a
   * text that parses, otherwise the fallback built from the message.
   * `parse` stands for `JSON.parse`, None meaning that it throws.
   */
  function Extract(body: Option<string>, c: Completion, parse: string -> Option<Json>): Extraction {
    var parsed := if ReplyText(c).Some? then parse(ReplyText(c).value) else None;
    if parsed.Some? then Parsed(parsed.value)
    else if body.Some? then FellBack(Fallback(body.value))
    else Escaped
  }

  /** The reply is used exactly when the call answered 200 with a text whose cleaned form parses; it is used as parsed. */
  lemma ParsedIff(body: Option<string>, c: Completion, parse: string -> Option<Json>)
    ensures Extract(body, c, parse).Parsed? <==>
      c.Answered? && c.status == 200 && c.text.Some? && parse(Cleaned(c.text.value)).Some?
    ensures Extract(body, c, parse).Parsed? ==> Extract(body, c, parse).value == parse(Cleaned(c.text.value)).value
  {
    if ReplyText(c).Some? {
      assert ReplyText(c).value == Cleaned(c.text.value);
    }
  }

  /** Any other outcome falls back to the record built from the message, or escapes when there is no message. */
  lemma FallbackWhenUnusable(body: Option<string>, c: Completion, parse: string -> Option<Json>)
    requires c.CallFailed? || c.status != 200 || c.text.None? || parse(Cleaned(c.text.value)).None?
    ensures body.Some? ==> Extract(body, c, parse) == FellBack(Fallback(body.value))
    ensures body.None? ==> Extract(body, c, parse) == Escaped
  {
    var parsed := if ReplyText(c).Some? then parse(ReplyText(c).value) else None;
    assert parsed.None? by {
      if ReplyText(c).Some? {
        assert ReplyText(c).value == Cleaned(c.text.value);
      }
    }
  }

  /** The fallback has every extracted field, all unknown but the empty insights and a word count of at least one. */
  lemma FallbackShape(body: string)
    ensures Fallback(body).Obj? && Fallback(body).members.Keys == set k | k in ExtractedKeys
    ensures forall k | k in ExtractedKeys[..7] :: Fallback(body).members[k] == Js.Null
    ensures Fallback(body).members["insights"] == Js.Obj(map[])
    ensures Fallback(body).members["word_count"] == Js.Num((Runs(body) + 1) as real)
    ensures Runs(body) + 1 >= 1
  {
    SplitCountsRuns(body);
  }
}
