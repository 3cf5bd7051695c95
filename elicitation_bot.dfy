/**
 * The deterministic core of `ElicitationBot` (core/elicitation_bot.py):
 * the story-prompt rotation, the validation in `save_preference`, the
 * filter over regex captures, the parser for the `PREFERENCE: ...` line of
 * an LLM reply, the choice of the detected preference, the per-user
 * conversation histories with their ten-message context window, and the
 * two ways the preference list is written into a prompt.
 *
 * The LLM's replies, the regex engine's matches, uuid4 and the clock are
 * inputs; `random.choice` is a nondeterministic pick.
 */
module Elicitation {
  import opened Wrappers
  import opened Text
  import opened Preferences

  // ---------------------------------------------------------------------
  // Story prompts
  // ---------------------------------------------------------------------

  /** `STORY_PROMPT_QUESTIONS`, in order. */
  const StoryPromptQuestions: seq<string> := [
    "What's a favorite memory from your childhood?",
    "Tell me about a place you've visited that left an impression on you.",
    "What's something you're looking forward to in the near future?",
    "What's a hobby or activity that brings you joy?",
    "Tell me about a book, movie, or show that you enjoyed recently.",
    "What's a typical day like for you?",
    "What's something you're passionate about?",
    "What's a challenge you've overcome that you're proud of?",
    "If you could travel anywhere, where would you go and why?",
    "What's your ideal way to spend a free day?"
  ]

  const StoryPrompts: set<string> := set q | q in StoryPromptQuestions

  /** The comprehension `[q for q in qs if q not in used]`. */
  function Unused(qs: seq<string>, used: set<string>): (r: seq<string>)
    ensures |r| <= |qs|
    ensures forall q :: q in r <==> q in qs && q !in used
  {
    if qs == [] then []
    else (if qs[0] in used then [] else [qs[0]]) + Unused(qs[1..], used)
  }

  /** The ten questions are distinct, so the rotation runs over ten prompts. */
  lemma StoryPromptsCount()
    ensures |StoryPrompts| == |StoryPromptQuestions| == 10
  {
    DistinctCard(StoryPromptQuestions);
  }

  /** A sequence without repeats has as many distinct elements as entries. */
  lemma {:induction false} DistinctCard(qs: seq<string>)
    requires forall i, j | 0 <= i < j < |qs| :: qs[i] != qs[j]
    ensures |set q | q in qs| == |qs|
  {
    if qs != [] {
      DistinctCard(qs[1..]);
      var rest := set q | q in qs[1..];
      assert qs[0] !in rest;
      assert (set q | q in qs) == {qs[0]} + rest;
    }
  }

  /**
   * One call of `_get_story_prompt`, as a relation between the used set
   * before, the prompt returned and the used set after: while some
   * question is unused the prompt is an unused one and joins the set; once
   * all are used the set restarts from just the prompt returned.
   */
  ghost function StoryStep(questions: set<string>, used: set<string>, prompt: string, used': set<string>): (ok: bool)
    ensures ok ==> prompt in used'
    ensures ok ==> |used'| == |used| + 1 || used' == {prompt}
    ensures ok && used <= questions ==> used' <= questions
  {
    && prompt in questions
    && if questions <= used then used' == {prompt}
       else prompt !in used && used' == used + {prompt}
  }

  /**
   * The rotation never repeats a prompt before all have been asked: in any
   * run of at most |questions| calls from an empty set, the prompts are
   * pairwise distinct and the used set holds exactly the ones asked.
   */
  lemma {:induction false} RotationNoRepeat(questions: set<string>, states: seq<set<string>>, prompts: seq<string>)
    requires |states| == |prompts| + 1 && states[0] == {}
    requires forall i | 0 <= i < |prompts| :: StoryStep(questions, states[i], prompts[i], states[i + 1])
    requires |prompts| <= |questions|
    ensures forall i, j | 0 <= i < j < |prompts| :: prompts[i] != prompts[j]
    ensures |states[|prompts|]| == |prompts|
    ensures states[|prompts|] <= questions
    ensures forall i | 0 <= i < |prompts| :: prompts[i] in states[|prompts|]
  {
    var n := |prompts|;
    if n > 0 {
      RotationNoRepeat(questions, states[..n], prompts[..n - 1]);
      var before := states[n - 1];
      assert |before| == n - 1 && before <= questions;
      assert forall i | 0 <= i < n - 1 :: prompts[i] in before;
      assert StoryStep(questions, before, prompts[n - 1], states[n]);
      if questions <= before {
        SubsetCard(questions, before);
        assert false;
      }
    }
  }

  lemma SubsetCard(a: set<string>, b: set<string>)
    requires a <= b
    ensures |a| <= |b|
  {
    assert b == a + (b - a);
  }

  /** After |questions| calls from an empty set every question has been asked, so the next call resets. */
  lemma RotationCompletes(questions: set<string>, states: seq<set<string>>, prompts: seq<string>)
    requires |states| == |prompts| + 1 && states[0] == {}
    requires forall i | 0 <= i < |prompts| :: StoryStep(questions, states[i], prompts[i], states[i + 1])
    requires |prompts| == |questions|
    ensures states[|prompts|] == questions
  {
    RotationNoRepeat(questions, states, prompts);
    var last := states[|prompts|];
    SubsetCard(questions - last, questions);
    assert |questions| == |last| + |questions - last| by {
      assert questions == last + (questions - last);
    }
  }

  // ---------------------------------------------------------------------
  // Validation in save_preference
  // ---------------------------------------------------------------------

  /** The source `save_preference` records when its caller names none. */
  const StoryDetected: string := "story_detected"

  /**
   * The guard of `save_preference`: the text is empty, or shorter than
   * three characters once stripped. The emptiness test adds nothing: the
   * length test alone decides.
   */
  function Rejected(text: string): (rejected: bool)
    ensures rejected <==> |Strip(text)| < 3
  {
    text == [] || |Strip(text)| < 3
  }

  /** Padding never gets a short text past the guard. */
  lemma RejectedIgnoresPadding(pre: string, s: string, post: string)
    requires forall k | 0 <= k < |pre| :: IsSpace(pre[k])
    requires forall k | 0 <= k < |post| :: IsSpace(post[k])
    requires s != [] ==> !IsSpace(s[0]) && !IsSpace(s[|s| - 1])
    ensures Rejected(pre + s + post) <==> |s| < 3
  {
    StripPadded(pre, s, post);
    StripIdempotent(s);
    assert LStrip(s) == s && RStrip(s) == s;
  }

  /**
   * What the `n`-th save appends to the table: nothing for a rejected text,
   * otherwise the record dict wrapped by `add_preference` under the default
   * source. The dict's id is `uuids(2 * n)`, the table's id
   * `uuids(2 * n + 1)`, the timestamp `clock(n)`.
   */
  function SavedOne(text: string, source: string, uuids: nat -> string, clock: nat -> string, n: nat): seq<Pref>
  {
    if Rejected(text) then []
    else [Pref(SavedRecord(uuids(2 * n), text, source, clock(n)), DefaultSource, uuids(2 * n + 1))]
  }

  /** The concatenation of `f(xs[i], n + i)`: each item's output, numbered from `n`. */
  function Numbered<T, U>(xs: seq<T>, f: (T, nat) -> seq<U>, n: nat): seq<U>
  {
    if xs == [] then [] else f(xs[0], n) + Numbered(xs[1..], f, n + 1)
  }

  /** Numbering a concatenation numbers one part, then the other from where the first stopped. */
  lemma {:induction false} NumberedConcat<T, U>(a: seq<T>, b: seq<T>, f: (T, nat) -> seq<U>, n: nat)
    ensures Numbered(a + b, f, n) == Numbered(a, f, n) + Numbered(b, f, n + |a|)
  {
    if a == [] {
      assert a + b == b;
    } else {
      assert (a + b)[0] == a[0];
      assert (a + b)[1..] == a[1..] + b;
      NumberedConcat(a[1..], b, f, n + 1);
    }
  }

  /** The `n`-th save, as a function of the text and `n`. */
  function Saver(source: string, uuids: nat -> string, clock: nat -> string): (string, nat) -> seq<Pref>
  {
    (text: string, n: nat) => SavedOne(text, source, uuids, clock, n)
  }

  /** The records that saving each of `texts` in turn appends, starting with the `base`-th save. */
  function SavedRecords(texts: seq<string>, source: string, uuids: nat -> string, clock: nat -> string, base: nat): seq<Pref>
  {
    Numbered(texts, Saver(source, uuids, clock), base)
  }

  /** A prefix one longer is the prefix followed by the next element. */
  lemma PrefixGrows<T>(s: seq<T>, i: nat)
    requires i < |s|
    ensures s[..i + 1] == s[..i] + [s[i]]
  {
  }

  /** Appending two pieces in turn appends their concatenation. */
  lemma AppendAssociative<T>(a: seq<T>, b: seq<T>, c: seq<T>)
    ensures a + b + c == a + (b + c)
  {
  }

  /** The first text is saved first, with the `base`-th uuids and clock reading. */
  lemma SavedRecordsHead(texts: seq<string>, source: string, uuids: nat -> string, clock: nat -> string, base: nat)
    requires texts != []
    ensures SavedRecords(texts, source, uuids, clock, base)
         == SavedOne(texts[0], source, uuids, clock, base) + SavedRecords(texts[1..], source, uuids, clock, base + 1)
  {
  }

  /** Saving a concatenation saves one part, then the other with the following uuids and clock readings. */
  lemma SavedRecordsConcat(a: seq<string>, b: seq<string>, source: string, uuids: nat -> string, clock: nat -> string, base: nat)
    ensures SavedRecords(a + b, source, uuids, clock, base)
         == SavedRecords(a, source, uuids, clock, base) + SavedRecords(b, source, uuids, clock, base + |a|)
  {
    NumberedConcat(a, b, Saver(source, uuids, clock), base);
  }

  /**
   * Every record is a record dict under the default source, whose own
   * source is `source` and whose text passed the guard.
   */
  ghost predicate SavedShape(r: seq<Pref>, source: string)
  {
    forall k | 0 <= k < |r| ::
      && r[k].source == DefaultSource && r[k].text.SavedRecord? && r[k].text.source == source
      && !Rejected(r[k].text.text)
  }

  /**
   * Only texts that pass the guard are saved, each as a record dict under
   * the default source, and at most one record per text.
   */
  lemma {:induction false} SavedRecordsAccepted(texts: seq<string>, source: string, uuids: nat -> string, clock: nat -> string, base: nat)
    ensures SavedShape(SavedRecords(texts, source, uuids, clock, base), source)
    ensures |SavedRecords(texts, source, uuids, clock, base)| <= |texts|
  {
    if texts != [] {
      SavedRecordsAccepted(texts[1..], source, uuids, clock, base + 1);
      SavedRecordsHead(texts, source, uuids, clock, base);
      var rest := SavedRecords(texts[1..], source, uuids, clock, base + 1);
      var head := SavedOne(texts[0], source, uuids, clock, base);
      var r := SavedRecords(texts, source, uuids, clock, base);
      assert r == head + rest;
      forall k | 0 <= k < |r|
        ensures r[k].source == DefaultSource && r[k].text.SavedRecord? && r[k].text.source == source
        ensures !Rejected(r[k].text.text)
      {
        if k < |head| {
          assert r[k] == head[0];
        } else {
          assert r[k] == rest[k - |head|];
        }
      }
    }
  }

  /** Saving one text appends its record dict, or nothing when the guard rejects it. */
  lemma SavedRecordsSingle(text: string, source: string, uuids: nat -> string, clock: nat -> string, base: nat)
    ensures SavedRecords([text], source, uuids, clock, base) ==
      if Rejected(text) then []
      else [Pref(SavedRecord(uuids(2 * base), text, source, clock(base)), DefaultSource, uuids(2 * base + 1))]
  {
    SavedRecordsHead([text], source, uuids, clock, base);
    assert [text][1..] == [];
  }

  /** Every text that passes the guard is saved, so nothing is lost when none is rejected. */
  lemma {:induction false} SavedRecordsAll(texts: seq<string>, source: string, uuids: nat -> string, clock: nat -> string, base: nat)
    requires forall k | 0 <= k < |texts| :: !Rejected(texts[k])
    ensures |SavedRecords(texts, source, uuids, clock, base)| == |texts|
    ensures forall k | 0 <= k < |texts| ::
      SavedRecords(texts, source, uuids, clock, base)[k].text.SavedRecord?
      && SavedRecords(texts, source, uuids, clock, base)[k].text.text == texts[k]
  {
    if texts != [] {
      SavedRecordsAll(texts[1..], source, uuids, clock, base + 1);
      SavedRecordsHead(texts, source, uuids, clock, base);
    }
  }

  // ---------------------------------------------------------------------
  // Pattern extraction, after the regex engine
  // ---------------------------------------------------------------------

  /** One `re.finditer` match, seen through `match.groups()`. */
  datatype Match = Match(groups: seq<string>)

  /** The test applied to each match: it has a group, and group 1 is longer than five characters. */
  predicate Keeps(m: Match)
  {
    |m.groups| > 0 && |m.groups[0]| > 5
  }

  /** The matches of all patterns, pattern by pattern. */
  function Flatten(mss: seq<seq<Match>>): seq<Match>
  {
    if mss == [] then [] else mss[0] + Flatten(mss[1..])
  }

  /** Group 1 of each kept match, stripped, in match order. */
  function KeptCaptures(ms: seq<Match>): (r: seq<string>)
    ensures |r| <= |ms|
  {
    if ms == [] then []
    else (if Keeps(ms[0]) then [Strip(ms[0].groups[0])] else []) + KeptCaptures(ms[1..])
  }

  /** Every kept capture is already stripped. */
  lemma {:induction false} KeptCapturesStripped(ms: seq<Match>)
    ensures forall k | 0 <= k < |KeptCaptures(ms)| :: Strip(KeptCaptures(ms)[k]) == KeptCaptures(ms)[k]
  {
    if ms != [] {
      KeptCapturesStripped(ms[1..]);
      if Keeps(ms[0]) {
        StripIdempotent(ms[0].groups[0]);
      }
    }
  }

  /**
   * What `_extract_preferences_with_pattern` returns, given the matches
   * each pattern found in the text: the kept captures in pattern order,
   * then match order.
   */
  function ExtractedPreferences(mss: seq<seq<Match>>): (r: seq<string>)
    ensures |r| <= |Flatten(mss)|
    ensures forall k | 0 <= k < |r| :: Strip(r[k]) == r[k]
  {
    KeptCapturesStripped(Flatten(mss));
    KeptCaptures(Flatten(mss))
  }

  /** Captures are kept match by match: the result for a concatenation is the concatenation of results. */
  lemma {:induction false} KeptCapturesConcat(a: seq<Match>, b: seq<Match>)
    ensures KeptCaptures(a + b) == KeptCaptures(a) + KeptCaptures(b)
  {
    if a == [] {
      assert a + b == b;
    } else {
      assert (a + b)[0] == a[0];
      assert (a + b)[1..] == a[1..] + b;
      KeptCapturesConcat(a[1..], b);
      var head := if Keeps(a[0]) then [Strip(a[0].groups[0])] else [];
      assert KeptCaptures(a + b) == head + (KeptCaptures(a[1..]) + KeptCaptures(b));
      assert KeptCaptures(a) == head + KeptCaptures(a[1..]);
    }
  }

  /** Results of earlier patterns come first: extraction over two groups of patterns concatenates. */
  lemma {:induction false} ExtractedConcat(a: seq<seq<Match>>, b: seq<seq<Match>>)
    ensures ExtractedPreferences(a + b) == ExtractedPreferences(a) + ExtractedPreferences(b)
  {
    FlattenConcat(a, b);
    KeptCapturesConcat(Flatten(a), Flatten(b));
  }

  lemma {:induction false} FlattenConcat(a: seq<seq<Match>>, b: seq<seq<Match>>)
    ensures Flatten(a + b) == Flatten(a) + Flatten(b)
  {
    if a == [] {
      assert a + b == b;
    } else {
      assert (a + b)[0] == a[0];
      assert (a + b)[1..] == a[1..] + b;
      FlattenConcat(a[1..], b);
    }
  }

  /** One match contributes its stripped capture exactly when it is longer than five characters. */
  lemma SingleMatch(m: Match)
    ensures ExtractedPreferences([[m]]) == if Keeps(m) then [Strip(m.groups[0])] else []
  {
    assert Flatten([[m]]) == [m] + Flatten([]);
    assert KeptCaptures([m]) == (if Keeps(m) then [Strip(m.groups[0])] else []) + KeptCaptures([]);
  }

  // ---------------------------------------------------------------------
  // Reading the PREFERENCE line of an extraction reply
  // ---------------------------------------------------------------------

  const Marker: string := "PREFERENCE: "

  /** Where `PREFERENCE: (.+)` can match: the marker, then at least one character other than a newline. */
  predicate MarkerAt(s: string, i: nat)
  {
    i + |Marker| < |s| && s[i..i + |Marker|] == Marker && s[i + |Marker|] != '\n'
  }

  /** The leftmost position at or after `from` where the pattern matches, or `|s|`. */
  function FirstMarker(s: string, from: nat): (k: nat)
    requires from <= |s|
    ensures from <= k <= |s|
    ensures k < |s| ==> MarkerAt(s, k)
    ensures forall j | from <= j < k :: !MarkerAt(s, j)
    decreases |s| - from
  {
    if from == |s| then |s|
    else if MarkerAt(s, from) then from
    else FirstMarker(s, from + 1)
  }

  /** What the greedy `.+` takes from `start`: everything up to the next newline or the end. */
  function LineFrom(s: string, start: nat): (line: string)
    requires start <= |s|
    ensures start + |line| <= |s| && line == s[start..start + |line|]
    ensures '\n' !in line
    ensures start + |line| == |s| || s[start + |line|] == '\n'
    decreases |s| - start
  {
    if start == |s| || s[start] == '\n' then []
    else [s[start]] + LineFrom(s, start + 1)
  }

  /**
   * The parsing in `_extract_preference_from_response`: group 1 of the
   * leftmost match, stripped; None when there is no match or the group
   * strips to `NONE`.
   */
  function ParseReply(reply: string): (r: Option<string>)
    ensures r != Some("NONE")
  {
    var k := FirstMarker(reply, 0);
    if k == |reply| then None
    else
      var p := Strip(LineFrom(reply, k + |Marker|));
      if p == "NONE" then None else Some(p)
  }

  /**
   * Without a match the parse is None; a parsed preference is a stripped
   * piece of one line.
   */
  lemma ParseReplyShape(reply: string)
    ensures (forall k | 0 <= k < |reply| :: !MarkerAt(reply, k)) ==> ParseReply(reply) == None
    ensures var r := ParseReply(reply); r.Some? ==> '\n' !in r.value && Strip(r.value) == r.value
  {
    var k := FirstMarker(reply, 0);
    if k < |reply| {
      var line := LineFrom(reply, k + |Marker|);
      StripIdempotent(line);
      StripInside(line);
    }
  }

  /** A stripped line is a piece of it, so it holds no newline either. */
  lemma StripInside(s: string)
    requires '\n' !in s
    ensures '\n' !in Strip(s)
  {
    var l := LStrip(s);
    LStripSlice(s);
    RStripSlice(l);
    assert forall c | c in l :: c in s;
    assert forall c | c in RStrip(l) :: c in l;
  }

  /**
   * A reply whose first line is `PREFERENCE: ` and a statement parses to the
   * stripped statement, or to None when it strips to `NONE`, whatever the
   * lines after it say.
   */
  lemma ParseFirstLine(statement: string, tail: string)
    requires statement != [] && '\n' !in statement
    requires tail == [] || tail[0] == '\n'
    ensures ParseReply(Marker + statement + tail) == if Strip(statement) == "NONE" then None else Some(Strip(statement))
  {
    var s := Marker + statement + tail;
    assert s[0..|Marker|] == Marker;
    assert s[|Marker|] == statement[0];
    assert MarkerAt(s, 0);
    assert s[|Marker|..|Marker| + |statement|] == statement;
    LineUpTo(s, |Marker|, statement);
  }

  /** The line read from `start` is `line` when `line` sits there and is followed by a newline or the end. */
  lemma {:induction false} LineUpTo(s: string, start: nat, line: string)
    requires start + |line| <= |s| && s[start..start + |line|] == line && '\n' !in line
    requires start + |line| == |s| || s[start + |line|] == '\n'
    ensures LineFrom(s, start) == line
    decreases |line|
  {
    if line != [] {
      assert s[start] == line[0];
      assert s[start + 1..start + 1 + |line[1..]|] == line[1..];
      LineUpTo(s, start + 1, line[1..]);
    }
  }

  /**
   * A reply in the requested format reads back: `PREFERENCE: ` and a
   * one-line statement, alone or followed by further lines, gives the
   * stripped statement, unless the statement is `NONE`.
   */
  lemma ParseReplyRoundTrip(statement: string, rest: string)
    requires statement != [] && '\n' !in statement
    requires Strip(statement) != "NONE"
    ensures ParseReply(Marker + statement) == Some(Strip(statement))
    ensures ParseReply(Marker + statement + "\n" + rest) == Some(Strip(statement))
  {
    ParseFirstLine(statement, []);
    assert Marker + statement + [] == Marker + statement;
    ParseFirstLine(statement, "\n" + rest);
    assert Marker + statement + "\n" + rest == Marker + statement + ("\n" + rest);
  }

  /** The reply for "no preference", alone or followed by further lines, parses to None. */
  lemma ParseReplyNone(rest: string)
    ensures ParseReply(Marker + "NONE") == None
    ensures ParseReply(Marker + "NONE" + "\n" + rest) == None
  {
    StripTrimmed("NONE");
    ParseFirstLine("NONE", []);
    assert Marker + "NONE" + [] == Marker + "NONE";
    ParseFirstLine("NONE", "\n" + rest);
    assert Marker + "NONE" + "\n" + rest == Marker + "NONE" + ("\n" + rest);
  }

  // ---------------------------------------------------------------------
  // Choosing the detected preference
  // ---------------------------------------------------------------------

  /**
   * What the extraction call to the LLM produced: a reply to parse, or a
   * failure, which `_extract_preference_from_response` catches and turns
   * into None.
   */
  datatype Extraction = Reply(text: string) | Raised

  /**
   * The LLM's preference, as `_extract_preference_from_response` returns it:
   * a failed call gives None, and a parsed preference is a stripped piece of
   * one line and never `NONE`, so the caller's `NONE` test can never fire.
   */
  function LlmPreference(e: Extraction): (r: Option<string>)
    ensures e.Raised? ==> r == None
    ensures r.Some? ==> '\n' !in r.value && Strip(r.value) == r.value
    ensures Usable(r) <==> r.Some? && r.value != []
  {
    match e
    case Reply(text) =>
      ParseReplyShape(text);
      ParseReply(text)
    case Raised => None
  }

  /** `llm_preference and llm_preference != "NONE"`. */
  predicate Usable(p: Option<string>)
  {
    p.Some? && p.value != [] && p.value != "NONE"
  }

  /**
   * The detected preference of `process_message`: the LLM's when usable,
   * else the first pattern capture, else None.
   */
  function Detected(e: Extraction, patternPrefs: seq<string>): (r: Option<string>)
    ensures Usable(LlmPreference(e)) ==> r == LlmPreference(e)
    ensures !Usable(LlmPreference(e)) && patternPrefs != [] ==> r == Some(patternPrefs[0])
    ensures r.None? <==> !Usable(LlmPreference(e)) && patternPrefs == []
  {
    match e
    case Raised =>
      if patternPrefs == [] then None else Some(patternPrefs[0])
    case Reply(text) =>
      var llm := ParseReply(text);
      if llm.Some? && llm.value != [] && llm.value != "NONE" then llm
      else if patternPrefs != [] then Some(patternPrefs[0])
      else None
  }

  /**
   * The records one message's extraction appends: every pattern capture
   * under `patternSource`, numbered from the first save, then the LLM's
   * preference, when usable, under `llmSource`.
   */
  function ExtractionRecords(mss: seq<seq<Match>>, e: Extraction, patternSource: string, llmSource: string,
                             uuids: nat -> string, clock: nat -> string): seq<Pref>
  {
    var captures := ExtractedPreferences(mss);
    var llm := LlmPreference(e);
    SavedRecords(captures, patternSource, uuids, clock, 0)
      + (if Usable(llm) then SavedRecords([llm.value], llmSource, uuids, clock, |captures|) else [])
  }

  // ---------------------------------------------------------------------
  // Conversation histories and the context window
  // ---------------------------------------------------------------------

  datatype Role = System | User | Assistant

  /** `{"role": ..., "content": ...}`. */
  datatype ChatMessage = ChatMessage(role: Role, content: string)

  /** Stand-ins for the prompt texts, whose wording is not modelled. */
  const ElicitationSystemPrompt: string := "<ELICITATION_SYSTEM_PROMPT>"
  const InferencePromptHead: string := "<INFERENCE_SYSTEM_PROMPT before {preferences}>"
  const InferencePromptTail: string := "<INFERENCE_SYSTEM_PROMPT after {preferences}>"

  /** How many history entries the LLM sees. */
  const ContextWindow: nat := 10

  /** Updating a key twice keeps only the second value. */
  lemma UpdateTwice<K, V>(m: map<K, V>, k: K, first: V, second: V)
    ensures m[k := first][k := second] == m[k := second]
  {
  }

  /** A user's history, empty for a user not seen before. */
  function HistoryOf(conversations: map<string, seq<ChatMessage>>, user: string): seq<ChatMessage>
  {
    if user in conversations then conversations[user] else []
  }

  /** `history[-10:]`: the last ten entries, or all of them when there are fewer. */
  function LastEntries(history: seq<ChatMessage>): (w: seq<ChatMessage>)
    ensures |w| == if |history| < ContextWindow then |history| else ContextWindow
    ensures w == history[|history| - |w|..]
  {
    if |history| <= ContextWindow then history else history[|history| - ContextWindow..]
  }

  /** The messages `process_message` sends: the system prompt, then the window of the history. */
  function ElicitationContext(history: seq<ChatMessage>): (c: seq<ChatMessage>)
    ensures |c| == 1 + if |history| < ContextWindow then |history| else ContextWindow
    ensures c[0] == ChatMessage(System, ElicitationSystemPrompt)
    ensures forall k | 1 <= k < |c| :: c[k] == history[|history| - |c| + k]
  {
    [ChatMessage(System, ElicitationSystemPrompt)] + LastEntries(history)
  }

  /**
   * Once the user's message is in the history, the context starts with the
   * system prompt, ends with that message, holds at most eleven messages,
   * and keeps the history's order.
   */
  lemma ContextEndsWithMessage(history: seq<ChatMessage>, message: string)
    ensures var c := ElicitationContext(history + [ChatMessage(User, message)]);
      && 2 <= |c| <= ContextWindow + 1
      && c[0] == ChatMessage(System, ElicitationSystemPrompt)
      && c[|c| - 1] == ChatMessage(User, message)
      && forall k | 1 <= k < |c| - 1 :: c[k] == history[|history| - |c| + 1 + k]
  {
  }

  // ---------------------------------------------------------------------
  // Writing the preference list into a prompt
  // ---------------------------------------------------------------------

  const NoPreferencesLearned: string := "No preferences have been learned yet."
  const NoPreferencesKnown: string := "No preferences known yet."

  /** `"- " + text + "\n"` per record, concatenated in list order. */
  function PromptLines(ps: seq<Pref>): (r: string)
    ensures |r| >= 3 * |ps|
  {
    if ps == [] then [] else PromptLine(ps[0]) + PromptLines(ps[1..])
  }

  /** One record's line of that listing. */
  function PromptLine(p: Pref): string
  {
    "- " + Render(p.text) + "\n"
  }

  /** `_format_preferences_for_prompt`, given the list it reads. */
  function PreferencesForPrompt(ps: seq<Pref>): (r: string)
    ensures r == NoPreferencesLearned <==> ps == []
    ensures ps != [] ==> |r| > 0 && r[|r| - 1] == '\n'
  {
    if ps == [] then NoPreferencesLearned
    else
      PromptLinesEnds(ps);
      PromptLines(ps)
  }

  /** A non-empty listing starts with a dash and ends with a newline. */
  lemma {:induction false} PromptLinesEnds(ps: seq<Pref>)
    requires ps != []
    ensures var r := PromptLines(ps); |r| >= 3 && r[0] == '-' && r[1] == ' ' && r[|r| - 1] == '\n'
  {
    var r := PromptLines(ps);
    var rest := PromptLines(ps[1..]);
    assert r == PromptLine(ps[0]) + rest;
    if ps[1..] != [] {
      PromptLinesEnds(ps[1..]);
    }
  }

  /** `"\n".join("- " + text for each record)`. */
  function InferenceLines(ps: seq<Pref>): (r: string)
    requires ps != []
    ensures |r| >= 3 * |ps| - 1
    ensures r[..2] == "- "
  {
    if |ps| == 1 then "- " + Render(ps[0].text)
    else "- " + Render(ps[0].text) + "\n" + InferenceLines(ps[1..])
  }

  /** The listing `process_inference_message` puts into its system prompt. */
  function PreferencesForInference(ps: seq<Pref>): (r: string)
    ensures r == NoPreferencesKnown <==> ps == []
  {
    if ps == [] then NoPreferencesKnown
    else
      assert NoPreferencesKnown[..2] == "No";
      InferenceLines(ps)
  }

  /** The inference system prompt with the listing substituted for `{preferences}`. */
  function InferencePrompt(listing: string): string
  {
    InferencePromptHead + listing + InferencePromptTail
  }

  /**
   * The two formatters agree on a non-empty list up to the final newline,
   * and differ only in the sentence used for an empty one.
   */
  lemma {:induction false} FormattersAgree(ps: seq<Pref>)
    ensures ps != [] ==> PreferencesForPrompt(ps) == PreferencesForInference(ps) + "\n"
    ensures ps == [] ==> PreferencesForPrompt(ps) == NoPreferencesLearned && PreferencesForInference(ps) == NoPreferencesKnown
  {
    if ps != [] {
      LinesAgree(ps);
    }
  }

  lemma {:induction false} LinesAgree(ps: seq<Pref>)
    requires ps != []
    ensures PromptLines(ps) == InferenceLines(ps) + "\n"
  {
    if |ps| == 1 {
      assert PromptLines(ps[1..]) == [];
    } else {
      LinesAgree(ps[1..]);
      AppendAssociative(PromptLine(ps[0]), InferenceLines(ps[1..]), "\n");
    }
  }

  /** Listing a concatenation lists one part after the other. */
  lemma {:induction false} PromptLinesConcat(a: seq<Pref>, b: seq<Pref>)
    ensures PromptLines(a + b) == PromptLines(a) + PromptLines(b)
  {
    if a == [] {
      assert a + b == b;
    } else {
      assert (a + b)[0] == a[0];
      assert (a + b)[1..] == a[1..] + b;
      PromptLinesConcat(a[1..], b);
    }
  }

  /** The listing of one record is its single line. */
  lemma PromptLinesSingle(p: Pref)
    ensures PromptLines([p]) == "- " + Render(p.text) + "\n"
  {
  }

  /**
   * One line per record: when no record's text renders with a newline, the
   * listing holds exactly one newline per record. Record dicts, which is
   * what `save_preference` stores, always qualify (`RenderRecordOneLine`).
   */
  lemma {:induction false} PromptLinesCount(ps: seq<Pref>)
    requires forall k | 0 <= k < |ps| :: '\n' !in Render(ps[k].text)
    ensures multiset(PromptLines(ps))['\n'] == |ps|
  {
    if ps != [] {
      PromptLinesCount(ps[1..]);
      var r := Render(ps[0].text);
      assert multiset(r)['\n'] == 0;
      assert multiset(PromptLine(ps[0])) == multiset("- ") + multiset(r) + multiset("\n");
      assert multiset(PromptLine(ps[0]))['\n'] == 1;
      assert multiset(PromptLines(ps)) == multiset(PromptLine(ps[0])) + multiset(PromptLines(ps[1..]));
    }
  }

  // ---------------------------------------------------------------------
  // The bot
  // ---------------------------------------------------------------------

  class ElicitationBot {
    const manager: PreferenceManager
    var storyPromptsUsed: set<string>
    /** Each user's history, oldest message first. */
    var conversations: map<string, seq<ChatMessage>>

    ghost predicate Valid()
      reads this
    {
      storyPromptsUsed <= StoryPrompts
    }

    /** `__init__`, given the manager it builds. */
    constructor (manager: PreferenceManager)
      ensures Valid()
      ensures this.manager == manager
      ensures storyPromptsUsed == {} && conversations == map[]
    {
      this.manager := manager;
      storyPromptsUsed := {};
      conversations := map[];
    }

    /** `_get_story_prompt`: one step of the rotation; `random.choice` is a nondeterministic pick. */
    method GetStoryPrompt() returns (prompt: string)
      requires Valid()
      modifies this`storyPromptsUsed
      ensures Valid()
      ensures StoryStep(StoryPrompts, old(storyPromptsUsed), prompt, storyPromptsUsed)
      ensures prompt in storyPromptsUsed
      ensures |storyPromptsUsed| == |old(storyPromptsUsed)| + 1 || |storyPromptsUsed| == 1
    {
      var available := Unused(StoryPromptQuestions, storyPromptsUsed);
      if available == [] {
        assert StoryPrompts <= storyPromptsUsed;
        storyPromptsUsed := {};
        available := StoryPromptQuestions;
      } else {
        assert available[0] in StoryPrompts;
      }
      assert available[0] in available;
      prompt :| prompt in available;
      storyPromptsUsed := storyPromptsUsed + {prompt};
    }

    /**
     * `save_preference`: rejects a text that is empty or shorter than three
     * characters once stripped; otherwise builds the record dict and hands
     * it to `add_preference` as its text, which appends it under the
     * default source and a second fresh id. Returns the record dict.
     */
    method SavePreference(text: string, recordId: string, storeId: string, timestamp: string, source: string := StoryDetected)
      returns (saved: Option<Payload>)
      modifies manager
      ensures saved.None? <==> Rejected(text)
      ensures saved.None? ==> manager.preferences == old(manager.preferences)
      ensures saved.Some? ==> saved.value == SavedRecord(recordId, text, source, timestamp)
      ensures saved.Some? ==> manager.preferences == old(manager.preferences) + [Pref(saved.value, DefaultSource, storeId)]
    {
      if text == [] || |Strip(text)| < 3 {
        return None;
      }
      var preference := SavedRecord(recordId, text, source, timestamp);
      var _ := manager.AddPreference(preference, storeId);
      return Some(preference);
    }

    /** One iteration of the loops in `SaveEach`: the `n`-th save draws the `n`-th pair of uuids and clock reading. */
    method SaveCapture(text: string, source: string, uuids: nat -> string, clock: nat -> string, n: nat)
      modifies manager
      ensures manager.preferences == old(manager.preferences) + SavedRecords([text], source, uuids, clock, n)
    {
      SavedRecordsSingle(text, source, uuids, clock, n);
      var _ := SavePreference(text, uuids(2 * n), uuids(2 * n + 1), clock(n), source);
    }

    /** The loops that save each extracted capture in turn. */
    method SaveEach(texts: seq<string>, source: string, uuids: nat -> string, clock: nat -> string, base: nat)
      modifies manager
      ensures manager.preferences == old(manager.preferences) + SavedRecords(texts, source, uuids, clock, base)
    {
      ghost var start := manager.preferences;
      for i := 0 to |texts|
        invariant manager.preferences == start + SavedRecords(texts[..i], source, uuids, clock, base)
      {
        ghost var done := SavedRecords(texts[..i], source, uuids, clock, base);
        ghost var step := SavedRecords([texts[i]], source, uuids, clock, base + i);
        PrefixGrows(texts, i);
        SavedRecordsConcat(texts[..i], [texts[i]], source, uuids, clock, base);
        assert SavedRecords(texts[..i + 1], source, uuids, clock, base) == done + step;
        SaveCapture(texts[i], source, uuids, clock, base + i);
        AppendAssociative(start, done, step);
      }
      assert texts[..|texts|] == texts;
    }

    /** `get_preferences`: the manager's list. */
    method GetPreferences() returns (ps: seq<Pref>)
      ensures ps == manager.preferences
    {
      ps := manager.GetPreferences();
    }

    /** `_extract_preferences_with_pattern`, after the regex engine: the matches of each pattern are given. */
    static method ExtractPreferencesWithPattern(matches: seq<seq<Match>>) returns (preferences: seq<string>)
      ensures preferences == ExtractedPreferences(matches)
    {
      preferences := [];
      for p := 0 to |matches|
        invariant preferences == ExtractedPreferences(matches[..p])
      {
        var found := matches[p];
        ghost var done := preferences;
        for j := 0 to |found|
          invariant preferences == done + KeptCaptures(found[..j])
        {
          var m := found[j];
          PrefixGrows(found, j);
          KeptCapturesConcat(found[..j], [m]);
          assert KeptCaptures([m]) == (if Keeps(m) then [Strip(m.groups[0])] else []) + KeptCaptures([]);
          if |m.groups| > 0 && |m.groups[0]| > 5 {
            AppendAssociative(done, KeptCaptures(found[..j]), [Strip(m.groups[0])]);
            preferences := preferences + [Strip(m.groups[0])];
          } else {
            assert KeptCaptures(found[..j]) + [] == KeptCaptures(found[..j]);
          }
        }
        assert found[..|found|] == found;
        PrefixGrows(matches, p);
        ExtractedConcat(matches[..p], [found]);
        assert Flatten([found]) == found + Flatten([]);
        assert found + [] == found;
      }
      assert matches[..|matches|] == matches;
    }

    /** `_format_preferences_for_prompt`. */
    method FormatPreferencesForPrompt() returns (formatted: string)
      ensures formatted == PreferencesForPrompt(manager.preferences)
    {
      var preferences := manager.GetPreferences();
      if preferences == [] {
        return NoPreferencesLearned;
      }
      formatted := "";
      for i := 0 to |preferences|
        invariant formatted == PromptLines(preferences[..i])
      {
        var line := "- " + Render(preferences[i].text) + "\n";
        PrefixGrows(preferences, i);
        PromptLinesConcat(preferences[..i], [preferences[i]]);
        PromptLinesSingle(preferences[i]);
        formatted := formatted + line;
      }
      assert preferences[..|preferences|] == preferences;
    }

    /**
     * The extraction steps shared by `process_message` and
     * `process_inference_message`: every pattern capture is saved under
     * `patternSource`, then the LLM's preference, when usable, under
     * `llmSource`. Returns the captures and the LLM's preference.
     */
    method SaveExtracted(matches: seq<seq<Match>>, extraction: Extraction, patternSource: string, llmSource: string,
                         uuids: nat -> string, clock: nat -> string)
      returns (patternPreferences: seq<string>, llmPreference: Option<string>)
      modifies manager
      ensures patternPreferences == ExtractedPreferences(matches)
      ensures llmPreference == LlmPreference(extraction)
      ensures manager.preferences == old(manager.preferences)
                + ExtractionRecords(matches, extraction, patternSource, llmSource, uuids, clock)
    {
      ghost var start := manager.preferences;
      patternPreferences := ExtractPreferencesWithPattern(matches);
      SaveEach(patternPreferences, patternSource, uuids, clock, 0);
      ghost var captured := SavedRecords(patternPreferences, patternSource, uuids, clock, 0);
      llmPreference := None;
      if extraction.Reply? {
        llmPreference := ParseReply(extraction.text);
        if llmPreference.Some? && llmPreference.value != [] && llmPreference.value != "NONE" {
          SaveEach([llmPreference.value], llmSource, uuids, clock, |patternPreferences|);
          AppendAssociative(start, captured, SavedRecords([llmPreference.value], llmSource, uuids, clock, |patternPreferences|));
          return;
        }
      }
      assert captured + [] == captured;
    }

    /**
     * Appends `entry` to the user's history, creating the history empty
     * for a user not seen before, and returns the new history.
     */
    method Remember(userId: string, entry: ChatMessage) returns (history: seq<ChatMessage>)
      modifies this`conversations
      ensures history == HistoryOf(old(conversations), userId) + [entry]
      ensures conversations == old(conversations)[userId := history]
    {
      if userId !in conversations {
        conversations := conversations[userId := []];
      }
      history := conversations[userId] + [entry];
      conversations := conversations[userId := history];
    }

    /**
     * `process_message`: records the user's message in that user's history
     * (created empty for a new user), saves every pattern capture and a
     * usable LLM preference, sends the system prompt and the last ten
     * history entries, and records the reply. Other users' histories are
     * untouched. `matches` stands for the regex matches in `message`,
     * `extraction` for the extraction call, `response` for the LLM's reply.
     */
    method ProcessMessage(userId: string, message: string, matches: seq<seq<Match>>, extraction: Extraction,
                          response: string, uuids: nat -> string, clock: nat -> string)
      returns (reply: string, detected: Option<string>, context: seq<ChatMessage>)
      modifies this`conversations, manager
      ensures conversations == old(conversations)[userId := HistoryOf(old(conversations), userId)
                                                       + [ChatMessage(User, message)] + [ChatMessage(Assistant, response)]]
      ensures context == ElicitationContext(HistoryOf(old(conversations), userId) + [ChatMessage(User, message)])
      ensures detected == Detected(extraction, ExtractedPreferences(matches))
      ensures reply == response
      ensures manager.preferences == old(manager.preferences)
                + ExtractionRecords(matches, extraction, "pattern_detected", "llm_detected", uuids, clock)
    {
      var history := Remember(userId, ChatMessage(User, message));

      var patternPreferences, llmPreference := SaveExtracted(matches, extraction, "pattern_detected", "llm_detected", uuids, clock);
      detected := Detected(extraction, patternPreferences);

      context := ElicitationContext(history);
      reply := response;
      var updated := Remember(userId, ChatMessage(Assistant, reply));
      UpdateTwice(old(conversations), userId, history, updated);
    }

    /**
     * `process_inference_message`: saves every pattern capture and a usable
     * LLM preference under the inference sources, then sends a system
     * prompt listing every stored preference, followed by the message.
     */
    method ProcessInferenceMessage(message: string, matches: seq<seq<Match>>, extraction: Extraction,
                                   response: string, uuids: nat -> string, clock: nat -> string)
      returns (reply: string, context: seq<ChatMessage>)
      modifies manager
      ensures manager.preferences == old(manager.preferences)
                + ExtractionRecords(matches, extraction, "inference_pattern", "inference_llm", uuids, clock)
      ensures context == [ChatMessage(System, InferencePrompt(PreferencesForInference(manager.preferences))),
                          ChatMessage(User, message)]
      ensures reply == response
    {
      var _, _ := SaveExtracted(matches, extraction, "inference_pattern", "inference_llm", uuids, clock);
      var preferences := manager.GetPreferences();
      var listing := PreferencesForInference(preferences);
      context := [ChatMessage(System, InferencePrompt(listing)), ChatMessage(User, message)];
      reply := response;
    }
  }
}
