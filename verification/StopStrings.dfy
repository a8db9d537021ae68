/**
 Stop strings: what is held back while a sequence streams
 (SamplingParams.__post_init__, Sequence.get_output_text_to_return) and how a
 match cuts the text (StopChecker.check_stop_strings, maybe_stop_sequence).
 */
module StopStrings {
  import opened Options

  // ------------------------------------------------------------ finding a match

  predicate OccursAt(text: string, s: string, i: int) {
    0 <= i && i + |s| <= |text| && text[i..i + |s|] == s
  }

  ghost predicate Occurs(text: string, s: string) {
    exists i :: OccursAt(text, s, i)
  }

  /** Python's `text.find(s, start)`; a negative start counts from the end. */
  function Find(text: string, s: string, start: int): Option<nat>
  {
    FindFrom(text, s, if start >= 0 then start else if |text| + start >= 0 then |text| + start else 0)
  }

  function FindFrom(text: string, s: string, i: nat): (r: Option<nat>)
    ensures r.Some? ==> i <= r.value && OccursAt(text, s, r.value)
    ensures forall k | i <= k && (r.Some? ==> k < r.value) :: !OccursAt(text, s, k)
    decreases |text| - i
  {
    if i + |s| > |text| then None
    else if OccursAt(text, s, i) then Some(i)
    else FindFrom(text, s, i + 1)
  }

  datatype Match = Match(stop: string, truncateTo: int)

  /** Where the text is cut for a match of `s` at `i`; -1 for no cut. */
  function CutFor(text: string, s: string, i: nat, inOutput: bool): int {
    if !inOutput then i else if i + |s| >= |text| then -1 else i + |s|
  }

  /** The first stop string of the list, in list order, that occurs in a
      position ending in the last `newChars` characters. */
  function FirstMatch(text: string, newChars: nat, stops: seq<string>, inOutput: bool): Option<Match>
    decreases |stops|
  {
    if newChars == 0 || stops == [] then None
    else
      match Find(text, stops[0], 1 - newChars - |stops[0]|)
      case Some(i) => Some(Match(stops[0], CutFor(text, stops[0], i, inOutput)))
      case None => FirstMatch(text, newChars, stops[1..], inOutput)
  }

  /** check_stop_strings. */
  method CheckStopStrings(text: string, newChars: nat, stops: seq<string>, inOutput: bool) returns (r: Option<Match>)
    ensures r == FirstMatch(text, newChars, stops, inOutput)
  {
    if newChars == 0 || stops == [] {
      return None;
    }
    for k := 0 to |stops|
      invariant FirstMatch(text, newChars, stops, inOutput) == FirstMatch(text, newChars, stops[k..], inOutput)
    {
      assert stops[k..][1..] == stops[k + 1..];
      var i := Find(text, stops[k], 1 - newChars - |stops[k]|);
      if i.Some? {
        return Some(Match(stops[k], CutFor(text, stops[k], i.value, inOutput)));
      }
    }
    return None;
  }

  /** An occurrence of `s` that ends beyond the first `oldLen` characters. */
  predicate EndsInNew(text: string, oldLen: nat, s: string, i: int) {
    OccursAt(text, s, i) && i + |s| > oldLen
  }

  /** `i` is the first such occurrence of the first stop string that has one. */
  ghost predicate MatchAt(text: string, oldLen: nat, stops: seq<string>, k: nat, i: nat) {
    && k < |stops| && EndsInNew(text, oldLen, stops[k], i)
    && (forall i' :: EndsInNew(text, oldLen, stops[k], i') ==> i <= i')
    && (forall k', i' | 0 <= k' < k :: !EndsInNew(text, oldLen, stops[k'], i'))
  }

  predicate NonEmpty(stops: seq<string>) {
    forall k | 0 <= k < |stops| :: stops[k] != []
  }

  /** The search window: exactly the occurrences that end in the new text. */
  lemma FindInWindow(text: string, oldLen: nat, s: string)
    requires s != [] && oldLen < |text|
    ensures var r := Find(text, s, 1 - (|text| - oldLen) - |s|);
            && (r.Some? ==> EndsInNew(text, oldLen, s, r.value))
            && (forall i :: EndsInNew(text, oldLen, s, i) ==> r.Some? && r.value <= i)
  {
  }

  /** Without a report, no stop string ends in the new text. */
  lemma {:induction false} NoMatch(text: string, oldLen: nat, stops: seq<string>, inOutput: bool)
    requires oldLen < |text| && NonEmpty(stops) && FirstMatch(text, |text| - oldLen, stops, inOutput).None?
    ensures forall k, i | 0 <= k < |stops| :: !EndsInNew(text, oldLen, stops[k], i)
    decreases |stops|
  {
    if stops != [] {
      FindInWindow(text, oldLen, stops[0]);
      NoMatch(text, oldLen, stops[1..], inOutput);
      forall k, i | 0 <= k < |stops| ensures !EndsInNew(text, oldLen, stops[k], i) {
        assert k > 0 ==> stops[k] == stops[1..][k - 1];
      }
    }
  }

  /** check_stop_strings reports the match it promises, and where to cut. */
  lemma {:induction false} MatchFound(text: string, oldLen: nat, stops: seq<string>, inOutput: bool) returns (k: nat, i: nat)
    requires oldLen < |text| && NonEmpty(stops) && FirstMatch(text, |text| - oldLen, stops, inOutput).Some?
    ensures MatchAt(text, oldLen, stops, k, i)
    ensures FirstMatch(text, |text| - oldLen, stops, inOutput).value == Match(stops[k], CutFor(text, stops[k], i, inOutput))
    decreases |stops|
  {
    FindInWindow(text, oldLen, stops[0]);
    match Find(text, stops[0], 1 - (|text| - oldLen) - |stops[0]|)
    case Some(i0) => k, i := 0, i0;
    case None =>
      var k1, i1 := MatchFound(text, oldLen, stops[1..], inOutput);
      k, i := k1 + 1, i1;
      forall k', i' | 0 <= k' < k ensures !EndsInNew(text, oldLen, stops[k'], i') {
        assert k' > 0 ==> stops[k'] == stops[1..][k' - 1];
      }
  }

  // ------------------------------------------------------- streaming with hold-back

  /** output_text_buffer_length, as __post_init__ computes it. */
  function BufferLength(stops: seq<string>, inOutput: bool): (buffer: nat)
    requires NonEmpty(stops)
    ensures stops == [] || inOutput ==> buffer == 0
    ensures stops != [] && !inOutput ==>
      && (forall k | 0 <= k < |stops| :: |stops[k]| - 1 <= buffer)
      && exists k | 0 <= k < |stops| :: |stops[k]| - 1 == buffer
  {
    if stops == [] || inOutput then 0 else Longest(stops) - 1
  }

  function Longest(stops: seq<string>): (n: nat)
    requires stops != []
    ensures forall k | 0 <= k < |stops| :: |stops[k]| <= n
    ensures exists k | 0 <= k < |stops| :: |stops[k]| == n
  {
    if |stops| == 1 then |stops[0]|
    else
      var n := Longest(stops[1..]);
      assert forall k | 1 <= k < |stops| :: stops[k] == stops[1..][k - 1];
      if |stops[0]| > n then |stops[0]| else n
  }

  /** The text that may be shown: all of it once finished, else without the
      last `buffer` characters. */
  function Visible(text: string, buffer: nat, finished: bool): string {
    if finished || buffer == 0 then text
    else if |text| < buffer then "" else text[..|text| - buffer]
  }

  class StreamedText {
    var outputText: string
    var lastOutputTextOffset: nat
    var finished: bool

    constructor ()
      ensures outputText == "" && lastOutputTextOffset == 0 && !finished
    {
      outputText, lastOutputTextOffset, finished := "", 0, false;
    }

    /** get_output_text_to_return. */
    method GetOutputTextToReturn(bufferLength: nat, delta: bool) returns (text: string)
      requires lastOutputTextOffset <= |outputText|
      modifies `lastOutputTextOffset
      ensures !delta ==> text == Visible(outputText, bufferLength, finished)
      ensures !delta ==> text <= outputText && (finished ==> text == outputText)
      ensures !delta && !finished ==> |text| == if bufferLength <= |outputText| then |outputText| - bufferLength else 0
      ensures !delta ==> lastOutputTextOffset == old(lastOutputTextOffset)
      ensures lastOutputTextOffset <= |outputText|
      ensures delta ==> outputText[..old(lastOutputTextOffset)] + text == outputText[..lastOutputTextOffset]
      ensures delta ==> lastOutputTextOffset == NextOffset(outputText, bufferLength, finished, old(lastOutputTextOffset))
    {
      var truncate := bufferLength != 0 && !finished;
      if !delta {
        return if !truncate then outputText
               else if bufferLength <= |outputText| then outputText[..|outputText| - bufferLength] else "";
      }
      var length: int := |outputText|;
      if truncate {
        length := length - bufferLength;
      }
      var lastOffset := lastOutputTextOffset;
      if lastOffset < length {
        lastOutputTextOffset := length;
        return outputText[lastOffset..length];
      }
      return "";
    }

    /** The part of maybe_stop_sequence that concerns the text. */
    method MaybeStop(newChars: nat, stops: seq<string>, inOutput: bool, verdict: Verdict)
      requires newChars <= |outputText|
      modifies `outputText, `finished
      ensures (outputText, finished) == Stopped(old(outputText), newChars, stops, inOutput, verdict, old(finished))
      ensures NonEmpty(stops) ==>
        Judged(old(outputText), newChars, stops, inOutput, verdict, old(finished), outputText, finished)
    {
      if NonEmpty(stops) {
        StoppedJudges(outputText, newChars, stops, inOutput, verdict, finished);
      }
      if verdict.TooFewTokens? {
        return;
      }
      if verdict.StopToken? {
        if newChars != 0 && !inOutput {
          outputText := outputText[..|outputText| - newChars];
        }
        finished := true;
        return;
      }
      var stop := CheckStopStrings(outputText, newChars, stops, inOutput);
      if stop.Some? {
        FirstMatchInRange(outputText, newChars, stops, inOutput);
        if stop.value.truncateTo != -1 {
          outputText := outputText[..stop.value.truncateTo];
        }
        finished := true;
        return;
      }
      if verdict.capped {
        finished := true;
      }
    }
  }

  function NextOffset(text: string, buffer: nat, finished: bool, offset: nat): nat {
    var shown := |Visible(text, buffer, finished)|;
    if offset < shown then shown else offset
  }

  /** What the token just appended means: below min_tokens nothing is checked;
      EOS or a stop token ends the sequence; otherwise the text is searched and,
      without a match, a length limit may have been reached. */
  datatype Verdict = TooFewTokens | StopToken | Ordinary(capped: bool)

  lemma {:induction false} FirstMatchInRange(text: string, newChars: nat, stops: seq<string>, inOutput: bool)
    ensures var m := FirstMatch(text, newChars, stops, inOutput); m.Some? ==> -1 <= m.value.truncateTo <= |text|
    decreases |stops|
  {
    if newChars != 0 && stops != [] {
      FirstMatchInRange(text, newChars, stops[1..], inOutput);
    }
  }

  /** Some stop string ends beyond the first `oldLen` characters. */
  ghost predicate StopEnds(text: string, oldLen: nat, stops: seq<string>) {
    exists k, i :: 0 <= k < |stops| && EndsInNew(text, oldLen, stops[k], i)
  }

  /** What the checks after a token owe: below min_tokens nothing changes; a stop
      token ends the sequence and takes its text along unless asked not to; else a
      stop string that ends in the new text ends the sequence, and so does a length
      limit, and only a stop string shortens the text. */
  ghost predicate Judged(text: string, newChars: nat, stops: seq<string>, inOutput: bool, verdict: Verdict, finished: bool,
                         text': string, finished': bool)
    requires newChars <= |text|
  {
    match verdict
    case TooFewTokens => text' == text && finished' == finished
    case StopToken => finished' && text' == if inOutput then text else text[..|text| - newChars]
    case Ordinary(capped) =>
      && (finished' <==> finished || capped || StopEnds(text, |text| - newChars, stops))
      && text' <= text && (!StopEnds(text, |text| - newChars, stops) ==> text' == text)
  }

  lemma StoppedJudges(text: string, newChars: nat, stops: seq<string>, inOutput: bool, verdict: Verdict, finished: bool)
    requires newChars <= |text| && NonEmpty(stops)
    ensures var (text', finished') := Stopped(text, newChars, stops, inOutput, verdict, finished);
            Judged(text, newChars, stops, inOutput, verdict, finished, text', finished')
  {
    FirstMatchInRange(text, newChars, stops, inOutput);
    if newChars == 0 {
      assert text[..|text|] == text;
    } else if FirstMatch(text, newChars, stops, inOutput).Some? {
      var k, i := MatchFound(text, |text| - newChars, stops, inOutput);
      assert StopEnds(text, |text| - newChars, stops);
    } else {
      NoMatch(text, |text| - newChars, stops, inOutput);
    }
  }

  function Stopped(text: string, newChars: nat, stops: seq<string>, inOutput: bool, verdict: Verdict, finished: bool): (string, bool)
    requires newChars <= |text|
  {
    match verdict
    case TooFewTokens => (text, finished)
    case StopToken => (if newChars != 0 && !inOutput then text[..|text| - newChars] else text, true)
    case Ordinary(capped) =>
      FirstMatchInRange(text, newChars, stops, inOutput);
      match FirstMatch(text, newChars, stops, inOutput)
      case Some(m) => (if m.truncateTo != -1 then text[..m.truncateTo] else text, true)
      case None => (text, finished || capped)
  }

  /** The sequence, the cursor, and the concatenation of all deltas returned. */
  datatype Stream = Stream(text: string, finished: bool, offset: nat, delivered: string)

  datatype Event = Chunk(chars: string, verdict: Verdict) | Poll

  function Step(stops: seq<string>, inOutput: bool, s: Stream, e: Event): Stream
    requires NonEmpty(stops) && s.offset <= |s.text|
  {
    match e
    case Chunk(chars, verdict) =>
      if s.finished then s else
        var (text, finished) := Stopped(s.text + chars, |chars|, stops, inOutput, verdict, false);
        s.(text := text, finished := finished)
    case Poll =>
      var next := NextOffset(s.text, BufferLength(stops, inOutput), s.finished, s.offset);
      s.(offset := next, delivered := s.delivered + s.text[s.offset..next])
  }

  function RunAll(stops: seq<string>, inOutput: bool, s: Stream, events: seq<Event>): (r: Stream)
    requires NonEmpty(stops) && Inv(stops, inOutput, s)
    ensures Inv(stops, inOutput, r)
    decreases |events|
  {
    if events == [] then s else
      StepKeepsInvariant(stops, inOutput, s, events[0]);
      RunAll(stops, inOutput, Step(stops, inOutput, s, events[0]), events[1..])
  }

  /** What was delivered is a prefix of the text, and while the sequence is not
      finished the last `buffer` characters have never been part of it. */
  ghost predicate Inv(stops: seq<string>, inOutput: bool, s: Stream)
    requires NonEmpty(stops)
  {
    && s.offset <= |s.text| && s.delivered == s.text[..s.offset]
    && (!s.finished ==> s.offset == 0 || s.offset + BufferLength(stops, inOutput) <= |s.text|)
  }

  /** A stop string that is found never reaches back into what was delivered. */
  lemma CutKeepsDelivered(stops: seq<string>, inOutput: bool, s: Stream, chars: string)
    requires NonEmpty(stops) && Inv(stops, inOutput, s) && !s.finished && chars != []
    requires FirstMatch(s.text + chars, |chars|, stops, inOutput).Some?
    ensures var full := s.text + chars; var m := FirstMatch(full, |chars|, stops, inOutput).value;
            m.truncateTo == -1 || s.offset <= m.truncateTo <= |full|
  {
    var k, i := MatchFound(s.text + chars, |s.text|, stops, inOutput);
    assert |stops[k]| <= Longest(stops);
  }

  lemma StepKeepsInvariant(stops: seq<string>, inOutput: bool, s: Stream, e: Event)
    requires NonEmpty(stops) && Inv(stops, inOutput, s)
    ensures Inv(stops, inOutput, Step(stops, inOutput, s, e))
  {
    match e
    case Chunk(chars, verdict) =>
      if !s.finished {
        var full := s.text + chars;
        assert full[..s.offset] == s.text[..s.offset];
        assert full[..|full| - |chars|] == s.text;
        if verdict.Ordinary? && FirstMatch(full, |chars|, stops, inOutput).Some? {
          CutKeepsDelivered(stops, inOutput, s, chars);
          var cut := FirstMatch(full, |chars|, stops, inOutput).value.truncateTo;
          assert cut != -1 ==> full[..cut][..s.offset] == full[..s.offset];
        }
      }
    case Poll =>
      var next := NextOffset(s.text, BufferLength(stops, inOutput), s.finished, s.offset);
      assert s.text[..s.offset] + s.text[s.offset..next] == s.text[..next];
  }

  const START := Stream("", false, 0, "")

  /** A poll brings the deltas level with what a cumulative reader sees. */
  lemma PollCatchesUp(stops: seq<string>, inOutput: bool, s: Stream)
    requires NonEmpty(stops) && Inv(stops, inOutput, s)
    ensures var p := Step(stops, inOutput, s, Poll);
            p.text == s.text && p.delivered == Visible(s.text, BufferLength(stops, inOutput), s.finished)
  {
    StepKeepsInvariant(stops, inOutput, s, Poll);
  }

  /** Over every run of chunks and polls, and however the sequence ends: what
      was delivered is a prefix of the (truncated) text, so nothing is ever
      retracted; one more poll brings the deltas level with what a cumulative
      reader sees: with the whole text once the sequence is finished or when there
      is nothing to hold back for, else with all but less than a stop string. */
  lemma DeltasAddUpToTheText(stops: seq<string>, inOutput: bool, events: seq<Event>)
    requires NonEmpty(stops)
    ensures var s := RunAll(stops, inOutput, START, events);
            && s.delivered <= s.text
            && var p := Step(stops, inOutput, s, Poll);
            && p.text == s.text
            && p.delivered == Visible(s.text, BufferLength(stops, inOutput), s.finished)
            && (s.finished || stops == [] || inOutput ==> p.delivered == s.text)
            && (stops != [] ==> exists k | 0 <= k < |stops| :: |s.text| - |p.delivered| <= |stops[k]| - 1)
  {
    PollCatchesUp(stops, inOutput, RunAll(stops, inOutput, START, events));
  }

  function Chars(events: seq<Event>): string {
    if events == [] then "" else (if events[0].Chunk? then events[0].chars else "") + Chars(events[1..])
  }

  lemma {:induction false} FinishedStays(stops: seq<string>, inOutput: bool, s: Stream, events: seq<Event>)
    requires NonEmpty(stops) && Inv(stops, inOutput, s) && s.finished
    ensures RunAll(stops, inOutput, s, events).finished && RunAll(stops, inOutput, s, events).text == s.text
    decreases |events|
  {
    if events != [] {
      StepKeepsInvariant(stops, inOutput, s, events[0]);
      FinishedStays(stops, inOutput, Step(stops, inOutput, s, events[0]), events[1..]);
    }
  }

  /** Until a sequence finishes, its text is every chunk of the run. */
  lemma {:induction false} UnfinishedTextIsEveryChunk(stops: seq<string>, inOutput: bool, s: Stream, events: seq<Event>)
    requires NonEmpty(stops) && Inv(stops, inOutput, s) && !RunAll(stops, inOutput, s, events).finished
    ensures RunAll(stops, inOutput, s, events).text == s.text + Chars(events)
    decreases |events|
  {
    if events == [] {
      assert s.text + "" == s.text;
    } else {
      var e, s' := events[0], Step(stops, inOutput, s, events[0]);
      StepKeepsInvariant(stops, inOutput, s, e);
      if s'.finished {
        FinishedStays(stops, inOutput, s', events[1..]);
      }
      UnfinishedTextIsEveryChunk(stops, inOutput, s', events[1..]);
      StepAddsTheChunk(stops, inOutput, s, e);
      var new_ := if e.Chunk? then e.chars else "";
      assert s.text + new_ + Chars(events[1..]) == s.text + (new_ + Chars(events[1..]));
    }
  }

  lemma StepAddsTheChunk(stops: seq<string>, inOutput: bool, s: Stream, e: Event)
    requires NonEmpty(stops) && s.offset <= |s.text| && !Step(stops, inOutput, s, e).finished
    ensures Step(stops, inOutput, s, e).text == s.text + if e.Chunk? then e.chars else ""
  {
    assert s.text + "" == s.text;
    if e.Chunk? && !s.finished {
      StoppedJudges(s.text + e.chars, |e.chars|, stops, inOutput, e.verdict, false);
    }
  }

  /** A match ends the text right before its first character (or, on request,
      right behind its last), never short of what was delivered. */
  lemma StopEndsTheTextAtTheMatch(stops: seq<string>, inOutput: bool, s: Stream, chars: string, capped: bool)
      returns (k: nat, i: nat)
    requires NonEmpty(stops) && Inv(stops, inOutput, s) && !s.finished && chars != []
    requires FirstMatch(s.text + chars, |chars|, stops, inOutput).Some?
    ensures var full := s.text + chars; var s' := Step(stops, inOutput, s, Chunk(chars, Ordinary(capped)));
            && MatchAt(full, |s.text|, stops, k, i)
            && s'.finished && s'.text == full[..if inOutput then i + |stops[k]| else i]
            && s.delivered <= s'.text
  {
    StopKeepsDelivered(stops, inOutput, s, chars, capped);
    var full := s.text + chars;
    k, i := MatchFound(full, |full| - |chars|, stops, inOutput);
    StepCuts(stops, inOutput, s, chars, capped, FirstMatch(full, |chars|, stops, inOutput).value);
    WhereItIsCut(full, stops[k], i, inOutput);
  }

  lemma StepCuts(stops: seq<string>, inOutput: bool, s: Stream, chars: string, capped: bool, m: Match)
    requires NonEmpty(stops) && s.offset <= |s.text| && !s.finished
    requires FirstMatch(s.text + chars, |chars|, stops, inOutput) == Some(m)
    ensures -1 <= m.truncateTo <= |s.text + chars|
    ensures var s' := Step(stops, inOutput, s, Chunk(chars, Ordinary(capped)));
            s'.finished && s'.text == if m.truncateTo != -1 then (s.text + chars)[..m.truncateTo] else s.text + chars
  {
    FirstMatchInRange(s.text + chars, |chars|, stops, inOutput);
  }

  lemma WhereItIsCut(text: string, stop: string, i: nat, inOutput: bool)
    requires i + |stop| <= |text|
    ensures var cut := CutFor(text, stop, i, inOutput);
            -1 <= cut <= |text| && (if cut != -1 then text[..cut] else text) == text[..if inOutput then i + |stop| else i]
  {
  }

  lemma StopKeepsDelivered(stops: seq<string>, inOutput: bool, s: Stream, chars: string, capped: bool)
    requires NonEmpty(stops) && Inv(stops, inOutput, s) && !s.finished && chars != []
    ensures s.delivered <= Step(stops, inOutput, s, Chunk(chars, Ordinary(capped))).text
  {
    StepKeepsInvariant(stops, inOutput, s, Chunk(chars, Ordinary(capped)));
  }

  /** Holding back less is not enough: for a stop string there is a text of which a
      shorter hold-back shows a character that the next one takes back. */
  lemma ShorterHoldBackRetracts(stop: string, buffer: nat)
    requires stop != [] && buffer < |stop| - 1
    ensures var text := stop[..|stop| - 1];
      && !Stopped(text, |text|, [stop], false, Ordinary(false), false).1
      && Visible(text, buffer, false) != ""
      && Stopped(stop, 1, [stop], false, Ordinary(false), false) == ("", true)
  {
    var text := stop[..|stop| - 1];
    StoppedJudges(text, |text|, [stop], false, Ordinary(false), false);
    assert forall i :: !OccursAt(text, stop, i);
    assert OccursAt(stop, stop, 0);
    FindInWindow(stop, |stop| - 1, stop);
    assert forall i :: OccursAt(stop, stop, i) ==> i == 0;
  }

  // ------------------------------------------------- is the text free of stop strings?

  ghost predicate StopFree(text: string, stops: seq<string>) {
    forall k | 0 <= k < |stops| :: !Occurs(text, stops[k])
  }

  /** The text after a chunk, when a match is cut away. */
  function AfterChunk(text: string, chars: string, stops: seq<string>): string {
    Stopped(text + chars, |chars|, stops, false, Ordinary(false), false).0
  }

  /** The first stop string occurs in every other one. */
  ghost predicate FirstInsideAll(stops: seq<string>)
    requires stops != []
  {
    forall k | 0 <= k < |stops| :: Occurs(stops[k], stops[0])
  }

  lemma OccursInside(text: string, outer: string, i: int, inner: string, j: int)
    requires OccursAt(text, outer, i) && OccursAt(outer, inner, j)
    ensures OccursAt(text, inner, i + j)
  {
    var t := text[i..i + |outer|];
    assert t == outer;
    forall x | 0 <= x < |inner| ensures inner[x] == text[i + j..i + j + |inner|][x] {
      assert t[j..j + |inner|][x] == t[j + x] == text[i + j + x];
    }
  }

  lemma OccursInPrefix(text: string, n: nat, s: string, i: int)
    requires n <= |text|
    ensures OccursAt(text[..n], s, i) <==> OccursAt(text, s, i) && i + |s| <= n
  {
    if 0 <= i && i + |s| <= n {
      assert text[..n][i..i + |s|] == text[i..i + |s|];
    }
  }

  /** A stop string in the new text entails the first one in the new text. */
  lemma FirstComesAlong(text: string, oldLen: nat, stops: seq<string>, k: nat, i: int) returns (i0: int)
    requires stops != [] && NonEmpty(stops) && FirstInsideAll(stops)
    requires oldLen <= |text| && StopFree(text[..oldLen], stops)
    requires k < |stops| && OccursAt(text, stops[k], i)
    ensures EndsInNew(text, oldLen, stops[0], i0) && i <= i0 && i0 + |stops[0]| <= i + |stops[k]|
  {
    var j :| OccursAt(stops[k], stops[0], j);
    OccursInside(text, stops[k], i, stops[0], j);
    i0 := i + j;
    OccursInPrefix(text, oldLen, stops[0], i0);
    assert !Occurs(text[..oldLen], stops[0]);
  }

  /** With the first stop string in every other, no chunk that is searched leaves
      a stop string in the text. */
  lemma NestedStopsKeepStopFree(stops: seq<string>, text: string, chars: string)
    requires stops != [] && NonEmpty(stops) && FirstInsideAll(stops)
    requires chars != [] && StopFree(text, stops)
    ensures StopFree(AfterChunk(text, chars, stops), stops)
  {
    var full := text + chars;
    assert full[..|text|] == text;
    assert full[..|full|] == full;
    FindInWindow(full, |text|, stops[0]);
    var cut: nat := |full|;
    if FirstMatch(full, |chars|, stops, false).Some? {
      var k', i' := MatchFound(full, |text|, stops, false);
      cut := i';
    } else {
      NoMatch(full, |text|, stops, false);
    }
    assert AfterChunk(text, chars, stops) == full[..cut];
    forall k | 0 <= k < |stops| ensures !Occurs(full[..cut], stops[k]) {
      forall i ensures !OccursAt(full[..cut], stops[k], i) {
        OccursInPrefix(full, cut, stops[k], i);
        if OccursAt(full[..cut], stops[k], i) {
          var i0 := FirstComesAlong(full, |text|, stops, k, i);
        }
      }
    }
  }

  lemma OccursBefore(s: string, rest: string, s0: string, i: int)
    requires OccursAt(s + rest, s0, i) && i + |s0| <= |s|
    ensures Occurs(s, s0)
  {
    OccursInPrefix(s + rest, |s|, s0, i);
    assert (s + rest)[..|s|] == s;
  }

  lemma OccursAcross(s: string, z: char, rest: string, s0: string, i: int)
    requires OccursAt(s + [z] + rest, s0, i) && i <= |s| < i + |s0|
    ensures z in s0
  {
    assert s0[|s| - i] == (s + [z] + rest)[i..i + |s0|][|s| - i] == z;
  }

  /** Behind `s` and a foreign character, `s0` is found there and not earlier. */
  lemma FirstOccurrenceBehind(s: string, z: char, s0: string, i: int)
    requires !Occurs(s, s0) && z !in s0 && OccursAt(s + [z] + s0, s0, i)
    ensures |s| + 1 <= i
  {
    if i + |s0| <= |s| {
      assert s + [z] + s0 == s + ([z] + s0);
      OccursBefore(s, [z] + s0, s0, i);
    } else if i <= |s| {
      OccursAcross(s, z, s0, s0, i);
    }
  }

  lemma CutAtFirst(chars: string, stops: seq<string>, n: nat)
    requires chars != [] && stops != [] && NonEmpty(stops) && OccursAt(chars, stops[0], n)
    requires forall i | OccursAt(chars, stops[0], i) :: n <= i
    ensures FirstMatch(chars, |chars|, stops, false) == Some(Match(stops[0], n))
  {
    FindInWindow(chars, 0, stops[0]);
  }

  // ------------------------------------------------------------ ... over whole runs

  /** A stop string is completed while the sequence is below min_tokens, when
      nothing is searched. */
  ghost predicate CompletesUnsearched(stops: seq<string>, s: Stream, e: Event) {
    e.Chunk? && e.verdict.TooFewTokens? && !s.finished && !StopFree(s.text + e.chars, stops)
  }

  ghost predicate AlwaysSearched(stops: seq<string>, s: Stream, events: seq<Event>)
    requires NonEmpty(stops) && Inv(stops, false, s)
    decreases |events|
  {
    events == [] || (
      && !CompletesUnsearched(stops, s, events[0])
      && (StepKeepsInvariant(stops, false, s, events[0]);
          AlwaysSearched(stops, Step(stops, false, s, events[0]), events[1..])))
  }

  /** The text is free of stop strings at every point of the run. */
  ghost predicate AlwaysStopFree(stops: seq<string>, s: Stream, events: seq<Event>)
    requires NonEmpty(stops) && Inv(stops, false, s)
    decreases |events|
  {
    && StopFree(s.text, stops)
    && (events != [] ==>
          (StepKeepsInvariant(stops, false, s, events[0]);
           AlwaysStopFree(stops, Step(stops, false, s, events[0]), events[1..])))
  }

  lemma StepStaysStopFree(stops: seq<string>, s: Stream, e: Event)
    requires stops != [] && NonEmpty(stops) && FirstInsideAll(stops)
    requires Inv(stops, false, s) && StopFree(s.text, stops)
    ensures StopFree(Step(stops, false, s, e).text, stops) <==> !CompletesUnsearched(stops, s, e)
  {
    if e.Chunk? && !s.finished {
      var full := s.text + e.chars;
      assert full[..|full| - |e.chars|] == s.text;
      if e.verdict.Ordinary? {
        if e.chars == [] {
          assert full == s.text;
        } else {
          NestedStopsKeepStopFree(stops, s.text, e.chars);
        }
      } else if e.chars == [] {
        assert full == s.text;
      }
    }
  }

  /** With the first stop string in every other, a run shows a stop string at some
      point exactly when one is completed while the sequence is below min_tokens. */
  lemma {:induction false} StopFreeExactlyWhenSearched(stops: seq<string>, s: Stream, events: seq<Event>)
    requires stops != [] && NonEmpty(stops) && FirstInsideAll(stops)
    requires Inv(stops, false, s) && StopFree(s.text, stops)
    ensures AlwaysStopFree(stops, s, events) <==> AlwaysSearched(stops, s, events)
    decreases |events|
  {
    if events != [] {
      StepKeepsInvariant(stops, false, s, events[0]);
      StepStaysStopFree(stops, s, events[0]);
      if !CompletesUnsearched(stops, s, events[0]) {
        StopFreeExactlyWhenSearched(stops, Step(stops, false, s, events[0]), events[1..]);
      }
    }
  }

  lemma {:induction false} StopFreeAtTheEnd(stops: seq<string>, s: Stream, events: seq<Event>)
    requires NonEmpty(stops) && Inv(stops, false, s) && AlwaysStopFree(stops, s, events)
    ensures StopFree(RunAll(stops, false, s, events).text, stops)
    decreases |events|
  {
    if events != [] {
      StepKeepsInvariant(stops, false, s, events[0]);
      StopFreeAtTheEnd(stops, Step(stops, false, s, events[0]), events[1..]);
    }
  }

  /** A stop string that does not contain the first one survives in front of it:
      in one searched chunk, which ends the sequence. */
  lemma CrossedStopsLeak(stops: seq<string>, k: nat, z: char) returns (chars: string)
    requires NonEmpty(stops) && k < |stops| && !Occurs(stops[k], stops[0]) && z !in stops[0]
    ensures var events := [Chunk(chars, Ordinary(false))];
            && AlwaysSearched(stops, START, events)
            && RunAll(stops, false, START, events).finished
            && !StopFree(RunAll(stops, false, START, events).text, stops)
  {
    var s0, s := stops[0], stops[k];
    chars := s + [z] + s0;
    var n := |s| + 1;
    assert "" + chars == chars && OccursAt(chars, s0, n);
    forall i | OccursAt(chars, s0, i) ensures n <= i {
      FirstOccurrenceBehind(s, z, s0, i);
    }
    CutAtFirst(chars, stops, n);
    assert OccursAt(chars[..n], s, 0) by {
      assert chars[..n][0..|s|] == s;
    }
    var e := Chunk(chars, Ordinary(false));
    assert Step(stops, false, START, e).text == chars[..n];
    assert [e][1..] == [];
    assert RunAll(stops, false, START, [e]) == Step(stops, false, START, e);
  }

  /** The documentation's promise that the returned text never contains a stop
      string: over all runs that complete none below min_tokens it holds exactly
      when the first stop string occurs in every other one. (`z` is any character
      the first does not use.) */
  lemma StopFreeExactlyWhenNested(stops: seq<string>, z: char)
    requires stops != [] && NonEmpty(stops) && z !in stops[0]
    ensures (forall events | AlwaysSearched(stops, START, events) :: StopFree(RunAll(stops, false, START, events).text, stops))
       <==> FirstInsideAll(stops)
  {
    if FirstInsideAll(stops) {
      forall events | AlwaysSearched(stops, START, events)
        ensures StopFree(RunAll(stops, false, START, events).text, stops)
      {
        StopFreeExactlyWhenSearched(stops, START, events);
        StopFreeAtTheEnd(stops, START, events);
      }
    } else {
      var k :| 0 <= k < |stops| && !Occurs(stops[k], stops[0]);
      var chars := CrossedStopsLeak(stops, k, z);
    }
  }

  lemma EndsWithLast(text: string, z: char, stop: string, i: int)
    requires EndsInNew(text + [z], |text|, stop, i) && stop != []
    ensures z in stop
  {
    assert (text + [z])[i..i + |stop|][|stop| - 1] == z;
  }

  lemma NothingEndsForeign(text: string, z: char, stop: string, stops: seq<string>)
    requires NonEmpty(stops) && stops == [stop] && z !in stop
    ensures FirstMatch(text + [z], 1, stops, false).None?
  {
    var full := text + [z];
    assert stops[0] == stop;
    FindInWindow(full, |text|, stop);
    var found := Find(full, stop, -|stop|);
    if found.Some? {
      EndsWithLast(text, z, stop, found.value);
    }
  }

  /** A stop string that is completed below min_tokens stays: the sequence may end
      with it and deliver it. */
  lemma UnsearchedStopIsDelivered(stops: seq<string>, stop: string, z: char)
    requires NonEmpty(stops) && stops == [stop] && z !in stop
    ensures var events := [Chunk(stop + [z], TooFewTokens), Chunk([z], Ordinary(true)), Poll];
            var s := RunAll(stops, false, START, events);
            FirstInsideAll(stops) && s.finished && s.delivered == s.text == stop + [z] + [z] && !StopFree(s.text, stops)
  {
    var text := stop + [z];
    var e1, e2 := Chunk(text, TooFewTokens), Chunk([z], Ordinary(true));
    assert OccursAt(stop, stop, 0) by {
      assert stop[0..|stop|] == stop;
    }
    var s1 := Step(stops, false, START, e1);
    assert "" + text == text && s1.text == text;
    var full := text + [z];
    NothingEndsForeign(text, z, stop, stops);
    var s2 := Step(stops, false, s1, e2);
    assert s2.text == full && s2.finished;
    StepKeepsInvariant(stops, false, START, e1);
    StepKeepsInvariant(stops, false, s1, e2);
    PollCatchesUp(stops, false, s2);
    RunOfThree(stops, e1, e2);
    assert OccursAt(full, stop, 0) by {
      assert full[0..|stop|] == stop;
    }
  }

  lemma RunOfThree(stops: seq<string>, e1: Event, e2: Event)
    requires NonEmpty(stops)
    ensures RunAll(stops, false, START, [e1, e2, Poll])
         == Step(stops, false, Step(stops, false, Step(stops, false, START, e1), e2), Poll)
  {
    StepKeepsInvariant(stops, false, START, e1);
    var s1 := Step(stops, false, START, e1);
    StepKeepsInvariant(stops, false, s1, e2);
    assert [e1, e2, Poll][1..] == [e2, Poll] && [e2, Poll][1..] == [Poll] && [Poll][1..] == [];
    var s2 := Step(stops, false, s1, e2);
    assert RunAll(stops, false, s2, [Poll]) == Step(stops, false, s2, Poll);
    assert RunAll(stops, false, s1, [e2, Poll]) == RunAll(stops, false, s2, [Poll]);
  }
}
