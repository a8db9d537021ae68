/**
 The per-request speculation bookkeeping of the Spexis engine (spexis/v1/request.py).

 Tokens drafted by the exit layer are appended to the output before the target
 model has confirmed them. `VerifyOutputTokenId` consumes one target-model
 result at a time: it confirms the oldest draft, replaces it (throwing away
 the later drafts and arranging for the results still in flight to be
 flushed), flushes a stale result, or ends a "drop" (a request that stopped
 speculating and waits for its outstanding drafts).
 */
module SpeculativeRequest {
  type Token = int

  /** Python's three-valued `spec_result`: None, True, False. */
  datatype Verdict = Unset | Right | Wrong

  /** What one call of verify_output_token_ids reports (codes 0..4). */
  datatype Outcome = Confirmed | Corrected | Flushed | FlushedDropped | DropEnded

  /** The outcome of the last verification: spec_result, flush_len,
      just_fixed, fixed_idx. Numbers that Python sets to None are not read
      then; they are 0 here. */
  datatype Check = Check(result: Verdict, flushLen: int, justFixed: bool, fixedIdx: int)

  /** confidence_dropped, stop_dropped, drop_len, drop_end. */
  datatype Drop = Drop(confidence: bool, stop: bool, len: int, end: bool) {
    predicate On() { confidence || stop }
  }

  const NO_CHECK := Check(Unset, 0, false, 0)

  datatype RequestState = RequestState(
    prompt: seq<Token>,
    output: seq<Token>,
    numComputed: int,
    spLen: int,
    check: Check,
    drop: Drop
  ) {
    function NumTokens(): nat { |prompt| + |output| }

    function AllTokens(): seq<Token> { prompt + output }

    predicate Wrong() { check.result.Wrong? }

    predicate InRange() { 0 <= spLen <= |output| }

    /** The tokens that are final. */
    function Verified(): seq<Token>
      requires InRange()
    {
      output[..|output| - spLen]
    }
  }

  function Fresh(prompt: seq<Token>): RequestState {
    RequestState(prompt, [], 0, 0, NO_CHECK, Drop(false, false, 0, false))
  }

  /** Python's `s[-k:] = [x]`; a slice from -0 is the whole list. */
  function ReplaceTail<T>(s: seq<T>, k: int, x: T): seq<T>
    requires 0 <= k
  {
    if k == 0 || |s| <= k then [x] else s[..|s| - k] + [x]
  }

  /** Python's `s[-k]`; index -0 is index 0. */
  function AtFromEnd<T>(s: seq<T>, k: int): T
    requires s != [] && 0 <= k <= |s|
  {
    if k == 0 then s[0] else s[|s| - k]
  }

  lemma ReplaceTailOfConcat<T>(s: seq<T>, t: seq<T>, k: int, x: T)
    requires 1 <= k <= |t|
    ensures ReplaceTail(s + t, k, x) == s + ReplaceTail(t, k, x)
    ensures |ReplaceTail(t, k, x)| == |t| - k + 1
  {
    assert (s + t)[..|s + t| - k] == s + t[..|t| - k];
  }

  function Drafted(r: RequestState, token: Token, wouldStop: bool): RequestState {
    var r' := r.(output := r.output + [token], spLen := r.spLen + 1);
    if wouldStop then r'.(drop := r.drop.(stop := true, len := r'.spLen)) else r'
  }

  function FlushCheck(c: Check): Check {
    c.(justFixed := false, flushLen := c.flushLen - 1,
       result := if c.flushLen == 1 then Unset else c.result)
  }

  function EndDrop(r: RequestState, token: Token): RequestState {
    r.(output := ReplaceTail(r.output, 1, token), spLen := 0,
       drop := Drop(false, false, 0, true),
       check := Check(Unset, 0, r.check.justFixed, 0))
  }

  function Correct(r: RequestState, token: Token): RequestState
    requires 0 <= r.spLen
  {
    r.(numComputed := r.numComputed - (r.spLen - 1),
       output := ReplaceTail(r.output, r.spLen, token), spLen := 0,
       drop := Drop(false, false, 0, r.drop.end),
       check := Check(Wrong, r.spLen - 1, true, |r.output| - r.spLen))
  }

  function Confirm(r: RequestState): RequestState {
    r.(spLen := r.spLen - 1, check := r.check.(result := Right, fixedIdx := 0))
  }

  /** One outstanding result of a dropped request has come back. */
  function CountDown(d: Drop): Drop {
    if d.On() then d.(len := d.len - 1) else d
  }

  /** The new state and the outcome of verifying one target-model token. */
  function Verify(r: RequestState, token: Token): (RequestState, Outcome)
    requires r.output != [] && r.InRange()
  {
    if r.Wrong() then
      (r.(check := FlushCheck(r.check)), if r.drop.On() then FlushedDropped else Flushed)
    else if r.drop.On() && r.drop.len == 1 then
      (EndDrop(r, token), DropEnded)
    else
      var r' := r.(drop := CountDown(r.drop));
      if AtFromEnd(r.output, r.spLen) == token then (Confirm(r'), Confirmed) else (Correct(r', token), Corrected)
  }

  function Product(s: seq<real>): real {
    if s == [] then 1.0 else s[0] * Product(s[1..])
  }

  ghost predicate Probabilities(s: seq<real>) {
    forall i | 0 <= i < |s| :: 0.0 <= s[i] <= 1.0
  }

  lemma ProductOfTwo(x: real, y: real)
    requires 0.0 <= x <= 1.0 && 0.0 <= y <= 1.0
    ensures 0.0 <= x * y <= y
  {
    assert (1.0 - x) * y >= 0.0;
  }

  /** The joint confidence is a probability, and a further draft can only lower it. */
  lemma {:induction false} FurtherDraftsLowerConfidence(s: seq<real>, confidence: real)
    requires Probabilities(s) && 0.0 <= confidence <= 1.0
    ensures 0.0 <= Product(s + [confidence]) <= Product(s) <= 1.0
  {
    if s == [] {
      assert [confidence][1..] == [];
    } else {
      assert (s + [confidence])[1..] == s[1..] + [confidence];
      FurtherDraftsLowerConfidence(s[1..], confidence);
      ProductOfTwo(s[0], Product(s[1..]));
      Scaled(s[0], Product(s[1..] + [confidence]), Product(s[1..]));
    }
  }

  lemma Scaled(x: real, y: real, z: real)
    requires x >= 0.0 && 0.0 <= y <= z
    ensures 0.0 <= x * y <= x * z
  {
    assert x * (z - y) >= 0.0;
  }

  class Request {
    const prompt: seq<Token>
    var output: seq<Token>
    var allTokens: seq<Token>
    var specConfidence: seq<real>
    var numComputed: int
    var spLen: int
    var check: Check
    var drop: Drop

    /** The three parallel lists stay aligned. */
    ghost predicate Valid()
      reads this
    {
      && allTokens == prompt + output
      && |specConfidence| == |output|
      && 0 <= spLen <= |output|
    }

    ghost function State(): RequestState
      reads this
    {
      RequestState(prompt, output, numComputed, spLen, check, drop)
    }

    constructor (prompt: seq<Token>)
      ensures Valid()
      ensures State() == Fresh(prompt)
    {
      this.prompt := prompt;
      output, allTokens, specConfidence := [], prompt, [];
      numComputed, spLen, check, drop := 0, 0, NO_CHECK, Drop(false, false, 0, false);
    }

    /** spec_confidence: of the tokens still awaiting verification, together. */
    method SpecConfidence() returns (confidence: real)
      requires Valid()
      ensures confidence == Product(specConfidence[|specConfidence| - spLen..])
    {
      confidence := 1.0;
      for i := 0 to spLen
        invariant confidence == Product(specConfidence[|specConfidence| - i..])
      {
        var rest := specConfidence[|specConfidence| - i - 1..];
        assert rest[1..] == specConfidence[|specConfidence| - i..];
        confidence := confidence * specConfidence[|specConfidence| - i - 1];
      }
    }

    /** update_from_spec_output: ingest one drafted token. */
    method AppendDraft(token: Token, confidence: real, wouldStop: bool)
      requires Valid()
      modifies this
      ensures Valid()
      ensures State() == Drafted(old(State()), token, wouldStop)
      ensures output == old(output) + [token] && specConfidence == old(specConfidence) + [confidence]
      ensures spLen == old(spLen) + 1 && numComputed == old(numComputed) && check == old(check)
      ensures drop == if wouldStop then old(drop).(stop := true, len := spLen) else old(drop)
    {
      output := output + [token];
      allTokens := allTokens + [token];
      specConfidence := specConfidence + [confidence];
      spLen := spLen + 1;
      if wouldStop {
        drop := drop.(stop := true, len := spLen);
      }
    }

    /** Replace the last `k` entries of the three lists by one target-model token. */
    method ReplaceLast(k: int, token: Token)
      requires Valid() && 1 <= k <= |output| && spLen <= |output| - k + 1
      modifies `output, `allTokens, `specConfidence
      ensures Valid()
      ensures output == ReplaceTail(old(output), k, token)
      ensures output == old(output)[..|old(output)| - k] + [token]
      ensures specConfidence == old(specConfidence)[..|old(output)| - k] + [1.0]
    {
      ReplaceTailOfConcat(prompt, output, k, token);
      output, allTokens := ReplaceTail(output, k, token), ReplaceTail(allTokens, k, token);
      specConfidence := ReplaceTail(specConfidence, k, 1.0);
    }

    /** Compare one target-model token with the oldest outstanding draft. */
    method VerifyOutputTokenId(token: Token) returns (outcome: Outcome)
      requires Valid()
      requires output != []
      requires 0 < spLen || check.result == Wrong
      modifies this
      ensures Valid()
      ensures State() == Verify(old(State()), token).0
      ensures outcome == Verify(old(State()), token).1
      ensures outcome == FlushedDropped <==> old(check.result == Wrong) && old(drop.On())
      ensures outcome == Flushed <==> old(check.result == Wrong) && !old(drop.On())
      ensures outcome == DropEnded <==> old(check.result != Wrong) && old(drop.On()) && old(drop.len) == 1
      ensures outcome == Confirmed ==> old(output[|output| - spLen]) == token
      ensures outcome == Corrected ==> old(check.result != Wrong) && old(output[|output| - spLen]) != token
      ensures var kept := |old(output)| - (if outcome == DropEnded then 1 else old(spLen));
        (output, specConfidence) ==
          if outcome == DropEnded || outcome == Corrected
          then (old(output)[..kept] + [token], old(specConfidence)[..kept] + [1.0])
          else (old(output), old(specConfidence))
      ensures (numComputed, spLen) == match outcome
        case Confirmed => (old(numComputed), old(spLen) - 1)
        case Corrected => (old(numComputed) - (old(spLen) - 1), 0)
        case DropEnded => (old(numComputed), 0)
        case _ => (old(numComputed), old(spLen))
      ensures check == match outcome
        case Confirmed => old(check).(result := Right, fixedIdx := 0)
        case Corrected => Check(Wrong, old(spLen) - 1, true, old(|output| - spLen))
        case DropEnded => Check(Unset, 0, old(check).justFixed, 0)
        case _ => Check(if old(check).flushLen == 1 then Unset else Wrong, old(check).flushLen - 1, false, old(check).fixedIdx)
      ensures drop == match outcome
        case Confirmed => if old(drop.On()) then old(drop).(len := old(drop).len - 1) else old(drop)
        case Corrected => Drop(false, false, 0, old(drop).end)
        case DropEnded => Drop(false, false, 0, true)
        case _ => old(drop)
    {
      if drop.On() {
        if check.result == Wrong {
          check := FlushCheck(check);
          return FlushedDropped;
        }
        if drop.len == 1 {
          spLen := 0;
          ReplaceLast(1, token);
          drop := Drop(false, false, 0, true);
          check := Check(Unset, 0, check.justFixed, 0);
          return DropEnded;
        }
        drop := drop.(len := drop.len - 1);
      }
      if check.result == Wrong {
        check := FlushCheck(check);
        return Flushed;
      } else if AtFromEnd(output, spLen) == token {
        spLen, check := spLen - 1, check.(result := Right, fixedIdx := 0);
        return Confirmed;
      } else {
        var rejected := spLen;
        numComputed := numComputed - (rejected - 1);
        check := Check(Wrong, rejected - 1, true, |output| - rejected);
        drop := Drop(false, false, 0, drop.end);
        spLen := 0;
        ReplaceLast(rejected, token);
        return Corrected;
      }
    }
  }
}
