/**
 The bad-word mask (spexis/logits_process.py): a word is forbidden by giving its
 last token the logit minus infinity whenever the tokens before it were just
 generated. The main results are about whole generations.
 */
module BadWords {
  /** A logit, without rounding. */
  datatype Logit = NegInf | Finite(value: real)

  datatype Error = OutOfVocabulary | EmptyEncoding

  datatype Result<T> = Ok(value: T) | Err(error: Error)

  function Add(a: Logit, b: Logit): Logit {
    if a.Finite? && b.Finite? then Finite(a.value + b.value) else NegInf
  }

  /** The sum of two tensors of one shape. */
  function Sum(a: seq<Logit>, b: seq<Logit>): seq<Logit>
    requires |a| == |b|
  {
    seq(|a|, (i: nat) requires i < |a| => Add(a[i], b[i]))
  }

  // ---------------------------------------------------------------- the two questions

  predicate EndsWith(s: seq<nat>, w: seq<nat>) {
    |w| <= |s| && s[|s| - |w|..] == w
  }

  /** The rule of one step: `s` ends with a bad word. */
  ghost predicate EndsBadly(words: seq<seq<nat>>, s: seq<nat>) {
    exists w | w in words :: w != [] && EndsWith(s, w)
  }

  /** The promise about the whole: `w` occurs in `s` as a contiguous block. */
  ghost predicate Contains(s: seq<nat>, w: seq<nat>) {
    exists j: nat :: OccursAt(s, w, j)
  }

  predicate OccursAt(s: seq<nat>, w: seq<nat>, j: nat) {
    j + |w| <= |s| && s[j..j + |w|] == w
  }

  predicate AllBelow(w: seq<nat>, vocab: nat) {
    forall t | t in w :: t < vocab
  }

  predicate InVocabulary(words: seq<seq<nat>>, vocab: nat) {
    forall w | w in words :: AllBelow(w, vocab)
  }

  // ------------------------------------------------------------------- the processor

  /** Token `t` is the last token of a word of `words` whose other tokens `past`
      ends with; one-token words do not look at `past`. */
  ghost predicate Matched(words: seq<seq<nat>>, past: seq<nat>, t: nat) {
    exists w | w in words :: Completes(w, past, t)
  }

  predicate Completes(w: seq<nat>, past: seq<nat>, t: nat) {
    |w| >= 2 && EndsWith(past, w[..|w| - 1]) && w[|w| - 1] == t
  }

  class NoBadWordsLogitsProcessor {
    const badWordsIds: seq<seq<nat>>
    var wordBias: array?<Logit>

    /** Once built, the bias marks the one-token words. */
    ghost predicate Valid()
      reads this, wordBias
    {
      wordBias != null ==>
        && InVocabulary(badWordsIds, wordBias.Length)
        && forall t | 0 <= t < wordBias.Length :: wordBias[t] == if [t] in badWordsIds then NegInf else Finite(0.0)
    }

    constructor (badWordsIds: seq<seq<nat>>)
      ensures Valid() && wordBias == null && this.badWordsIds == badWordsIds
    {
      this.badWordsIds, wordBias := badWordsIds, null;
    }

    /** The tokens outside the vocabulary, which the error message lists. */
    method CheckTokenIdsBounds(vocabSize: nat) returns (ok: bool)
      ensures ok == InVocabulary(badWordsIds, vocabSize)
    {
      var invalid: seq<nat> := [];
      for i := 0 to |badWordsIds|
        invariant invalid == [] <==> InVocabulary(badWordsIds[..i], vocabSize)
      {
        var word := badWordsIds[i];
        SplitLast(badWordsIds, i);
        for j := 0 to |word|
          invariant invalid == [] <==> InVocabulary(badWordsIds[..i], vocabSize) && AllBelow(word[..j], vocabSize)
        {
          SplitLast(word, j);
          AllBelowSnoc(word[..j], word[j], vocabSize);
          if word[j] >= vocabSize {
            invalid := invalid + [word[j]];
          }
        }
        assert word[..|word|] == word;
      }
      assert badWordsIds[..|badWordsIds|] == badWordsIds;
      ok := invalid == [];
    }

    method InitWordBias(vocabSize: nat) returns (ok: bool)
      requires wordBias == null
      modifies this
      ensures ok == InVocabulary(badWordsIds, vocabSize)
      ensures Valid() && if ok then wordBias != null && fresh(wordBias) && wordBias.Length == vocabSize
                         else wordBias == null
    {
      ok := CheckTokenIdsBounds(vocabSize);
      if !ok {
        return;
      }
      var bias := new Logit[vocabSize](_ => Finite(0.0));
      for i := 0 to |badWordsIds|
        invariant forall t | 0 <= t < vocabSize ::
          bias[t] == if [t] in badWordsIds[..i] then NegInf else Finite(0.0)
      {
        var word := badWordsIds[i];
        assert badWordsIds[..i + 1] == badWordsIds[..i] + [word];
        if |word| == 1 {
          assert word in badWordsIds && word[0] in word && AllBelow(word, vocabSize) && word == [word[0]];
          bias[word[0]] := NegInf;
        }
      }
      assert badWordsIds[..|badWordsIds|] == badWordsIds;
      wordBias := bias;
    }

    /** The loop of __call__ over the words of two or more tokens; false for the
        IndexError of an empty word. */
    method LastTokenBias(past: seq<nat>, vocabSize: nat) returns (bias: array<Logit>, ok: bool)
      requires InVocabulary(badWordsIds, vocabSize)
      ensures fresh(bias) && bias.Length == vocabSize
      ensures ok == ([] !in badWordsIds)
      ensures ok ==> forall t: nat | t < vocabSize ::
        bias[t] == if Matched(badWordsIds, past, t) then NegInf else Finite(0.0)
    {
      bias := new Logit[vocabSize](_ => Finite(0.0));
      for i := 0 to |badWordsIds|
        invariant [] !in badWordsIds[..i]
        invariant forall t: nat | t < vocabSize ::
          bias[t] == if Matched(badWordsIds[..i], past, t) then NegInf else Finite(0.0)
      {
        var word := badWordsIds[i];
        SplitLast(badWordsIds, i);
        MatchedSnoc(badWordsIds[..i], word, past);
        if |word| == 1 || |word| > |past| + 1 {
          continue;
        }
        assert word in badWordsIds && AllBelow(word, vocabSize);
        if word == [] {
          return bias, false;
        }
        var prefixLength, lastTokenId := |word| - 1, word[|word| - 1];
        assert lastTokenId in word;
        var isMatch := past[|past| - prefixLength..] == word[..prefixLength];
        MarkToken(bias, lastTokenId, isMatch, set t: nat | t < vocabSize && Matched(badWordsIds[..i], past, t));
      }
      assert badWordsIds[..|badWordsIds|] == badWordsIds;
      ok := true;
    }

    /** __call__: minus infinity for exactly the tokens that would complete a bad
        word, every other logit as it was. An empty bad word is an IndexError; a
        token outside the vocabulary is a ValueError on the first call. */
    method Call(past: seq<nat>, logits: seq<Logit>) returns (r: Result<seq<Logit>>)
      requires Valid()
      requires wordBias != null ==> wordBias.Length == |logits|
      modifies this
      ensures Valid()
      ensures r == Err(OutOfVocabulary) <==> !InVocabulary(badWordsIds, |logits|)
      ensures r.Ok? <==> InVocabulary(badWordsIds, |logits|) && [] !in badWordsIds
      ensures if r == Err(OutOfVocabulary) then wordBias == null
              else wordBias != null && wordBias.Length == |logits|
      ensures r.Ok? ==> r.value == Masked(badWordsIds, past, logits)
    {
      if wordBias == null {
        var ok := InitWordBias(|logits|);
        if !ok {
          return Err(OutOfVocabulary);
        }
      }
      var lastTokenBias, ok := LastTokenBias(past, |logits|);
      if !ok {
        return Err(EmptyEncoding);
      }
      forall t: nat | t < |logits|
        ensures EndsBadly(badWordsIds, past + [t]) <==> [t] in badWordsIds || Matched(badWordsIds, past, t)
      {
        EndsBadlyByParts(badWordsIds, past, t);
      }
      r := Ok(Sum(Sum(logits, wordBias[..]), lastTokenBias[..]));
    }
  }

  /** What the processor makes of the logits of one step: minus infinity for the
      tokens that would end a bad word, the logit itself for the others. */
  ghost function Masked(words: seq<seq<nat>>, past: seq<nat>, logits: seq<Logit>): seq<Logit> {
    seq(|logits|, (t: nat) => if t < |logits| && !EndsBadly(words, past + [t]) then logits[t] else NegInf)
  }

  lemma AllBelowSnoc(w: seq<nat>, t: nat, vocab: nat)
    ensures AllBelow(w + [t], vocab) <==> AllBelow(w, vocab) && t < vocab
  {
    assert t in w + [t];
    assert forall x | x in w :: x in w + [t];
    assert forall x | x in w + [t] :: x in w || x == t;
  }

  /** Its update: the bias marks a token in addition, if the word matched. */
  method MarkToken(bias: array<Logit>, tokenId: nat, isMatch: bool, ghost marked: set<nat>)
    requires tokenId < bias.Length
    requires forall t: nat | t < bias.Length :: bias[t] == if t in marked then NegInf else Finite(0.0)
    modifies bias
    ensures forall t: nat | t < bias.Length ::
      bias[t] == if t in marked || (isMatch && t == tokenId) then NegInf else Finite(0.0)
  {
    bias[tokenId] := Add(bias[tokenId], if isMatch then NegInf else Finite(0.0));
  }

  lemma SplitLast<T>(s: seq<T>, i: nat)
    requires i < |s|
    ensures s[..i + 1] == s[..i] + [s[i]]
    ensures forall w :: w in s[..i + 1] <==> w in s[..i] || w == s[i]
  {
  }

  lemma MatchedSnoc(words: seq<seq<nat>>, word: seq<nat>, past: seq<nat>)
    ensures forall t: nat :: Matched(words + [word], past, t) <==> Matched(words, past, t) || Completes(word, past, t)
  {
    assert forall w :: w in words + [word] <==> w in words || w == word;
  }

  /** The two kinds of words together are the rule. */
  lemma EndsBadlyByParts(words: seq<seq<nat>>, past: seq<nat>, t: nat)
    ensures EndsBadly(words, past + [t]) <==> [t] in words || Matched(words, past, t)
  {
    forall w | w in words && w != []
      ensures EndsWith(past + [t], w) <==> w == [t] || Completes(w, past, t)
    {
      EndsWithSnoc(past, t, w);
    }
  }

  lemma EndsWithSnoc(past: seq<nat>, t: nat, w: seq<nat>)
    requires w != []
    ensures EndsWith(past + [t], w) <==> EndsWith(past, w[..|w| - 1]) && w[|w| - 1] == t
  {
    var p := w[..|w| - 1];
    assert w == p + [w[|w| - 1]];
    if |w| <= |past| + 1 {
      assert (past + [t])[|past| + 1 - |w|..] == past[|past| - |p|..] + [t];
    }
  }

  // ------------------------------------------------------------------ whole generations

  /** Every token of `gen` was picked among those not at minus infinity. */
  ghost predicate Generated(words: seq<seq<nat>>, logits: seq<seq<Logit>>, gen: seq<nat>) {
    && |logits| == |gen|
    && forall i | 0 <= i < |gen| ::
         gen[i] < |logits[i]| && Masked(words, gen[..i], logits[i])[gen[i]] != NegInf
  }

  /** A block occurs exactly when some prefix ends with it. */
  lemma ContainsIsSomePrefixEnds(s: seq<nat>, w: seq<nat>)
    ensures Contains(s, w) <==> exists i :: 0 <= i <= |s| && EndsWith(s[..i], w)
  {
    if Contains(s, w) {
      var j: nat :| OccursAt(s, w, j);
      assert s[..j + |w|][j..] == s[j..j + |w|];
      assert EndsWith(s[..j + |w|], w);
    }
    if i :| 0 <= i <= |s| && EndsWith(s[..i], w) {
      var j: nat := i - |w|;
      assert s[j..j + |w|] == s[..i][j..];
      assert OccursAt(s, w, j);
    }
  }

  /** Every prefix of a generation keeps the rule of one step. */
  lemma PrefixesEndWell(words: seq<seq<nat>>, logits: seq<seq<Logit>>, gen: seq<nat>, i: nat)
    requires Generated(words, logits, gen) && 0 < i <= |gen|
    ensures !EndsBadly(words, gen[..i])
  {
    assert gen[..i] == gen[..i - 1] + [gen[i - 1]];
    assert Masked(words, gen[..i - 1], logits[i - 1])[gen[i - 1]] != NegInf;
  }

  /** No generation contains a bad word, whatever the model proposes and however
      the tokens are picked. */
  lemma GenerationsAreSafe(words: seq<seq<nat>>, logits: seq<seq<Logit>>, gen: seq<nat>, w: seq<nat>)
    requires Generated(words, logits, gen) && w in words && w != []
    ensures !Contains(gen, w)
  {
    ContainsIsSomePrefixEnds(gen, w);
    forall i | 0 <= i <= |gen| ensures !EndsWith(gen[..i], w) {
      if i > 0 {
        PrefixesEndWell(words, logits, gen, i);
      }
    }
  }

  /** ... and nothing else is ruled out: a sequence can be generated by a model
      that gives its tokens finite logits exactly when it has no bad word. */
  lemma ExactlySafeSequencesAreGenerated(words: seq<seq<nat>>, logits: seq<seq<Logit>>, gen: seq<nat>)
    requires |logits| == |gen|
    requires forall i | 0 <= i < |gen| :: gen[i] < |logits[i]| && logits[i][gen[i]].Finite?
    ensures Generated(words, logits, gen) <==> forall w | w in words && w != [] :: !Contains(gen, w)
  {
    if Generated(words, logits, gen) {
      forall w | w in words && w != [] ensures !Contains(gen, w) {
        GenerationsAreSafe(words, logits, gen, w);
      }
    }
    if forall w | w in words && w != [] :: !Contains(gen, w) {
      forall i | 0 <= i < |gen| ensures Masked(words, gen[..i], logits[i])[gen[i]] != NegInf {
        var next := i + 1;
        assert gen[..next] == gen[..i] + [gen[i]];
        forall w | w in words && w != [] ensures !EndsWith(gen[..next], w) {
          ContainsIsSomePrefixEnds(gen, w);
        }
      }
    }
  }

  // -------------------------------------------------------------------- from the words

  /** The tokenizer without special tokens, and Python's lstrip. */
  datatype Tokenizer = Tokenizer(encode: string -> seq<nat>, lstrip: string -> string)

  function Plain(t: Tokenizer, word: string): seq<nat> {
    t.encode(t.lstrip(word))
  }

  function Spaced(t: Tokenizer, word: string): seq<nat> {
    t.encode(" " + t.lstrip(word))
  }

  /** When the encoding with a leading space is forbidden too. */
  predicate AlsoSpaced(t: Tokenizer, word: string) {
    && Plain(t, word) != [] && Spaced(t, word) != []
    && Spaced(t, word)[0] != Plain(t, word)[0] && |Spaced(t, word)| == |Plain(t, word)|
  }

  /** The token sequences forbidden for the words `badWords`. */
  ghost predicate Banned(t: Tokenizer, badWords: seq<string>, w: seq<nat>) {
    exists b | b in badWords :: w == Plain(t, b) || (AlsoSpaced(t, b) && w == Spaced(t, b))
  }

  lemma BannedSnoc(t: Tokenizer, badWords: seq<string>, b: string)
    ensures forall w :: Banned(t, badWords + [b], w) <==>
      Banned(t, badWords, w) || w == Plain(t, b) || (AlsoSpaced(t, b) && w == Spaced(t, b))
  {
    assert forall x :: x in badWords + [b] <==> x in badWords || x == b;
  }

  /** get_bad_words_logits_processors up to building the processor: the plain
      encoding of every word, and the spaced one where it is a different word of
      the same length; an IndexError if any encoding is empty. */
  method BadWordsIds(badWords: seq<string>, t: Tokenizer) returns (r: Result<seq<seq<nat>>>)
    ensures r.Ok? <==> forall b | b in badWords :: Plain(t, b) != [] && Spaced(t, b) != []
    ensures r.Ok? ==> [] !in r.value
    ensures r.Ok? ==> forall w :: w in r.value <==> Banned(t, badWords, w)
  {
    var ids: seq<seq<nat>> := [];
    for i := 0 to |badWords|
      invariant forall b | b in badWords[..i] :: Plain(t, b) != [] && Spaced(t, b) != []
      invariant [] !in ids
      invariant forall w :: w in ids <==> Banned(t, badWords[..i], w)
    {
      var b := badWords[i];
      SplitLast(badWords, i);
      BannedSnoc(t, badWords[..i], b);
      var plain := t.encode(t.lstrip(b));
      ids := ids + [plain];
      var spaced := t.encode(" " + t.lstrip(b));
      if spaced == [] || plain == [] {
        assert b in badWords;
        return Err(EmptyEncoding);
      }
      if spaced[0] != plain[0] && |spaced| == |plain| {
        ids := ids + [spaced];
      }
    }
    assert badWords[..|badWords|] == badWords;
    r := Ok(ids);
  }

  /** From the words of the request to the tokens of the output: no generation
      contains the encoding of a bad word. */
  lemma BadWordsAreNeverGenerated(
      badWords: seq<string>, t: Tokenizer, words: seq<seq<nat>>, logits: seq<seq<Logit>>, gen: seq<nat>, b: string)
    requires forall w :: w in words <==> Banned(t, badWords, w)
    requires Generated(words, logits, gen) && b in badWords && Plain(t, b) != []
    ensures !Contains(gen, Plain(t, b)) && (AlsoSpaced(t, b) ==> !Contains(gen, Spaced(t, b)))
  {
    assert Banned(t, badWords, Plain(t, b));
    GenerationsAreSafe(words, logits, gen, Plain(t, b));
    if AlsoSpaced(t, b) {
      assert Banned(t, badWords, Spaced(t, b));
      GenerationsAreSafe(words, logits, gen, Spaced(t, b));
    }
  }
}
