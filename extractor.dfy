/**
 * Word extraction in `main` of src/segmentize_and_lookup.py: the tokenizer's
 * output, already split on whitespace, is filtered through `validate_word` and
 * collected into a set.
 */
module Extractor {
  import opened Validator

  /** `filter(validate_word, tokens)`: the tokens that pass, each as many
      times as it occurs in the input. */
  function Filter(cc: CharClasses, tokens: seq<string>): (kept: seq<string>)
    ensures |kept| <= |tokens|
    ensures forall t :: t in kept <==> t in tokens && ValidateWord(cc, t)
    ensures forall t :: multiset(kept)[t] == if ValidateWord(cc, t) then multiset(tokens)[t] else 0
  {
    if tokens == [] then []
    else
      assert tokens == [tokens[0]] + tokens[1..];
      if ValidateWord(cc, tokens[0]) then [tokens[0]] + Filter(cc, tokens[1..])
      else Filter(cc, tokens[1..])
  }

  /** The set comprehension over the filtered tokens: duplicates collapse, so
      the set holds exactly the tokens the validator accepts and is never
      larger than the token sequence. */
  function ExtractWords(cc: CharClasses, tokens: seq<string>): (words: set<string>)
    ensures forall t :: t in words <==> t in tokens && ValidateWord(cc, t)
    ensures |words| <= |tokens|
  {
    var kept := Filter(cc, tokens);
    ElementsBound(kept);
    set t | t in kept
  }

  /** Neither the order of the tokens nor their repetition affects the result:
      two token sequences with the same elements give the same word set. */
  lemma OrderAndRepetitionIrrelevant(cc: CharClasses, a: seq<string>, b: seq<string>)
    requires forall t :: t in a <==> t in b
    ensures ExtractWords(cc, a) == ExtractWords(cc, b)
  {
  }

  /** Extraction distributes over concatenation of token sequences. */
  lemma {:induction false} ExtractConcat(cc: CharClasses, a: seq<string>, b: seq<string>)
    ensures ExtractWords(cc, a + b) == ExtractWords(cc, a) + ExtractWords(cc, b)
  {
  }

  /** The elements of a sequence are at most as many as its positions. */
  lemma {:induction false} ElementsBound(s: seq<string>)
    ensures |set t | t in s| <= |s|
  {
    if s != [] {
      ElementsBound(s[1..]);
      var tail := set t | t in s[1..];
      assert (set t | t in s) == tail + {s[0]};
      assert |tail + {s[0]}| <= |tail| + 1;
    }
  }

  /** A tokenizer output with a repeated word gives each word once: with
      tables that put the three characters in their scripts, "猫 が 猫 を"
      yields three words. */
  lemma ExtractsEachWordOnce(cc: CharClasses)
    requires Coherent(cc)
    requires cc.isHan('猫') && cc.isWord('猫')
    requires cc.isHiragana('が') && cc.isWord('が')
    requires cc.isHiragana('を') && cc.isWord('を')
    ensures ExtractWords(cc, ["猫", "が", "猫", "を"]) == {"猫", "が", "を"}
  {
    AcceptsIffFirstCharacter(cc, "猫");
    AcceptsIffFirstCharacter(cc, "が");
    AcceptsIffFirstCharacter(cc, "を");
  }
}
