/**
 * The token validator `validate_word` of src/segmentize_and_lookup.py.
 *
 * It is three `re.match` tests. `re.match` is anchored at the start of the
 * string only, so the `\W` test and the script test look at the first
 * character alone; the blank test carries its own `^` and `$` anchors.
 */
module Validator {

  /** The Unicode character classes the three patterns use, as predicates on
      characters: `\s`, `\w` (its complement is `\W`), `\p{Hiragana}`,
      `\p{Katakana}` and `\p{Han}`. Their tables are not part of this model. */
  datatype CharClasses = CharClasses(
    isSpace: char -> bool,
    isWord: char -> bool,
    isHiragana: char -> bool,
    isKatakana: char -> bool,
    isHan: char -> bool)

  /** Facts that hold of the real Unicode tables and that the lemmas below use:
      a whitespace character is never a word character, and newline is whitespace. */
  predicate Coherent(cc: CharClasses)
  {
    && cc.isSpace('\n')
    && forall c: char :: cc.isSpace(c) ==> !cc.isWord(c)
  }

  /** Every character of `s` is whitespace (true of the empty string). */
  predicate AllSpace(cc: CharClasses, s: string)
  {
    forall i :: 0 <= i < |s| ==> cc.isSpace(s[i])
  }

  /** `re.match(r'^\s*$', w)`: in Python `$` matches at the end of the string
      and also just before a newline that ends it. */
  predicate BlankMatch(cc: CharClasses, w: string)
  {
    || AllSpace(cc, w)
    || (|w| > 0 && w[|w| - 1] == '\n' && AllSpace(cc, w[..|w| - 1]))
  }

  /** `re.match(r'\W', w)`: the first character exists and is not a word character. */
  predicate NonWordAtStart(cc: CharClasses, w: string)
  {
    |w| > 0 && !cc.isWord(w[0])
  }

  /** The character is in the Hiragana, Katakana or Han script. */
  predicate InJapaneseScript(cc: CharClasses, c: char)
  {
    cc.isHiragana(c) || cc.isKatakana(c) || cc.isHan(c)
  }

  /** `re.match(r'\p{Hiragana}|\p{Katakana}|\p{Han}', w)`: the first character
      exists and is in one of the three scripts. */
  predicate ScriptAtStart(cc: CharClasses, w: string)
  {
    |w| > 0 && InJapaneseScript(cc, w[0])
  }

  /** `validate_word`: the conjunction of the three tests, in source order.
      The empty token and every all-whitespace token are rejected, whatever
      the character tables say. */
  predicate ValidateWord(cc: CharClasses, w: string)
    ensures ValidateWord(cc, w) ==> w != [] && !AllSpace(cc, w)
  {
    && !BlankMatch(cc, w)
    && !NonWordAtStart(cc, w)
    && ScriptAtStart(cc, w)
  }

  /** With coherent tables the blank test is exactly "every character is
      whitespace": the extra match before a final newline adds nothing. */
  lemma BlankMatchIffAllSpace(cc: CharClasses, w: string)
    requires Coherent(cc)
    ensures BlankMatch(cc, w) <==> AllSpace(cc, w)
  {
  }

  /** With coherent tables the validator accepts exactly the tokens whose first
      character is a word character in one of the three scripts. */
  lemma AcceptsIffFirstCharacter(cc: CharClasses, w: string)
    requires Coherent(cc)
    ensures ValidateWord(cc, w) <==> |w| > 0 && cc.isWord(w[0]) && InJapaneseScript(cc, w[0])
  {
  }

  /** Only the first character is inspected: appending anything to a one-character
      token never changes the verdict (with coherent tables). */
  lemma OnlyFirstCharacterMatters(cc: CharClasses, c: char, rest: string)
    requires Coherent(cc)
    ensures ValidateWord(cc, [c] + rest) == ValidateWord(cc, [c])
  {
    AcceptsIffFirstCharacter(cc, [c] + rest);
    AcceptsIffFirstCharacter(cc, [c]);
  }

  /** A Han word character followed by an ideographic full stop is accepted:
      the punctuation after the first character goes unnoticed. */
  lemma AcceptsTrailingPunctuation(cc: CharClasses)
    requires Coherent(cc)
    requires cc.isHan('猫') && cc.isWord('猫')
    ensures ValidateWord(cc, "猫。")
  {
    AcceptsIffFirstCharacter(cc, "猫。");
  }
}
