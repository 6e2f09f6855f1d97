/**
 * The worker's `SentimentLexicon`: two word sets read from resources, one word per line,
 * with `#` starting a comment, and membership tests on them.
 */
module Lexicons {

  import opened Wrappers
  import opened Strings

  /** A trimmed string keeps only characters of the string it came from. */
  lemma TrimKeepsOut(s: string, c: char)
    requires forall j :: 0 <= j < |s| ==> s[j] != c
    ensures forall j :: 0 <= j < |Trim(s)| ==> Trim(s)[j] != c
  {
    TrimKeepsMiddle(s);
  }

  /**
   * The line normalisation of `loadWords`: the line trimmed, then cut before its first `#`
   * and trimmed again when it has one.
   */
  function Normalize(line: string): string
  {
    var t := Trim(line);
    var c := IndexOf(t, '#');
    if c >= 0 then Trim(t[..c]) else t
  }

  /**
   * A normalised line holds no `#`; without a `#` it is the trimmed line, and with one it is
   * the trimmed text before the first `#`.
   */
  lemma NormalizeStripsComment(line: string)
    ensures forall j :: 0 <= j < |Normalize(line)| ==> Normalize(line)[j] != '#'
    ensures var t := Trim(line);
      (forall j :: 0 <= j < |t| ==> t[j] != '#') ==> Normalize(line) == t
    ensures var t := Trim(line); var c := IndexOf(t, '#');
      c >= 0 ==> t[c] == '#' && '#' !in t[..c] && Normalize(line) == Trim(t[..c])
  {
    var t := Trim(line);
    var c := IndexOf(t, '#');
    if c >= 0 {
      assert forall j :: 0 <= j < c ==> t[..c][j] != '#';
      TrimKeepsOut(t[..c], '#');
    } else {
      TrimKeepsOut(t, '#');
      assert forall j :: 0 <= j < |t| ==> t[j] == Trim(line)[j];
    }
  }

  /** The word a line contributes: its normalised form, lowercased. */
  function WordOf(line: string, lower: char -> char): string
  {
    LowerCase(Normalize(line), lower)
  }

  /**
   * `loadWords`: the lowercased normalised lines that are not empty. `None` is a null
   * resource, which gives the empty set.
   */
  function LoadWords(lines: Option<seq<string>>, lower: char -> char): set<string>
  {
    match lines
    case None => {}
    case Some(ls) => set i | 0 <= i < |ls| && |Normalize(ls[i])| > 0 :: WordOf(ls[i], lower)
  }

  /**
   * Every loaded word is the word of some line with a non-empty normalised form and every
   * such line's word is loaded; a null resource loads nothing.
   */
  lemma LoadWordsMembers(lines: Option<seq<string>>, lower: char -> char, w: string)
    ensures lines.None? ==> LoadWords(lines, lower) == {}
    ensures lines.Some? ==>
      (w in LoadWords(lines, lower) <==>
        exists i :: 0 <= i < |lines.value| && |Normalize(lines.value[i])| > 0 &&
          WordOf(lines.value[i], lower) == w)
  {
  }

  /**
   * What a line's word looks like: not empty when its normalised form is not, lowercased when
   * the case mapping is idempotent, and without `#` when the case mapping never produces one.
   */
  lemma WordOfShape(line: string, lower: char -> char)
    requires |Normalize(line)| > 0
    ensures |WordOf(line, lower)| > 0
    ensures (forall c :: lower(lower(c)) == lower(c)) ==>
      LowerCase(WordOf(line, lower), lower) == WordOf(line, lower)
    ensures (forall c :: c != '#' ==> lower(c) != '#') ==>
      forall j :: 0 <= j < |WordOf(line, lower)| ==> WordOf(line, lower)[j] != '#'
  {
    var n := Normalize(line);
    NormalizeStripsComment(line);
    if forall c :: lower(lower(c)) == lower(c) {
      LowerCaseIdempotent(n, lower);
    }
    if forall c :: c != '#' ==> lower(c) != '#' {
      forall j | 0 <= j < |n|
        ensures WordOf(line, lower)[j] != '#'
      {
        assert n[j] != '#';
      }
    }
  }

  /** So every loaded word has that shape. */
  lemma LoadedWordShape(lines: Option<seq<string>>, lower: char -> char, w: string)
    requires w in LoadWords(lines, lower)
    ensures |w| > 0
    ensures (forall c :: lower(lower(c)) == lower(c)) ==> LowerCase(w, lower) == w
    ensures (forall c :: c != '#' ==> lower(c) != '#') ==> forall j :: 0 <= j < |w| ==> w[j] != '#'
  {
    var ls := lines.value;
    var i :| 0 <= i < |ls| && |Normalize(ls[i])| > 0 && WordOf(ls[i], lower) == w;
    WordOfShape(ls[i], lower);
  }

  /** `SentimentLexicon`: the positive and the negative word sets, fixed at construction. */
  datatype Lexicon = Lexicon(positiveWords: set<string>, negativeWords: set<string>)
  {
    /** `isPositive`. */
    predicate IsPositive(word: string)
    {
      word in positiveWords
    }

    /** `isNegative`. */
    predicate IsNegative(word: string)
    {
      word in negativeWords
    }
  }

  /** The constructor: each set loaded from its resource's lines. */
  function LoadLexicon(positive: Option<seq<string>>, negative: Option<seq<string>>,
                       lower: char -> char): Lexicon
  {
    Lexicon(LoadWords(positive, lower), LoadWords(negative, lower))
  }

  /**
   * `isPositive` and `isNegative` hold exactly for the words of lines of the respective
   * resource, and never for a word with `#` in it or for the empty word.
   */
  lemma LexiconMembership(positive: Option<seq<string>>, negative: Option<seq<string>>,
                          lower: char -> char, w: string)
    requires forall c :: c != '#' ==> lower(c) != '#'
    ensures var lex := LoadLexicon(positive, negative, lower);
      (lex.IsPositive(w) <==> w in LoadWords(positive, lower)) &&
      (lex.IsNegative(w) <==> w in LoadWords(negative, lower)) &&
      ((lex.IsPositive(w) || lex.IsNegative(w)) ==>
        |w| > 0 && forall j :: 0 <= j < |w| ==> w[j] != '#')
  {
    var lex := LoadLexicon(positive, negative, lower);
    if lex.IsPositive(w) {
      LoadedWordShape(positive, lower, w);
    } else if lex.IsNegative(w) {
      LoadedWordShape(negative, lower, w);
    }
  }

}
