/**
 * The text metrics of the `analyze` command: the word count (spaces plus
 * one), whether the argument asks a question, whether it is emphatic (all
 * capitals, spaces and punctuation, and more than three words), whether it
 * is complex (more than fifteen words), and whether it is brief (fewer
 * than five words).  The character classes are those of the "C" locale.
 */
module ArgumentMetrics {
  import opened Wrappers

  /** `std::count(s.begin(), s.end(), c)`. */
  function CountChar(s: string, c: char): nat
  {
    if s == [] then 0
    else (if s[0] == c then 1 else 0) + CountChar(s[1..], c)
  }

  /** The count is the multiplicity of `c` in the string. */
  lemma {:induction false} CountCharIsMultiplicity(s: string, c: char)
    ensures CountChar(s, c) == multiset(s)[c]
  {
    if s != [] {
      assert s == [s[0]] + s[1..];
      CountCharIsMultiplicity(s[1..], c);
    }
  }

  /** The first position of `s` holding `c`, if any. */
  function Find(s: string, c: char): (r: Option<nat>)
    ensures r.None? <==> c !in s
    ensures r.Some? ==> r.value < |s| && s[r.value] == c && c !in s[..r.value]
  {
    if s == [] then None
    else if s[0] == c then Some(0)
    else
      match Find(s[1..], c)
      case None => None
      case Some(i) =>
        assert s[..i + 1] == [s[0]] + s[1..][..i];
        Some(i + 1)
  }

  /** `isupper` in the "C" locale. */
  predicate IsUpper(c: char)
  {
    'A' <= c <= 'Z'
  }

  /** `isspace` in the "C" locale: space, tab, newline, vertical tab, form feed, carriage return. */
  predicate IsSpace(c: char)
  {
    c == ' ' || '\t' <= c <= '\r'
  }

  /** `ispunct` in the "C" locale: the printable ASCII characters that are neither letters, digits nor space. */
  predicate IsPunct(c: char)
  {
    ('!' <= c <= '/') || (':' <= c <= '@') || ('[' <= c <= '`') || ('{' <= c <= '~')
  }

  /** The number of space-separated fields: one more than the number of spaces. */
  function WordCount(s: string): (n: nat)
    ensures n == multiset(s)[' '] + 1
  {
    CountCharIsMultiplicity(s, ' ');
    CountChar(s, ' ') + 1
  }

  /**
   * The characters `all_of` accepts: the white-space controls tab to
   * carriage return, and the printable ASCII characters other than the
   * lower-case letters and the digits.
   */
  lemma ShoutingCharacters(c: char)
    ensures IsUpper(c) || IsSpace(c) || IsPunct(c) <==>
      ('\t' <= c <= '\r') || (' ' <= c <= '~' && !('a' <= c <= 'z') && !('0' <= c <= '9'))
  {
  }

  /** Every character is a capital, white space or punctuation. */
  predicate AllShouting(s: string)
  {
    forall i :: 0 <= i < |s| ==> IsUpper(s[i]) || IsSpace(s[i]) || IsPunct(s[i])
  }

  /** What `analyze` reports: the usage line for an empty argument, otherwise the metrics. */
  datatype Analysis =
    | Usage
    | Report(wordCount: nat, isQuestion: bool, isEmphatic: bool, isComplex: bool, isBrief: bool)

  /** The `analyze <argument>` command. */
  function Analyze(argument: string): (r: Analysis)
    ensures r.Usage? <==> argument == []
    ensures r.Report? ==>
      && r.wordCount == multiset(argument)[' '] + 1
      && (r.isQuestion <==> '?' in argument)
      && (r.isEmphatic <==> AllShouting(argument) && multiset(argument)[' '] >= 3)
      && (r.isComplex <==> multiset(argument)[' '] >= 15)
      && (r.isBrief <==> multiset(argument)[' '] < 4)
  {
    if argument == [] then Usage
    else
      var wordCount := WordCount(argument);
      var hasQuestion := '?' in argument;
      var isEmphatic := AllShouting(argument) && wordCount > 3;
      var isComplex := wordCount > 15;
      Report(wordCount, hasQuestion, isEmphatic, isComplex, wordCount < 5)
  }

  /** A lower-case letter anywhere makes an argument not emphatic. */
  lemma LowerCaseNotEmphatic(argument: string, i: nat)
    requires i < |argument| && 'a' <= argument[i] <= 'z'
    ensures Analyze(argument).Report? && !Analyze(argument).isEmphatic
  {
    assert !IsPunct(argument[i]);
  }

  /** The fields of `s` between single spaces (two spaces in a row give an empty field). */
  function Fields(s: string): (ws: seq<string>)
    ensures |ws| > 0
    ensures forall k :: 0 <= k < |ws| ==> ' ' !in ws[k]
    decreases |s|
  {
    match Find(s, ' ')
    case None => [s]
    case Some(i) => [s[..i]] + Fields(s[i + 1..])
  }

  /** The word count counts the fields: empty ones included. */
  lemma {:induction false} WordCountIsFields(s: string)
    ensures WordCount(s) == |Fields(s)|
    decreases |s|
  {
    match Find(s, ' ')
    case None =>
    case Some(i) =>
      WordCountIsFields(s[i + 1..]);
      SpacesAfterFirst(s, i);
  }

  /** Cutting at the first space leaves one space fewer. */
  lemma SpacesAfterFirst(s: string, i: nat)
    requires i < |s| && s[i] == ' ' && ' ' !in s[..i]
    ensures multiset(s)[' '] == multiset(s[i + 1..])[' '] + 1
  {
    assert s == s[..i] + [' '] + s[i + 1..];
    assert multiset(s) == multiset(s[..i]) + multiset{' '} + multiset(s[i + 1..]);
    assert multiset(s[..i])[' '] == 0;
  }

  /** "WHAT IS GOING ON???" has four words, asks a question, is emphatic, is not complex, and is brief. */
  lemma ShoutedQuestion()
    ensures Analyze("WHAT IS GOING ON???") == Report(4, true, true, false, true)
  {
    var argument := "WHAT IS GOING ON???";
    ShoutedQuestionSpaces(argument);
    ShoutedQuestionShouts(argument);
    ShoutedQuestionMark(argument);
    ShoutedReport(argument);
  }

  /** Any argument of four shouted words with a question mark gets the same report. */
  lemma ShoutedReport(argument: string)
    requires argument != [] && '?' in argument && AllShouting(argument) && multiset(argument)[' '] == 3
    ensures Analyze(argument) == Report(4, true, true, false, true)
  {
  }

  lemma ShoutedQuestionMark(argument: string)
    requires argument == "WHAT IS GOING ON???"
    ensures argument != [] && '?' in argument
  {
    assert argument[16] == '?';
  }

  lemma ShoutedQuestionSpaces(argument: string)
    requires argument == "WHAT IS GOING ON???"
    ensures multiset(argument)[' '] == 3
  {
  }

  lemma ShoutedQuestionShouts(argument: string)
    requires argument == "WHAT IS GOING ON???"
    ensures AllShouting(argument)
  {
  }
}
