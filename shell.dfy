/**
 * The argument joining of the shell loop: the `arg`, `analyze`, `echo`
 * and `math` commands rebuild their text from the tokens after the command
 * name, the first token followed by each further token after one space.
 */
module Shell {
  import opened Wrappers
  import opened ArgumentMetrics

  /** The tokens separated by single spaces; no tokens give the empty text. */
  function Join(words: seq<string>): string
  {
    if |words| == 0 then ""
    else if |words| == 1 then words[0]
    else words[0] + " " + Join(words[1..])
  }

  /** Adding a token at the end adds a space and the token. */
  lemma {:induction false} JoinSnoc(words: seq<string>, w: string)
    requires |words| > 0
    ensures Join(words + [w]) == Join(words) + " " + w
    decreases |words|
  {
    if |words| == 1 {
      assert words + [w] == [words[0], w];
    } else {
      assert (words + [w])[1..] == words[1..] + [w];
      JoinSnoc(words[1..], w);
    }
  }

  /** The joining loop: `text = args[0]`, then `text += " " + args[i]` for each further token. */
  method JoinArgs(args: seq<string>) returns (text: string)
    ensures text == Join(args)
  {
    if |args| == 0 {
      return "";
    }
    text := args[0];
    for i := 1 to |args|
      invariant text == Join(args[..i])
    {
      JoinSnoc(args[..i], args[i]);
      assert args[..i + 1] == args[..i] + [args[i]];
      text := text + " " + args[i];
    }
    assert args[..|args|] == args;
  }

  /** In `w + " " + rest`, where `w` has no space, the first space follows `w`. */
  lemma FirstSpaceAfterWord(w: string, rest: string)
    requires ' ' !in w
    ensures var s := w + " " + rest;
      Find(s, ' ') == Some(|w|) && s[..|w|] == w && s[|w| + 1..] == rest
  {
    var s := w + " " + rest;
    assert s[|w|] == ' ';
    var v := Find(s, ' ').value;
    assert forall j :: 0 <= j < v ==> s[..v][j] == s[j];
    assert forall j :: 0 <= j < |w| ==> s[j] == w[j];
    assert s[..|w|] == w;
    assert s[|w| + 1..] == rest;
  }

  /** Splitting the joined tokens at spaces gives the tokens back, when no token holds a space. */
  lemma {:induction false} FieldsOfJoin(words: seq<string>)
    requires |words| > 0
    requires forall k :: 0 <= k < |words| ==> ' ' !in words[k]
    ensures Fields(Join(words)) == words
    decreases |words|
  {
    if |words| > 1 {
      var rest := Join(words[1..]);
      var s := Join(words);
      assert s == words[0] + " " + rest;
      FirstSpaceAfterWord(words[0], rest);
      assert Fields(s) == [words[0]] + Fields(rest);
      FieldsOfJoin(words[1..]);
      assert words == [words[0]] + words[1..];
    }
  }

  /** Joining the space-separated fields of a text gives the text back. */
  lemma {:induction false} JoinOfFields(s: string)
    ensures Join(Fields(s)) == s
    decreases |s|
  {
    match Find(s, ' ')
    case None =>
    case Some(i) =>
      JoinOfFields(s[i + 1..]);
      var ws := Fields(s);
      assert ws == [s[..i]] + Fields(s[i + 1..]);
      assert ws[1..] == Fields(s[i + 1..]);
      assert s == s[..i] + " " + s[i + 1..];
  }

  /** `analyze` counts one word per argument token, when no token holds a space. */
  lemma WordCountOfJoin(words: seq<string>)
    requires |words| > 0
    requires forall k :: 0 <= k < |words| ==> ' ' !in words[k]
    ensures WordCount(Join(words)) == |words|
  {
    WordCountIsFields(Join(words));
    FieldsOfJoin(words);
  }
}
