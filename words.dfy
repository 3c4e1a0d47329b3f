/** The word count used by the typing-speed display: the typed text is
    trimmed of surrounding white space and split on single spaces, and the
    number of pieces is the number of words. */
module Words {

  /** The characters that JavaScript's `trim` removes: the white-space and
      line-terminator characters of ECMAScript. */
  predicate IsTrimmable(c: char)
  {
    c == ' ' || c == '\t' || c == '\n' || c == '\r' || c == '\U{000B}' || c == '\U{000C}'
    || c == '\U{00A0}' || c == '\U{1680}' || ('\U{2000}' <= c <= '\U{200A}')
    || c == '\U{2028}' || c == '\U{2029}' || c == '\U{202F}' || c == '\U{205F}'
    || c == '\U{3000}' || c == '\U{FEFF}'
  }

  /** `s` with its leading trimmable characters removed: a suffix of `s` that
      does not start with one, and everything dropped is trimmable. */
  function TrimStart(s: string): (r: string)
    ensures |r| <= |s| && r == s[|s| - |r|..]
    ensures r == [] || !IsTrimmable(r[0])
    ensures forall i :: 0 <= i < |s| - |r| ==> IsTrimmable(s[i])
  {
    if |s| > 0 && IsTrimmable(s[0]) then TrimStart(s[1..]) else s
  }

  /** `s` with its trailing trimmable characters removed: a prefix of `s` that
      does not end with one, and everything dropped is trimmable. */
  function TrimEnd(s: string): (r: string)
    ensures |r| <= |s| && r == s[..|r|]
    ensures r == [] || !IsTrimmable(r[|r| - 1])
    ensures forall i :: |r| <= i < |s| ==> IsTrimmable(s[i])
  {
    if |s| > 0 && IsTrimmable(s[|s| - 1]) then TrimEnd(s[..|s| - 1]) else s
  }

  /** JavaScript's `String.prototype.trim`. The result is no longer than
      `s` and neither starts nor ends with a trimmable character; it is empty
      exactly when `s` is blank, and text already free of surrounding white
      space comes back unchanged. */
  function Trim(s: string): (r: string)
    ensures |r| <= |s|
    ensures r == [] || (!IsTrimmable(r[0]) && !IsTrimmable(r[|r| - 1]))
    ensures r == [] <==> forall i :: 0 <= i < |s| ==> IsTrimmable(s[i])
    ensures |s| > 0 && !IsTrimmable(s[0]) && !IsTrimmable(s[|s| - 1]) ==> r == s
  {
    var t := TrimStart(s);
    assert t != [] ==> t[0] == s[|s| - |t|];
    TrimEnd(t)
  }

  /** The number of space characters in `s`. */
  function SpaceCount(s: string): (n: nat)
    ensures n <= |s|
  {
    if s == [] then 0 else SpaceCount(s[1..]) + (if s[0] == ' ' then 1 else 0)
  }

  /** `input.trim().split(' ').length`: splitting on a separator always yields
      one more piece than there are separators, so even the empty text has one
      word. */
  function WordCount(input: string): (n: nat)
    ensures n >= 1
  {
    1 + SpaceCount(Trim(input))
  }

  lemma {:induction false} SpaceCountAppend(a: string, b: string)
    ensures SpaceCount(a + b) == SpaceCount(a) + SpaceCount(b)
  {
    if a != [] {
      assert (a + b)[1..] == a[1..] + b;
      SpaceCountAppend(a[1..], b);
    } else {
      assert a + b == b;
    }
  }

  /** A text made only of white space, the empty text included, counts as
      one word. */
  lemma BlankIsOneWord(input: string)
    requires forall i :: 0 <= i < |input| ==> IsTrimmable(input[i])
    ensures WordCount(input) == 1
  {
  }

  /** Words joined by single spaces. */
  function Join(words: seq<string>): string
    requires |words| > 0
  {
    if |words| == 1 then words[0] else words[0] + " " + Join(words[1..])
  }

  /** A word in the sense of the splitting rule: non-empty and free of white
      space. */
  predicate IsWord(w: string)
  {
    |w| > 0 && forall i :: 0 <= i < |w| ==> !IsTrimmable(w[i])
  }

  /** A sentence made of `n` words separated by single spaces counts `n` words. */
  lemma CountsJoinedWords(words: seq<string>)
    requires |words| > 0
    requires forall j :: 0 <= j < |words| ==> IsWord(words[j])
    ensures WordCount(Join(words)) == |words|
  {
    var s := Join(words);
    JoinShape(words);
    assert TrimStart(s) == s;
    assert TrimEnd(s) == s;
    JoinSpaces(words);
  }

  /** A joined text starts and ends with a word character. */
  lemma {:induction false} JoinShape(words: seq<string>)
    requires |words| > 0
    requires forall j :: 0 <= j < |words| ==> IsWord(words[j])
    ensures |Join(words)| > 0
    ensures !IsTrimmable(Join(words)[0]) && !IsTrimmable(Join(words)[|Join(words)| - 1])
  {
    if |words| > 1 {
      JoinShape(words[1..]);
      assert words[0][0] == Join(words)[0];
    }
  }

  /** A joined text holds exactly one space between consecutive words. */
  lemma {:induction false} JoinSpaces(words: seq<string>)
    requires |words| > 0
    requires forall j :: 0 <= j < |words| ==> IsWord(words[j])
    ensures SpaceCount(Join(words)) == |words| - 1
  {
    NoSpaceInWord(words[0]);
    if |words| > 1 {
      JoinSpaces(words[1..]);
      SpaceCountAppend(words[0] + " ", Join(words[1..]));
      SpaceCountAppend(words[0], " ");
    }
  }

  lemma {:induction false} NoSpaceInWord(w: string)
    requires forall i :: 0 <= i < |w| ==> !IsTrimmable(w[i])
    ensures SpaceCount(w) == 0
  {
    if w != [] {
      NoSpaceInWord(w[1..]);
    }
  }
}
