/** What the typing test computes from the typed text and the target sentence:
    the list of mismatching positions, the accuracy shown at the end, and the
    class each sentence character is rendered with. */
module Scoring {

  /** The accuracy figure shown after completion. The source divides by the
      length of the typed text, which gives NaN when nothing was typed. */
  datatype Accuracy = Percent(value: nat) | NotANumber

  /** Position `k` is typed and differs from the sentence there. */
  predicate IsMismatch(typed: string, sentence: string, k: int)
  {
    0 <= k < |typed| && k < |sentence| && typed[k] != sentence[k]
  }

  /** Position `k` is typed and agrees with the sentence there (a position past
      the end of the sentence never agrees: it compares against `undefined`). */
  predicate IsMatch(typed: string, sentence: string, k: int)
  {
    0 <= k < |typed| && k < |sentence| && typed[k] == sentence[k]
  }

  predicate Increasing(xs: seq<nat>)
  {
    forall i, j :: 0 <= i < j < |xs| ==> xs[i] < xs[j]
  }

  /** The mismatch scan of the input handler: walks the positions both texts
      have and collects, in order, every position where they differ. */
  method MismatchIndexes(typed: string, sentence: string) returns (r: seq<nat>)
    ensures Increasing(r)
    ensures forall k :: k in r <==> IsMismatch(typed, sentence, k)
  {
    r := [];
    var i := 0;
    while i < |typed| && i < |sentence|
      invariant 0 <= i <= |typed| && i <= |sentence|
      invariant Increasing(r)
      invariant forall j :: 0 <= j < |r| ==> r[j] < i
      invariant forall k :: k in r <==> (k < i && IsMismatch(typed, sentence, k))
    {
      if typed[i] != sentence[i] {
        r := r + [i];
      }
      i := i + 1;
    }
  }

  lemma HeadIsElement(xs: seq<nat>)
    ensures xs != [] ==> xs[0] in xs
  {
  }

  /** Two increasing lists with the same elements are the same list, so the
      contract of `MismatchIndexes` fixes its result completely. */
  lemma {:induction false} IncreasingUnique(a: seq<nat>, b: seq<nat>)
    requires Increasing(a) && Increasing(b)
    requires forall k :: k in a <==> k in b
    ensures a == b
  {
    if a == [] || b == [] {
      // A first element of either list would be an element of the other.
      HeadIsElement(a);
      HeadIsElement(b);
    } else {
      assert a[0] == b[0] by {
        assert a[0] in b;
        assert b[0] in a;
      }
      forall k
        ensures k in a[1..] <==> k in b[1..]
      {
        assert k in a[1..] <==> k in a && k != a[0];
        assert k in b[1..] <==> k in b && k != b[0];
      }
      IncreasingUnique(a[1..], b[1..]);
      assert a == [a[0]] + a[1..] && b == [b[0]] + b[1..];
    }
  }

  /** The number of typed characters that agree with the sentence at their
      own position, counted over the first `n` typed characters. */
  function MatchesBelow(typed: string, sentence: string, n: nat): (c: nat)
    requires n <= |typed|
    ensures c <= n
  {
    if n == 0 then 0
    else MatchesBelow(typed, sentence, n - 1) + (if IsMatch(typed, sentence, n - 1) then 1 else 0)
  }

  /** The number of correct characters in the accuracy formula: at most the
      number of typed characters, and all of them exactly when each one
      agrees with the sentence at its position. */
  function CorrectCount(typed: string, sentence: string): (c: nat)
    ensures c <= |typed|
    ensures c == |typed| <==> forall k :: 0 <= k < |typed| ==> IsMatch(typed, sentence, k)
  {
    MatchesBelowFull(typed, sentence, |typed|);
    MatchesBelow(typed, sentence, |typed|)
  }

  /** All of the first `n` typed characters agree with the sentence exactly
      when all `n` of them are counted. */
  lemma {:induction false} MatchesBelowFull(typed: string, sentence: string, n: nat)
    requires n <= |typed|
    ensures MatchesBelow(typed, sentence, n) == n <==> forall k :: 0 <= k < n ==> IsMatch(typed, sentence, k)
  {
    if n > 0 {
      MatchesBelowFull(typed, sentence, n - 1);
    }
  }

  /** Floor of `100 * c / n` reaches 100 only when `c` reaches `n`. */
  lemma PercentTop(c: nat, n: nat)
    requires 0 < n && c <= n
    ensures (100 * c) / n <= 100
    ensures (100 * c) / n == 100 <==> c == n
  {
  }

  /** The accuracy of `typed` against `sentence`: the share of typed characters
      that are correct, as a whole percentage rounded down; NaN when nothing
      was typed. It is 100 exactly when every typed character is correct. */
  function AccuracyOf(typed: string, sentence: string): (a: Accuracy)
    ensures a.NotANumber? <==> |typed| == 0
    ensures a.Percent? ==> a.value <= 100
    ensures a == Percent(100) <==> |typed| > 0 && forall k :: 0 <= k < |typed| ==> IsMatch(typed, sentence, k)
  {
    if |typed| == 0 then NotANumber
    else
      var c := CorrectCount(typed, sentence);
      PercentTop(c, |typed|);
      Percent((100 * c) / |typed|)
  }

  /** Typing the whole sentence, or any non-empty part of its beginning,
      scores 100. */
  lemma PrefixScoresFull(typed: string, sentence: string)
    requires 0 < |typed| <= |sentence| && typed == sentence[..|typed|]
    ensures AccuracyOf(typed, sentence) == Percent(100)
  {
  }

  /** The style class of one rendered sentence character. `Unstyled` is the
      empty class name. */
  datatype CharClass = Correct | Incorrect | Next | Unstyled

  /** The class of sentence character `index` while `typed` is in the field. */
  function ClassOf(sentence: string, typed: string, index: nat): (c: CharClass)
    requires index < |sentence|
    ensures c == Correct <==> IsMatch(typed, sentence, index)
    ensures c == Incorrect <==> IsMismatch(typed, sentence, index)
    ensures c == Next <==> index == |typed|
    ensures c == Unstyled <==> index > |typed|
  {
    if index < |typed| then
      if sentence[index] == typed[index] then Correct else Incorrect
    else if index == |typed| then Next
    else Unstyled
  }

  /** The classes of the whole sentence, one per character: the typed part
      is split into correct and incorrect characters, the character after it
      is the next one to type, and the rest is unstyled. */
  function Classes(sentence: string, typed: string): (cs: seq<CharClass>)
    ensures |cs| == |sentence|
    ensures forall i :: 0 <= i < |cs| && i < |typed| ==> (cs[i] == Correct || cs[i] == Incorrect)
    ensures forall i :: 0 <= i < |cs| ==> (cs[i] == Incorrect <==> IsMismatch(typed, sentence, i))
    ensures forall i :: 0 <= i < |cs| ==> (cs[i] == Next <==> i == |typed|)
  {
    seq(|sentence|, i requires 0 <= i < |sentence| => ClassOf(sentence, typed, i))
  }

  /** The rendered classes agree with the scoring: a character is shown
      `Correct` exactly where it counts towards accuracy, `Incorrect` exactly
      at the positions the input handler lists as mismatches, and `Next`
      exactly at the first position not yet typed. */
  lemma ClassesAgree(sentence: string, typed: string, i: nat)
    requires i < |sentence|
    ensures Classes(sentence, typed)[i] == Correct <==> IsMatch(typed, sentence, i)
    ensures Classes(sentence, typed)[i] == Incorrect <==> IsMismatch(typed, sentence, i)
    ensures Classes(sentence, typed)[i] == Next <==> i == |typed|
    ensures Classes(sentence, typed)[i] == Unstyled <==> i > |typed|
  {
  }

  /** At most one character carries the `Next` class, and one does exactly
      when the typed text is shorter than the sentence. */
  lemma AtMostOneNext(sentence: string, typed: string)
    ensures forall i, j ::
      (0 <= i < |sentence| && 0 <= j < |sentence| &&
       Classes(sentence, typed)[i] == Next && Classes(sentence, typed)[j] == Next) ==> i == j
    ensures (exists i :: 0 <= i < |sentence| && Classes(sentence, typed)[i] == Next) <==> |typed| < |sentence|
  {
    if |typed| < |sentence| {
      assert Classes(sentence, typed)[|typed|] == Next;
    }
  }
}
