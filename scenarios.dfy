/** Whole sessions driven through the controller's events, and what the user
    sees at their end. */
module Scenarios {
  import opened Catalog
  import opened Scoring
  import opened Session

  /** The positions `lo`, `lo + 1`, ..., `hi - 1`. */
  function Range(lo: nat, hi: nat): (r: seq<nat>)
    requires lo <= hi
    ensures |r| == hi - lo
    ensures forall i :: 0 <= i < |r| ==> r[i] == lo + i
    decreases hi - lo
  {
    if lo == hi then [] else [lo] + Range(lo + 1, hi)
  }

  /** Typing the first `p` characters right and the next ones all wrong lists
      exactly the wrong ones as mismatches, in order. */
  method WrongTailMismatches(sentence: string, typed: string, p: nat) returns (r: seq<nat>)
    requires p <= |typed| <= |sentence|
    requires typed[..p] == sentence[..p]
    requires forall i :: p <= i < |typed| ==> typed[i] != sentence[i]
    ensures r == Range(p, |typed|)
  {
    r := MismatchIndexes(typed, sentence);
    var expected := Range(p, |typed|);
    forall k
      ensures k in r <==> k in expected
    {
      if 0 <= k < p {
        assert typed[k] == typed[..p][k] && sentence[k] == sentence[..p][k];
      }
      if p <= k < |typed| {
        assert expected[k - p] == k;
      }
    }
    IncreasingUnique(r, expected);
  }

  /** On the Easy tier, typing the sentence one character at a time completes
      the session with accuracy 100 and stops the field from accepting more. */
  method TypeEasySentence(now: nat) returns (s: TypingSession)
    ensures s.isCompleted && s.accuracy == Percent(100)
    ensures s.difficulty == Easy && s.input == s.sentence
    ensures s.incorrectIndexes == []
  {
    s := new TypingSession.Mount(0);
    s.ChangeDifficulty(Easy, 0);
    var target := s.sentence;
    assert |target| > 1 by {
      assert target == EasyFirst;
    }
    var k := 1;
    while k <= |target|
      invariant 1 <= k <= |target| + 1
      invariant s.Valid() && s.sentence == target && s.difficulty == Easy
      invariant s.input == target[..k - 1]
      invariant s.isCompleted <==> k == |target| + 1
      invariant k == |target| + 1 ==> s.accuracy == Percent(100)
      invariant Increasing(s.incorrectIndexes)
      invariant forall x :: x in s.incorrectIndexes <==> IsMismatch(s.input, target, x)
    {
      if k == |target| {
        PrefixScoresFull(target[..k - 1], target);
        assert target[..k] == target;
      }
      s.HandleInputChange(target[..k], now);
      k := k + 1;
    }
    assert target[..|target|] == target;
    IncreasingUnique(s.incorrectIndexes, []);
  }

  /** Pasting the whole sentence into the empty field completes the session,
      but the accuracy is computed over the text before the paste, which is
      empty: it is NaN, not 100. */
  method PasteWholeSentence(now: nat) returns (s: TypingSession)
    ensures s.isCompleted && s.input == s.sentence
    ensures s.accuracy == NotANumber
  {
    s := new TypingSession.Mount(1);
    s.HandleInputChange(s.sentence, now);
  }

  /** Correcting a typo with the last keystroke completes the session, but the
      accuracy still counts the typo, because it is computed over the text
      before that keystroke: below 100 although the final text is exact. */
  method FixTypoLast(now: nat) returns (s: TypingSession)
    ensures s.isCompleted && s.input == s.sentence
    ensures s.accuracy.Percent? && s.accuracy.value < 100
  {
    s := new TypingSession.Mount(0);
    var target := s.sentence;
    var wrong := if target[0] == 'X' then 'Y' else 'X';
    var typo := [wrong] + target[1..];
    assert typo != target by {
      assert typo[0] != target[0];
    }
    s.HandleInputChange(typo, now);
    assert !IsMatch(typo, target, 0);
    s.HandleInputChange(target, now);
  }

  /** After a keystroke starts the countdown and the field is cleared again,
      letting the time run out completes the session with the counter at 0
      and, since nothing is left in the field, an accuracy of NaN. */
  method TimeOutOnEmptyField(now: nat) returns (s: TypingSession)
    requires now > 0
    ensures s.isCompleted && s.remainingTime == 0 && s.input == []
    ensures s.accuracy == NotANumber
  {
    s := new TypingSession.Mount(0);
    s.HandleInputChange("T", now);
    s.HandleInputChange("", now);
    while s.remainingTime > 0
      invariant s.Valid() && s.startTime == now && !s.isCompleted && s.input == []
      decreases s.remainingTime
    {
      s.Tick(now);
    }
    s.Tick(now);
  }
}
