/** The typing-session controller: the component's state and the event
    handlers and effects that change it. Each handler or effect run is one
    atomic method call; the clock reading and the random sentence draw are
    parameters (`now`, `idx`). */
module Session {
  import opened Catalog
  import opened Scoring

  class TypingSession {
    // The component's state, one field per state hook.
    var sentence: string
    var input: string
    var incorrectIndexes: seq<nat>
    var accuracy: Accuracy
    var startTime: nat
    var endTime: nat
    var isCompleted: bool
    var remainingTime: int
    var difficulty: Tier

    /** What every event keeps true: the sentence comes from the current
        tier, the countdown stays between 0 and the tier's limit and does not
        move before the first keystroke, and the end time and the accuracy
        stay at their reset values until the session completes. */
    ghost predicate Valid()
      reads this
    {
      && sentence in LevelOf(difficulty).sentences
      && 0 <= remainingTime <= LevelOf(difficulty).time
      && (startTime == 0 ==> remainingTime == LevelOf(difficulty).time)
      && (!isCompleted ==> endTime == 0 && accuracy == Percent(0))
    }

    /** The class each sentence character is rendered with right now: one per
        sentence character, `Incorrect` exactly where the typed text differs
        from the sentence, and `Next` only at the first untyped position. */
    function Rendered(): (cs: seq<CharClass>)
      reads this
      ensures |cs| == |sentence|
      ensures forall i :: 0 <= i < |cs| ==> (cs[i] == Incorrect <==> IsMismatch(input, sentence, i))
      ensures forall i :: 0 <= i < |cs| ==> (cs[i] == Next <==> i == |input|)
    {
      Classes(sentence, input)
    }

    /** Mounting the component: the initial state values, then the first run
        of the difficulty effect, which picks a sentence of the initial tier
        and sets the countdown to that tier's limit. */
    constructor Mount(idx: nat)
      requires idx < |LevelOf(Medium).sentences|
      ensures Valid()
      ensures difficulty == Medium && sentence == PickSentence(Medium, idx)
      ensures input == [] && incorrectIndexes == [] && accuracy == Percent(0)
      ensures startTime == 0 && endTime == 0 && !isCompleted
      ensures remainingTime == LevelOf(Medium).time
    {
      sentence := "";
      input := "";
      incorrectIndexes := [];
      accuracy := Percent(0);
      startTime := 0;
      endTime := 0;
      isCompleted := false;
      remainingTime := 60;
      difficulty := Medium;
      new;
      DifficultyEffect(idx);
    }

    /** Picks the sentence of the current tier that the random draw `idx`
        selects. */
    method GenerateSentence(idx: nat)
      requires idx < |LevelOf(difficulty).sentences|
      modifies this`sentence
      ensures sentence == PickSentence(difficulty, idx)
    {
      sentence := LevelOf(difficulty).sentences[idx];
    }

    /** One run of the difficulty effect: a new sentence of the current tier
        and a full countdown. Nothing else is reset. */
    method DifficultyEffect(idx: nat)
      requires idx < |LevelOf(difficulty).sentences|
      modifies this`sentence, this`remainingTime
      ensures sentence == PickSentence(difficulty, idx)
      ensures remainingTime == LevelOf(difficulty).time
    {
      GenerateSentence(idx);
      remainingTime := LevelOf(difficulty).time;
    }

    /** Selecting tier `t`. The effect runs only when the tier really
        changes; it leaves the typed text, the mismatch list, the timestamps,
        the accuracy and the completion flag as they were. */
    method ChangeDifficulty(t: Tier, idx: nat)
      requires Valid()
      requires idx < |LevelOf(t).sentences|
      modifies this
      ensures Valid()
      ensures difficulty == t
      ensures t != old(difficulty) ==> sentence == PickSentence(t, idx) && remainingTime == LevelOf(t).time
      ensures t == old(difficulty) ==> sentence == old(sentence) && remainingTime == old(remainingTime)
      ensures input == old(input) && incorrectIndexes == old(incorrectIndexes)
      ensures accuracy == old(accuracy) && isCompleted == old(isCompleted)
      ensures startTime == old(startTime) && endTime == old(endTime)
    {
      if t != difficulty {
        difficulty := t;
        DifficultyEffect(idx);
      }
    }

    /** The completion handler: records the end time, marks the session
        completed and scores `seen`, the typed text its caller can see. */
    method HandleTypingCompleted(seen: string, now: nat)
      requires Valid()
      modifies this`endTime, this`isCompleted, this`accuracy
      ensures Valid()
      ensures endTime == now && isCompleted
      ensures accuracy == AccuracyOf(seen, sentence)
      ensures accuracy == Percent(100) <==> |seen| > 0 && forall k :: 0 <= k < |seen| ==> IsMatch(seen, sentence, k)
    {
      endTime := now;
      isCompleted := true;
      accuracy := AccuracyOf(seen, sentence);
    }

    /** A change of the text field to `value` at time `now`. The first
        keystroke of a session records the start time; the mismatch list is
        rebuilt; typing the sentence exactly completes the session. The
        completion scores the text that was in the field BEFORE this change:
        the handler's state is the one of the render it belongs to. The field
        is disabled once the session is completed, so it is never called
        then. */
    method HandleInputChange(value: string, now: nat)
      requires Valid() && !isCompleted
      modifies this
      ensures Valid()
      ensures startTime == if old(startTime) == 0 then now else old(startTime)
      ensures input == value
      ensures Increasing(incorrectIndexes)
      ensures forall k :: k in incorrectIndexes <==> IsMismatch(value, sentence, k)
      ensures forall i :: 0 <= i < |sentence| ==> (Rendered()[i] == Incorrect <==> i in incorrectIndexes)
      ensures isCompleted <==> value == sentence
      ensures endTime == if value == sentence then now else old(endTime)
      ensures accuracy == if value == sentence then AccuracyOf(old(input), sentence) else old(accuracy)
      ensures sentence == old(sentence) && difficulty == old(difficulty)
      ensures remainingTime == old(remainingTime)
    {
      var seen := input;
      if startTime == 0 {
        startTime := now;
      }
      input := value;
      incorrectIndexes := MismatchIndexes(value, sentence);
      forall i | 0 <= i < |sentence|
        ensures Rendered()[i] == Incorrect <==> i in incorrectIndexes
      {
        ClassesAgree(sentence, input, i);
      }
      if value == sentence {
        HandleTypingCompleted(seen, now);
      }
    }

    /** The countdown guard: started, not completed, time left. */
    predicate Running()
      reads this
    {
      startTime != 0 && !isCompleted && remainingTime > 0
    }

    /** One run of the countdown effect at time `now`, together with the
        one-second timeout it schedules: while running, the counter goes down
        by one; at 0, a session not yet completed completes and is scored on
        the current text. A completed session no longer changes. */
    method Tick(now: nat)
      requires Valid()
      modifies this
      ensures Valid()
      ensures remainingTime == if old(Running()) then old(remainingTime) - 1 else old(remainingTime)
      ensures isCompleted <==> old(isCompleted) || old(remainingTime) == 0
      ensures endTime == if !old(isCompleted) && old(remainingTime) == 0 then now else old(endTime)
      ensures accuracy == if !old(isCompleted) && old(remainingTime) == 0 then AccuracyOf(input, sentence) else old(accuracy)
      ensures input == old(input) && sentence == old(sentence) && incorrectIndexes == old(incorrectIndexes)
      ensures startTime == old(startTime) && difficulty == old(difficulty)
      ensures old(isCompleted) ==> unchanged(this)
    {
      if startTime != 0 && !isCompleted && remainingTime > 0 {
        remainingTime := remainingTime - 1;
      } else if remainingTime == 0 && !isCompleted {
        HandleTypingCompleted(input, now);
      }
    }

    /** The restart button: a new sentence of the current tier and every
        other field back to its initial value. */
    method RestartTest(idx: nat)
      requires Valid()
      requires idx < |LevelOf(difficulty).sentences|
      modifies this
      ensures Valid()
      ensures sentence == PickSentence(difficulty, idx)
      ensures input == [] && incorrectIndexes == [] && accuracy == Percent(0)
      ensures startTime == 0 && endTime == 0 && !isCompleted
      ensures remainingTime == LevelOf(difficulty).time
      ensures difficulty == old(difficulty)
    {
      GenerateSentence(idx);
      input := "";
      incorrectIndexes := [];
      accuracy := Percent(0);
      startTime := 0;
      endTime := 0;
      isCompleted := false;
      remainingTime := LevelOf(difficulty).time;
    }
  }

  /** In a valid state, a running countdown can take one more step without
      going below 0; and a session that is neither running nor completed but
      still has time left has not started, so it has its tier's full time. */
  lemma RunningFacts(s: TypingSession)
    requires s.Valid()
    ensures s.Running() ==> s.remainingTime - 1 >= 0
    ensures !s.Running() && !s.isCompleted && s.remainingTime > 0 ==>
      s.startTime == 0 && s.remainingTime == LevelOf(s.difficulty).time
  {
  }
}
