/** The difficulty catalog of the typing test: a fixed table from tier to the
    practice sentences of that tier and its countdown length in seconds. */
module Catalog {

  /** The three tiers offered by the difficulty selector. */
  datatype Tier = Easy | Medium | Hard

  /** What a tier holds: its candidate sentences and its time limit. */
  datatype Level = Level(sentences: seq<string>, time: nat)

  const EasyFirst: string := "This is an easy sentence for typing practice."
  const EasySecond: string := "Typing is fun and easy when you practice rgit egularly."
  const MediumFirst: string := "Medium-level @ sentences are % a good challenge > for typing practice."
  const MediumSecond: string := "Typing accurately + and quickly O takes practice & and dedication."
  const HardFirst: string := "(Hard senten!ces test *your t-yping skil[ls to the limit."
  const HardSecond: string := "Improving%% you#r typing spe^ed is a rew@arding exp()erience."

  /** The countdown length shared by every tier. */
  const TimeLimit: nat := 30

  /** The catalog entry of tier `t`. Every tier has at least one sentence,
      every sentence is non-empty, and every tier runs for `TimeLimit` seconds. */
  function LevelOf(t: Tier): (l: Level)
    ensures |l.sentences| > 0
    ensures forall i :: 0 <= i < |l.sentences| ==> |l.sentences[i]| > 0
    ensures l.time == TimeLimit && l.time > 0
  {
    match t
    case Easy => Level([EasyFirst, EasySecond], TimeLimit)
    case Medium => Level([MediumFirst, MediumSecond], TimeLimit)
    case Hard => Level([HardFirst, HardSecond], TimeLimit)
  }

  /** The sentence picked for tier `t` when the random draw gives `idx`
      (the source draws `idx` uniformly below the number of sentences). */
  function PickSentence(t: Tier, idx: nat): (s: string)
    requires idx < |LevelOf(t).sentences|
    ensures s in LevelOf(t).sentences
    ensures |s| > 0
  {
    LevelOf(t).sentences[idx]
  }
}
