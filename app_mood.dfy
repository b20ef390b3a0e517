/** The banding of a 0..100 mood score into the coarse mood and the default feeling word. */
module AppMood {
  import opened Constants

  const Sad := "sad"
  const CalmMood := "calm"
  const Happy := "happy"

  /** The coarse mood stored with an entry, derived from its score. */
  function MoodLabel(score: int): (mood: string)
    ensures mood in {Sad, CalmMood, Happy}
  {
    if score <= 35 then Sad
    else if score <= 65 then CalmMood
    else Happy
  }

  /** The feeling word used when the writer leaves the feeling blank. */
  function DefaultFeeling(score: int): (word: string)
    ensures word in {"低落", "平静", "开心"}
  {
    if score <= 35 then "低落"
    else if score <= 65 then "平静"
    else "开心"
  }

  /** The three moods split the scale at 35 and 65, both bounds inclusive below. */
  lemma MoodLabelBands(score: int)
    ensures MoodLabel(score) == Sad <==> score <= 35
    ensures MoodLabel(score) == CalmMood <==> 35 < score <= 65
    ensures MoodLabel(score) == Happy <==> 65 < score
  {
  }

  /** The default feeling word follows the mood label, one word per mood. */
  lemma DefaultFeelingFollowsMood(score: int)
    ensures DefaultFeeling(score) == "低落" <==> MoodLabel(score) == Sad
    ensures DefaultFeeling(score) == "平静" <==> MoodLabel(score) == CalmMood
    ensures DefaultFeeling(score) == "开心" <==> MoodLabel(score) == Happy
  {
  }

  /** The colours agree with the mood: sad scores are blue, calm ones teal or emerald, happy ones amber. */
  lemma ColoursAgreeWithMood(score: int)
    ensures MoodLabel(score) == Sad <==> MoodColorHex(score) in {Blue500, Blue400}
    ensures MoodLabel(score) == Sad <==> MoodColorClass(score) == BlueClass
    ensures MoodLabel(score) == CalmMood <==> MoodColorHex(score) in {Teal400, Emerald400}
    ensures MoodLabel(score) == CalmMood <==> MoodColorClass(score) == TealClass
    ensures MoodLabel(score) == Happy <==> MoodColorHex(score) in {Amber400, Amber300}
    ensures MoodLabel(score) == Happy <==> MoodColorClass(score) == AmberClass
  {
  }

  /** Three days in milliseconds. */
  const BackupInterval := 3 * 24 * 60 * 60 * 1000

  /** The backup reminder is due once more than three days have passed since the last export. */
  predicate BackupOverdue(now: int, lastBackup: int) {
    now - lastBackup > BackupInterval
  }

  /** Once due, the reminder stays due as time passes; an export at `now` clears it. */
  lemma BackupOverdueMonotone(now: int, later: int, lastBackup: int)
    requires now <= later
    ensures BackupOverdue(now, lastBackup) ==> BackupOverdue(later, lastBackup)
    ensures !BackupOverdue(now, now)
    ensures BackupOverdue(lastBackup + 259200001, lastBackup) && !BackupOverdue(lastBackup + 259200000, lastBackup)
  {
  }
}
