/** The mood cloud: a coloured blob for each of the latest twenty entries. */
module AppCloud {
  import opened Prelude
  import opened Types
  import opened Constants
  import opened AppMood

  /** One blob: the entry's id, its colour, its feeling and the score the colour was taken from. */
  datatype CloudItem = CloudItem(id: string, color: string, feeling: string, score: int)

  /** `e.moodScore || 50`, as the cloud reads the score: both a missing score and a score of 0 read as 50. */
  function ScoreOrAsWritten(s: Option<int>): (score: int)
    ensures s.Some? && s.value != 0 ==> score == s.value
    ensures s.None? || s.value == 0 ==> score == 50
  {
    if s.None? || s.value == 0 then 50 else s.value
  }

  /** `e.moodScore ?? 50`, as the history list reads the score: only a missing score reads as 50. */
  function ScoreOr(s: Option<int>): (score: int)
    ensures s.Some? ==> score == s.value
    ensures s.None? ==> score == 50
  {
    s.GetOr(50)
  }

  /** The blobs for the latest (first) twenty entries, reading scores with `scoreOf`. */
  function CloudItemsWith(entries: seq<Entry>, scoreOf: Option<int> -> int): (items: seq<CloudItem>)
    ensures |items| == if |entries| < 20 then |entries| else 20
    ensures forall i :: 0 <= i < |items| ==>
      && items[i].id == entries[i].id && items[i].feeling == entries[i].content.feeling
      && items[i].score == scoreOf(entries[i].moodScore)
      && items[i].color == MoodColorHex(items[i].score)
  {
    var n := if |entries| < 20 then |entries| else 20;
    seq(n, i requires 0 <= i < n => CloudItem(entries[i].id, MoodColorHex(scoreOf(entries[i].moodScore)),
                                              entries[i].content.feeling, scoreOf(entries[i].moodScore)))
  }

  /** The cloud as the application draws it. */
  function CloudItemsAsWritten(entries: seq<Entry>): seq<CloudItem> {
    CloudItemsWith(entries, ScoreOrAsWritten)
  }

  /** The cloud with the score read as everywhere else in the application. */
  function CloudItems(entries: seq<Entry>): seq<CloudItem> {
    CloudItemsWith(entries, ScoreOr)
  }

  /** An entry as the writing form saves it: a score and the mood label of that score. */
  predicate SavedWithScore(e: Entry) {
    e.moodScore.Some? && e.mood == MoodLabel(e.moodScore.value)
  }

  /**
   * Every blob of a saved entry takes the colour band of the entry's own
   * mood: blue for sad, teal or emerald for calm, amber for happy.
   */
  lemma CloudAgreesWithMood(entries: seq<Entry>, i: int)
    requires 0 <= i < |entries| && i < 20 && SavedWithScore(entries[i])
    ensures CloudItems(entries)[i].score == entries[i].moodScore.value
    ensures entries[i].mood == Sad <==> CloudItems(entries)[i].color in {Blue500, Blue400}
    ensures entries[i].mood == CalmMood <==> CloudItems(entries)[i].color in {Teal400, Emerald400}
    ensures entries[i].mood == Happy <==> CloudItems(entries)[i].color in {Amber400, Amber300}
  {
    ColoursAgreeWithMood(entries[i].moodScore.value);
  }

  /**
   * The cloud as drawn gives an entry saved with the slider at 0 (mood "sad")
   * the teal calm colour and a score of 50; read with `?? 50` it is blue and 0.
   */
  lemma ZeroScoreDrawnAsCalm(e: Entry)
    requires e.moodScore == Some(0) && e.mood == MoodLabel(0)
    ensures e.mood == Sad
    ensures CloudItemsAsWritten([e])[0].score == 50 && CloudItemsAsWritten([e])[0].color == Teal400
    ensures MoodLabel(CloudItemsAsWritten([e])[0].score) != e.mood
    ensures CloudItems([e])[0].score == 0 && CloudItems([e])[0].color == Blue500
  {
    MoodColorHexBands(50);
    MoodColorHexBands(0);
  }

  /** The two readings differ only on a score of exactly 0. */
  lemma ReadingsDifferOnlyAtZero(s: Option<int>)
    ensures ScoreOrAsWritten(s) != ScoreOr(s) <==> s == Some(0)
  {
  }
}
