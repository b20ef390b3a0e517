/** The records the diary stores: a diary entry and the singleton settings record. */
module Types {
  import opened Prelude

  /** The three free-text parts of an entry. */
  datatype Content = Content(event: string, feeling: string, evidence: string)

  /**
   * A stored diary entry. Fields that older or imported records may lack are optional:
   * `timestamp` (a record without a numeric timestamp is stored but left out of the
   * timestamp index) and `moodScore` (records written before the score existed).
   */
  datatype Entry = Entry(
    id: string,
    timestamp: Option<int>,
    date: string,
    title: string,
    content: Content,
    image: Option<string>,
    tags: seq<string>,
    mood: string,
    moodScore: Option<int>,
    aiResponse: Option<string>,
    favorite: Option<bool>)

  /** What the writing form hands over on save: an entry without id, timestamp, date and response. */
  datatype Draft = Draft(
    title: string,
    content: Content,
    tags: seq<string>,
    mood: string,
    moodScore: int,
    image: Option<string>)

  /** A user-defined mood descriptor (its `label` field is `moodLabel` here), stored but not interpreted. */
  datatype CustomMood = CustomMood(id: string, moodLabel: string, color: string, iconName: string)

  /** The settings record; `lastBackupDate` is an instant in milliseconds. */
  datatype Settings = Settings(
    darkMode: bool,
    userName: string,
    reminderEnabled: bool,
    reminderTime: string,
    customMoods: seq<CustomMood>,
    customTags: seq<string>,
    lastBackupDate: int)
}
