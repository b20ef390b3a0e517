/**
 * The affirmation chosen for a new entry: a pool of candidate strings is
 * assembled from the entry's photo, tags, text and mood, and one is drawn.
 */
module AppResponse {
  import opened Prelude
  import opened Types
  import opened Constants
  import opened JsText
  import opened AppMood

  const SocialWords: seq<string> := ["朋友", "家人", "妈妈", "爸爸", "伴侣", "爱人", "同事", "聚会", "聊天"]
  const AchievementWords: seq<string> := ["工作", "任务", "完成", "成功", "项目", "学习", "考试", "进步"]
  const DistressWords: seq<string> := ["难过", "累", "哭", "失败", "痛苦", "焦虑", "压力", "糟糕"]

  /** The regular expression made of these alternatives matches somewhere in `text`. */
  predicate MatchesAny(text: string, words: seq<string>) {
    exists k :: 0 <= k < |words| && Includes(text, words[k])
  }

  /** The text the keyword tests look at: event and evidence, lower-cased. */
  function ResponseText(d: Draft): string {
    ToLower(d.content.event + " " + d.content.evidence)
  }

  /** The draft carries a photo (a non-empty data URL). */
  predicate HasImage(d: Draft) {
    d.image.Some? && d.image.value != ""
  }

  /** Some tag of the draft is not one of the default tags. */
  predicate HasNewTag(d: Draft) {
    exists k :: 0 <= k < |d.tags| && d.tags[k] !in DefaultTags
  }

  /** The blocks a pool is assembled from, in order. */
  datatype Part = GeneralPart | ImagePart | NewTagPart | SocialPart | AchievementPart | DifficultPart | CalmPart | ExtraPart

  /** The strings of one block: a pool of the affirmation library, or the first five extra affirmations. */
  function Library(p: Part): (xs: seq<string>)
    ensures |xs| == PartSize(p)
  {
    match p
    case GeneralPart => General
    case ImagePart => ImagePool
    case NewTagPart => NewTag
    case SocialPart => Social
    case AchievementPart => Achievement
    case DifficultPart => Difficult
    case CalmPart => Calm
    case ExtraPart => ExtraAffirmations()[..5]
  }

  function PartSize(p: Part): nat {
    match p
    case ImagePart => 5
    case NewTagPart => 4
    case ExtraPart => 5
    case _ => 10
  }

  /** The outcome of each test the pool assembly makes on a draft. */
  datatype Triggers = Triggers(image: bool, newTag: bool, social: bool, achievement: bool, mood: string, distress: bool)

  /** The tests on the draft that decide which blocks join the pool. */
  function TriggersOf(d: Draft): Triggers {
    var text := ResponseText(d);
    Triggers(HasImage(d), HasNewTag(d), MatchesAny(text, SocialWords), MatchesAny(text, AchievementWords),
             d.mood, MatchesAny(text, DistressWords))
  }

  function If(b: bool, p: Part): seq<Part> {
    if b then [p] else []
  }

  /** The mood block: `difficult` for sad, `calm` for calm, otherwise `difficult` only on a distress keyword. */
  function MoodParts(t: Triggers): seq<Part> {
    if t.mood == Sad then [DifficultPart]
    else if t.mood == CalmMood then [CalmPart]
    else If(t.distress, DifficultPart)
  }

  /** The blocks of the pool, in the order they are appended. */
  function PartsOf(t: Triggers): seq<Part> {
    [GeneralPart] + If(t.image, ImagePart) + If(t.newTag, NewTagPart) + If(t.social, SocialPart)
    + If(t.achievement, AchievementPart) + MoodParts(t) + [ExtraPart]
  }

  function Concat(parts: seq<Part>): (pool: seq<string>)
    ensures |pool| == TotalSize(parts)
  {
    if parts == [] then [] else Library(parts[0]) + Concat(parts[1..])
  }

  function TotalSize(parts: seq<Part>): nat {
    if parts == [] then 0 else PartSize(parts[0]) + TotalSize(parts[1..])
  }

  /** The candidate strings for `d`. */
  function ResponsePool(d: Draft): seq<string> {
    PoolOf(TriggersOf(d))
  }

  function PoolOf(t: Triggers): seq<string> {
    Concat(PartsOf(t))
  }

  lemma {:induction false} ConcatAppend(a: seq<Part>, b: seq<Part>)
    ensures Concat(a + b) == Concat(a) + Concat(b)
  {
    if a == [] {
      assert a + b == b;
    } else {
      var ab := a + b;
      assert ab[0] == a[0] && ab[1..] == a[1..] + b;
      ConcatAppend(a[1..], b);
      assert Concat(ab) == Library(a[0]) + Concat(a[1..] + b);
      assert Concat(a) == Library(a[0]) + Concat(a[1..]);
    }
  }

  lemma {:induction false} TotalSizeAppend(a: seq<Part>, b: seq<Part>)
    ensures TotalSize(a + b) == TotalSize(a) + TotalSize(b)
  {
    if a == [] {
      assert a + b == b;
    } else {
      assert (a + b)[1..] == a[1..] + b;
      TotalSizeAppend(a[1..], b);
    }
  }

  /** Each block is included exactly under its condition; sad and calm moods never take the other mood's block. */
  lemma PartsConditions(d: Draft)
    ensures ImagePart in PartsOf(TriggersOf(d)) <==> HasImage(d)
    ensures NewTagPart in PartsOf(TriggersOf(d)) <==> HasNewTag(d)
    ensures SocialPart in PartsOf(TriggersOf(d)) <==> MatchesAny(ResponseText(d), SocialWords)
    ensures AchievementPart in PartsOf(TriggersOf(d)) <==> MatchesAny(ResponseText(d), AchievementWords)
    ensures d.mood == Sad ==> DifficultPart in PartsOf(TriggersOf(d)) && CalmPart !in PartsOf(TriggersOf(d))
    ensures d.mood == CalmMood ==> CalmPart in PartsOf(TriggersOf(d)) && DifficultPart !in PartsOf(TriggersOf(d))
    ensures d.mood != Sad && d.mood != CalmMood ==>
      && CalmPart !in PartsOf(TriggersOf(d))
      && (DifficultPart in PartsOf(TriggersOf(d)) <==> MatchesAny(ResponseText(d), DistressWords))
  {
  }

  /** A pool holds between 15 and 54 strings. */
  lemma {:induction false} PoolSize(t: Triggers)
    ensures 15 <= |PoolOf(t)| <= 54
  {
    PartsSize(t);
  }

  lemma {:induction false} PartsSize(t: Triggers)
    ensures 15 <= TotalSize(PartsOf(t)) <= 54
  {
    var a, b, c, e, f := If(t.image, ImagePart), If(t.newTag, NewTagPart), If(t.social, SocialPart),
                         If(t.achievement, AchievementPart), MoodParts(t);
    assert PartsOf(t) == [GeneralPart] + a + b + c + e + f + [ExtraPart];
    TotalSizeAppend([GeneralPart] + a + b + c + e + f, [ExtraPart]);
    TotalSizeAppend([GeneralPart] + a + b + c + e, f);
    TotalSizeAppend([GeneralPart] + a + b + c, e);
    TotalSizeAppend([GeneralPart] + a + b, c);
    TotalSizeAppend([GeneralPart] + a, b);
    TotalSizeAppend([GeneralPart], a);
    OptionalSize(t.image, ImagePart);
    OptionalSize(t.newTag, NewTagPart);
    OptionalSize(t.social, SocialPart);
    OptionalSize(t.achievement, AchievementPart);
    OptionalSize(t.distress, DifficultPart);
    OptionalSize(true, GeneralPart);
    OptionalSize(true, ExtraPart);
    OptionalSize(true, CalmPart);
    OptionalSize(true, DifficultPart);
  }

  lemma OptionalSize(b: bool, p: Part)
    ensures TotalSize(If(b, p)) == if b then PartSize(p) else 0
    ensures TotalSize([p]) == PartSize(p)
  {
    assert TotalSize([p]) == PartSize(p) + TotalSize([]);
  }

  /** A pool starts with the ten general strings and ends with the first five extra affirmations. */
  lemma {:induction false} PoolEnds(t: Triggers)
    ensures |PoolOf(t)| >= 15
    ensures PoolOf(t)[..10] == General
    ensures PoolOf(t)[|PoolOf(t)| - 5..] == ExtraAffirmations()[..5]
  {
    PoolSize(t);
    var middle := PartsOf(t)[1..|PartsOf(t)| - 1];
    assert PartsOf(t) == [GeneralPart] + middle + [ExtraPart];
    ConcatAppend([GeneralPart] + middle, [ExtraPart]);
    ConcatAppend([GeneralPart], middle);
    var head, mid, tail := Concat([GeneralPart]), Concat(middle), Concat([ExtraPart]);
    assert head == Library(GeneralPart) + Concat([]);
    assert tail == Library(ExtraPart) + Concat([]);
    assert PoolOf(t) == head + mid + tail;
  }

  /** `Math.floor(random * n)`: the index drawn from a pool of `n` strings. */
  function PickIndex(random: real, n: nat): (i: int)
    requires 0.0 <= random < 1.0 && n > 0
    ensures 0 <= i < n
  {
    var x := random * n as real;
    assert 0.0 <= x < n as real;
    x.Floor
  }

  /**
   * Builds the pool block by block and draws from it with `random`, a number
   * in [0, 1). The result is always one of the candidate strings.
   */
  method GenerateResponse(d: Draft, random: real) returns (response: string)
    requires 0.0 <= random < 1.0
    ensures response in ResponsePool(d)
    ensures |ResponsePool(d)| > 0 && response == ResponsePool(d)[PickIndex(random, |ResponsePool(d)|)]
  {
    var t := TriggersOf(d);
    var pool := AssemblePool(t);
    PoolSize(t);
    response := pool[PickIndex(random, |pool|)];
  }

  /** Pushes the blocks onto an empty pool in order; the sad and calm moods skip the distress test. */
  method AssemblePool(t: Triggers) returns (pool: seq<string>)
    ensures pool == PoolOf(t)
  {
    // `parts` names the blocks appended so far; `pool` is always their concatenation.
    ghost var parts: seq<Part> := [GeneralPart];
    pool := Library(GeneralPart);
    Single(GeneralPart);
    pool := AddBlock(pool, parts, t.image, ImagePart);
    parts := parts + If(t.image, ImagePart);
    pool := AddBlock(pool, parts, t.newTag, NewTagPart);
    parts := parts + If(t.newTag, NewTagPart);
    pool := AddBlock(pool, parts, t.social, SocialPart);
    parts := parts + If(t.social, SocialPart);
    pool := AddBlock(pool, parts, t.achievement, AchievementPart);
    parts := parts + If(t.achievement, AchievementPart);
    if t.mood == Sad {
      pool := AddBlock(pool, parts, true, DifficultPart);
    } else if t.mood == CalmMood {
      pool := AddBlock(pool, parts, true, CalmPart);
    } else {
      pool := AddBlock(pool, parts, t.distress, DifficultPart);
    }
    parts := parts + MoodParts(t);
    pool := AddBlock(pool, parts, true, ExtraPart);
    parts := parts + If(true, ExtraPart);
    assert parts == PartsOf(t);
  }

  lemma Single(p: Part)
    ensures Concat([p]) == Library(p)
  {
    assert Concat([p]) == Library(p) + Concat([]);
  }

  /** `pool.push(...block)` when `b` holds: the pool stays the concatenation of the blocks appended. */
  method AddBlock(pool: seq<string>, ghost parts: seq<Part>, b: bool, p: Part) returns (pool': seq<string>)
    requires pool == Concat(parts)
    ensures pool' == Concat(parts + If(b, p))
  {
    Append(parts, b, p);
    pool' := if b then pool + Library(p) else pool;
  }

  /** Appending a block that is present under `b` appends its strings under `b`. */
  lemma Append(parts: seq<Part>, b: bool, p: Part)
    ensures Concat(parts + If(b, p)) == Concat(parts) + (if b then Library(p) else [])
  {
    ConcatAppend(parts, If(b, p));
    assert Concat([p]) == Library(p) + Concat([]);
  }
}
