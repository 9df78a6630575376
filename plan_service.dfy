/**
 * The second, simpler plan generator: four-theme cycles and template tasks without any
 * randomness, and plan creation over the plan table.
 */
module PlanService {
  import opened PlanContent
  import opened PlanStore
  import Levels

  /** A level's theme cycle (four themes) and complexity label. */
  datatype LevelConfig = LevelConfig(themes: seq<string>, complexity: string)

  const A0Config := LevelConfig(["colors", "animals", "family", "food"], "basic")
  const A1Config := LevelConfig(["school", "weather", "hobbies", "clothes"], "elementary")
  const A2KidsConfig := LevelConfig(["travel", "nature", "technology", "science"], "intermediate")

  /** The configuration of a level string; any string that is not a known level gets A0's. */
  function GetLevelConfig(level: string): (config: LevelConfig)
    ensures |config.themes| == 4
    ensures level != "A1" && level != "A2-kids" ==> config == A0Config
    ensures level == "A1" ==> config == A1Config
    ensures level == "A2-kids" ==> config == A2KidsConfig
  {
    if level == "A0" then A0Config
    else if level == "A1" then A1Config
    else if level == "A2-kids" then A2KidsConfig
    else A0Config
  }

  /** The theme of a day: the theme cycle indexed by the day number modulo its length. */
  function ThemeOf(config: LevelConfig, dayNumber: nat): string
    requires |config.themes| > 0
  {
    config.themes[dayNumber % |config.themes|]
  }

  /** `word` occurs in `text` starting at position `i`. */
  predicate OccursAt(text: string, word: string, i: nat) {
    i + |word| <= |text| && text[i..i + |word|] == word
  }

  /** `word` occurs in `text`. */
  ghost predicate Mentions(text: string, word: string) {
    exists i: nat :: OccursAt(text, word, i)
  }

  /** A template with `word` filled in mentions `word`. */
  lemma FilledTemplateMentions(before: string, word: string, after: string)
    ensures Mentions(before + word + after, word)
  {
    var text := before + word + after;
    assert text[|before|..|before| + |word|] == word;
    assert OccursAt(text, word, |before|);
  }

  /** The vocabulary task: the same word and options on every day of every level; only the theme varies. */
  function GenerateVocabTask(level: string, dayNumber: nat, config: LevelConfig): (t: VocabTask)
    requires |config.themes| > 0
    ensures t.theme == ThemeOf(config, dayNumber)
    ensures t.(theme := "") == VocabTask("example", "A sample word for demonstration",
      ["example", "sample", "demo", "test"], "example", "")
    ensures t.correctAnswer in t.options
  {
    var theme := ThemeOf(config, dayNumber);
    VocabTask("example", "A sample word for demonstration", ["example", "sample", "demo", "test"],
      "example", theme)
  }

  /** The reading task: a passage about the day's theme whose correct answer is the theme itself. */
  function GenerateReadingTask(level: string, dayNumber: nat, config: LevelConfig): (t: ReadingTask)
    requires |config.themes| > 0
    ensures t.theme == ThemeOf(config, dayNumber)
    ensures t.correctAnswer == t.theme && t.correctAnswer in t.options && |t.options| == 4
    ensures Mentions(t.title, t.theme) && Mentions(t.content, t.theme) && Mentions(t.content, level)
  {
    var theme := ThemeOf(config, dayNumber);
    var title := "Reading about " + theme;
    var content := "This is a sample reading passage about " + theme + ". It is designed for "
      + level + " level learners.";
    FilledTemplateMentions("Reading about ", theme, "");
    assert title == "Reading about " + theme + "";
    FilledTemplateMentions("This is a sample reading passage about ", theme,
      ". It is designed for " + level + " level learners.");
    assert content == "This is a sample reading passage about " + theme
      + (". It is designed for " + level + " level learners.");
    FilledTemplateMentions("This is a sample reading passage about " + theme + ". It is designed for ",
      level, " level learners.");
    ReadingTask(title, content, "What is this passage about?",
      [theme, "other topic", "nothing", "everything"], theme, theme)
  }

  /** The speaking prompt: one sentence about the theme, one hint mentioning it, 1-2 sentences expected. */
  function GenerateSpeakingPrompt(level: string, dayNumber: nat, config: LevelConfig): (p: SpeakingPrompt)
    requires |config.themes| > 0
    ensures p.theme == ThemeOf(config, dayNumber)
    ensures Mentions(p.prompt, p.theme)
    ensures |p.hints| == 1 && Mentions(p.hints[0], p.theme)
    ensures p.expectedLength == "1-2 sentences"
  {
    var theme := ThemeOf(config, dayNumber);
    FilledTemplateMentions("Tell me about your favorite ", theme, ".");
    FilledTemplateMentions("Think about why you like this ", theme, "");
    assert "Think about why you like this " + theme == "Think about why you like this " + theme + "";
    SpeakingPrompt("Tell me about your favorite " + theme + ".", "1-2 sentences", theme,
      ["Think about why you like this " + theme])
  }

  /** One day of the plan: the three tasks of that day, all on the day's theme. */
  function PlanDayFor(level: string, dayNumber: nat): (day: PlanDay)
    ensures day.dayNumber == dayNumber
    ensures var theme := ThemeOf(GetLevelConfig(level), dayNumber);
      day.vocabTask.theme == theme && day.readingTask.theme == theme && day.speakingPrompt.theme == theme
  {
    var config := GetLevelConfig(level);
    PlanDay(dayNumber,
      GenerateVocabTask(level, dayNumber, config),
      GenerateReadingTask(level, dayNumber, config),
      GenerateSpeakingPrompt(level, dayNumber, config))
  }

  /** `generatePlanDays`: 60 days numbered 1 to 60, for any level string. */
  method GeneratePlanDays(level: string) returns (days: seq<PlanDay>)
    ensures NumberedDays(days)
    ensures forall k :: 0 <= k < |days| ==> days[k] == PlanDayFor(level, k + 1)
  {
    days := [];
    var dayNumber := 1;
    while dayNumber <= PlanLength
      invariant 1 <= dayNumber <= PlanLength + 1 && |days| == dayNumber - 1
      invariant forall k :: 0 <= k < |days| ==> days[k] == PlanDayFor(level, k + 1)
    {
      days := days + [PlanDayFor(level, dayNumber)];
      dayNumber := dayNumber + 1;
    }
  }

  /** Every four days the plan repeats itself, day number aside. */
  lemma PlanRepeatsEveryFourDays(level: string, d: nat)
    ensures PlanDayFor(level, d + 4) == PlanDayFor(level, d).(dayNumber := d + 4)
  {
    assert (d + 4) % 4 == d % 4;
  }

  /**
   * `createPlan`: marks the child's active plans inactive, generates the days and inserts the
   * new plan, active, from `today` to 60 days later. The level is not checked.
   */
  method CreatePlan(table: PlanTable, childId: int, level: string, today: int) returns (plan: PlanRecord)
    requires table.Valid()
    modifies table
    ensures table.Valid()
    ensures table.plans == Deactivated(old(table.plans), childId) + [plan]
    ensures plan.id == old(table.nextId) && plan.childId == childId && plan.level == level
    ensures plan.isActive && plan.startDay == today && plan.endDay == EndDay(today)
    ensures NumberedDays(plan.days)
    ensures forall k :: 0 <= k < |plan.days| ==> plan.days[k] == PlanDayFor(level, k + 1)
  {
    table.DeactivateActivePlans(childId);
    var startDay := today;
    var endDay := EndDay(startDay);
    var days := GeneratePlanDays(level);
    plan := table.InsertActivePlan(childId, level, startDay, endDay, days);
  }
}
