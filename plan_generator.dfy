/**
 * The plan generator: maps a score to a level and builds the 60-day plan of a level from fixed
 * theme cycles and small content banks, shuffling the answer options of each task.
 *
 * `Math.random()` is replaced by a sequence of draws, each a real number in [0, 1). A shuffle
 * of n options consumes n - 1 draws, so each day consumes 6: three for its vocabulary task and
 * then three for its reading task.
 */
module PlanGenerator {
  import opened Common
  import opened JsMath
  import opened Levels
  import opened PlanContent
  import AssessmentService

  /**
   * The level of a score: 0-30 is A0, 31-65 is A1, 66-100 is A2-kids, and every other number
   * (negative, above 100, a fraction between two bands, NaN) falls back to A0.
   */
  function DetermineLevel(score: JsNumber): (level: Level)
    ensures level == A1 <==> score.Finite? && 31.0 <= score.value <= 65.0
    ensures level == A2Kids <==> score.Finite? && 66.0 <= score.value <= 100.0
  {
    if score.Finite? && 0.0 <= score.value <= 30.0 then A0
    else if score.Finite? && 31.0 <= score.value <= 65.0 then A1
    else if score.Finite? && 66.0 <= score.value <= 100.0 then A2Kids
    else A0
  }

  /** The two copies of the score-to-level table agree on every number. */
  lemma DetermineLevelAgrees(score: JsNumber)
    ensures DetermineLevel(score) == AssessmentService.DetermineLevel(score)
  {
  }

  // ---------------------------------------------------------------------------------------
  // Level configuration

  /** How a level's plan is built: content settings and a cycle of six themes. */
  datatype LevelConfig = LevelConfig(
    vocabDifficulty: string, readingLength: string, speakingComplexity: string, themes: seq<string>)

  const A0Config := LevelConfig("basic", "short", "simple",
    ["colors", "animals", "family", "food", "toys", "body parts"])
  const A1Config := LevelConfig("elementary", "medium", "basic",
    ["school", "weather", "hobbies", "clothes", "house", "sports"])
  const A2KidsConfig := LevelConfig("intermediate", "longer", "detailed",
    ["travel", "nature", "technology", "friendship", "science", "arts"])

  /** The configuration of a level string; any string that is not a known level gets A0's. */
  function GetLevelConfig(level: string): (config: LevelConfig)
    ensures |config.themes| == 6
    ensures level != "A1" && level != "A2-kids" ==> config == A0Config
    ensures level == "A1" ==> config == A1Config
    ensures level == "A2-kids" ==> config == A2KidsConfig
  {
    if level == "A0" then A0Config
    else if level == "A1" then A1Config
    else if level == "A2-kids" then A2KidsConfig
    else A0Config
  }

  /** The theme of a day: the theme cycle indexed by the day number itself, modulo its length. */
  function ThemeOf(config: LevelConfig, dayNumber: nat): string
    requires |config.themes| > 0
  {
    config.themes[dayNumber % |config.themes|]
  }

  // ---------------------------------------------------------------------------------------
  // Content banks

  /** A vocabulary bank entry: the word, its definition, the correct option and three distractors. */
  datatype VocabEntry = VocabEntry(word: string, definition: string, correct: string, distractors: seq<string>)

  /** A reading bank entry. */
  datatype ReadingEntry = ReadingEntry(
    title: string, content: string, question: string, correctAnswer: string, distractors: seq<string>)

  /** A speaking bank entry; its hints may be missing. */
  datatype PromptEntry = PromptEntry(text: string, expectedLength: string, hints: Option<seq<string>>)

  /** The themes that have banks of their own; every other theme uses the colors banks. */
  const BankThemes: set<string> := {"colors", "animals", "family"}

  const ColorsVocab: seq<VocabEntry> := [
    VocabEntry("red", "The color of an apple", "red", ["blue", "green", "yellow"]),
    VocabEntry("blue", "The color of the sky", "blue", ["red", "purple", "orange"]),
    VocabEntry("green", "The color of grass", "green", ["pink", "brown", "white"])]
  const AnimalsVocab: seq<VocabEntry> := [
    VocabEntry("cat", "A small furry pet that says meow", "cat", ["dog", "bird", "fish"]),
    VocabEntry("dog", "A loyal pet that barks", "dog", ["cat", "rabbit", "mouse"]),
    VocabEntry("bird", "An animal that can fly and has wings", "bird", ["frog", "snake", "spider"])]
  const FamilyVocab: seq<VocabEntry> := [
    VocabEntry("mother", "Your female parent", "mother", ["father", "sister", "brother"]),
    VocabEntry("father", "Your male parent", "father", ["mother", "uncle", "cousin"]),
    VocabEntry("sister", "Your female sibling", "sister", ["brother", "aunt", "grandmother"])]

  const ColorsReading: seq<ReadingEntry> := [
    ReadingEntry("Rainbow Colors",
      "A rainbow has many beautiful colors. We can see red, orange, yellow, green, blue, and purple. Rainbows appear after it rains when the sun comes out.",
      "When do we see rainbows?", "After it rains when the sun comes out",
      ["Only at night", "When it is snowing", "During storms"])]
  const AnimalsReading: seq<ReadingEntry> := [
    ReadingEntry("My Pet Cat",
      "I have a pet cat named Whiskers. She is orange and white. Whiskers likes to play with a ball of yarn and sleep in sunny spots. She purrs when I pet her.",
      "What does Whiskers like to play with?", "A ball of yarn",
      ["A bone", "A stick", "A frisbee"])]
  const FamilyReading: seq<ReadingEntry> := [
    ReadingEntry("Family Dinner",
      "Every Sunday, my family has dinner together. Mom cooks delicious food. Dad tells funny jokes. My sister and I help set the table. We all laugh and share stories.",
      "When does the family have dinner together?", "Every Sunday",
      ["Every Monday", "Every Friday", "Every day"])]

  const ColorsPrompts: seq<PromptEntry> := [
    PromptEntry("Tell me about your favorite color. Why do you like it?", "1-2 sentences",
      Some(["Think about things that are this color"])),
    PromptEntry("Describe what colors you see in your room right now.", "2-3 sentences",
      Some(["Look around you"]))]
  const AnimalsPrompts: seq<PromptEntry> := [
    PromptEntry("If you could have any pet, what would it be and why?", "2-3 sentences",
      Some(["Think about care, size, fun activities"])),
    PromptEntry("Describe your favorite animal and what it looks like.", "2-3 sentences",
      Some(["Size, color, where it lives"]))]
  const FamilyPrompts: seq<PromptEntry> := [
    PromptEntry("Tell me about someone special in your family.", "2-3 sentences",
      Some(["What do you do together?"])),
    PromptEntry("What is your favorite thing to do with your family?", "1-2 sentences",
      Some(["Games, trips, activities"]))]

  /** The vocabulary bank of a theme (the difficulty is not used). */
  function GetVocabByTheme(theme: string, difficulty: string): (bank: seq<VocabEntry>)
    ensures |bank| == 3
    ensures theme !in BankThemes ==> bank == ColorsVocab
    ensures forall k :: 0 <= k < |bank| ==>
      |bank[k].distractors| == 3 && bank[k].correct !in bank[k].distractors
  {
    if theme == "colors" then ColorsVocab
    else if theme == "animals" then AnimalsVocab
    else if theme == "family" then FamilyVocab
    else ColorsVocab
  }

  /** The reading bank of a theme (the length is not used). */
  function GetReadingByTheme(theme: string, length: string): (bank: seq<ReadingEntry>)
    ensures |bank| == 1
    ensures theme !in BankThemes ==> bank == ColorsReading
    ensures forall k :: 0 <= k < |bank| ==>
      |bank[k].distractors| == 3 && bank[k].correctAnswer !in bank[k].distractors
  {
    if theme == "colors" then ColorsReading
    else if theme == "animals" then AnimalsReading
    else if theme == "family" then FamilyReading
    else ColorsReading
  }

  /** The speaking bank of a theme (the complexity is not used). */
  function GetSpeakingPrompts(theme: string, complexity: string): (bank: seq<PromptEntry>)
    ensures |bank| == 2
    ensures theme !in BankThemes ==> bank == ColorsPrompts
  {
    if theme == "colors" then ColorsPrompts
    else if theme == "animals" then AnimalsPrompts
    else if theme == "family" then FamilyPrompts
    else ColorsPrompts
  }

  // ---------------------------------------------------------------------------------------
  // Fisher-Yates shuffle with injected draws

  /** A value `Math.random()` can return. */
  predicate IsDraw(r: real) {
    0.0 <= r < 1.0
  }

  predicate ValidDraws(rs: seq<real>) {
    forall k :: 0 <= k < |rs| ==> IsDraw(rs[k])
  }

  /** A draw scaled by n + 1 stays in [0, n + 1). */
  lemma {:induction false} ScaledDrawBelow(r: real, n: nat)
    requires IsDraw(r)
    ensures 0.0 <= r * (n + 1) as real < (n + 1) as real
  {
    if n > 0 {
      ScaledDrawBelow(r, n - 1);
      assert r * (n + 1) as real == r * n as real + r;
    }
  }

  /** `Math.floor(r * (i + 1))`: an index from 0 to i. */
  function PickIndex(r: real, i: nat): (j: nat)
    requires IsDraw(r)
    ensures j <= i
  {
    ScaledDrawBelow(r, i);
    (r * (i + 1) as real).Floor
  }

  /** `s` with the elements at i and j exchanged. */
  function Swap<T>(s: seq<T>, i: nat, j: nat): (t: seq<T>)
    requires i < |s| && j < |s|
    ensures |t| == |s|
  {
    s[i := s[j]][j := s[i]]
  }

  /** Exchanging two elements keeps the multiset of elements. */
  lemma SwapPermutes<T>(s: seq<T>, i: nat, j: nat)
    requires i < |s| && j < |s|
    ensures multiset(Swap(s, i, j)) == multiset(s)
  {
  }

  /** The shuffle's remaining steps, for positions i down to 1, consuming draws from the front of `rs`. */
  function ShuffleFrom<T>(s: seq<T>, i: nat, rs: seq<real>): seq<T>
    requires i < |s| && i <= |rs| && ValidDraws(rs)
    decreases i
  {
    if i == 0 then s
    else ShuffleFrom(Swap(s, i, PickIndex(rs[0], i)), i - 1, rs[1..])
  }

  /** The order `shuffleArray` produces from `s` when `Math.random()` returns `rs` in turn. */
  function Shuffled<T>(s: seq<T>, rs: seq<real>): seq<T>
    requires |s| <= |rs| + 1 && ValidDraws(rs)
  {
    if s == [] then [] else ShuffleFrom(s, |s| - 1, rs)
  }

  lemma {:induction false} ShuffleFromPermutes<T>(s: seq<T>, i: nat, rs: seq<real>)
    requires i < |s| && i <= |rs| && ValidDraws(rs)
    ensures |ShuffleFrom(s, i, rs)| == |s|
    ensures multiset(ShuffleFrom(s, i, rs)) == multiset(s)
    decreases i
  {
    if i > 0 {
      var j := PickIndex(rs[0], i);
      SwapPermutes(s, i, j);
      ShuffleFromPermutes(Swap(s, i, j), i - 1, rs[1..]);
    }
  }

  /** A shuffle is a permutation: the same length and the same multiset of elements. */
  lemma ShuffledPermutes<T>(s: seq<T>, rs: seq<real>)
    requires |s| <= |rs| + 1 && ValidDraws(rs)
    ensures |Shuffled(s, rs)| == |s|
    ensures multiset(Shuffled(s, rs)) == multiset(s)
  {
    if s != [] {
      ShuffleFromPermutes(s, |s| - 1, rs);
    }
  }

  /**
   * `shuffleArray`: copies the input into a fresh array and, for i from its last index down to 1,
   * swaps position i with a drawn position j in 0..i. The input sequence is a value and so is
   * left as it was.
   */
  method ShuffleArray<T>(items: seq<T>, rs: seq<real>) returns (shuffled: seq<T>)
    requires |items| <= |rs| + 1 && ValidDraws(rs)
    ensures shuffled == Shuffled(items, rs)
    ensures |shuffled| == |items| && multiset(shuffled) == multiset(items)
  {
    var a := new T[|items|](k requires 0 <= k < |items| => items[k]);
    var i: int := |items| - 1;
    var used := 0;
    ghost var target := Shuffled(items, rs);
    assert a[..] == items;
    assert |items| > 0 ==> ShuffleFrom(a[..], i, rs[used..]) == target by {
      assert rs[0..] == rs;
    }
    while i > 0
      invariant |items| > 0 ==> 0 <= i < |items|
      invariant used == |items| - 1 - i
      invariant |items| > 0 ==> ShuffleFrom(a[..], i, rs[used..]) == target
    {
      var j := PickIndex(rs[used], i);
      ghost var before := a[..];
      a[i], a[j] := a[j], a[i];
      assert a[..] == Swap(before, i, j);
      assert rs[used..][1..] == rs[used + 1..];
      i := i - 1;
      used := used + 1;
    }
    shuffled := a[..];
    ShuffledPermutes(items, rs);
  }

  // ---------------------------------------------------------------------------------------
  // Task generators

  /**
   * The vocabulary task of a day: the bank entry at `dayNumber % 3` of the day's theme, with the
   * correct word and its distractors shuffled by three draws.
   */
  function GenerateVocabTask(level: string, dayNumber: nat, config: LevelConfig, rs: seq<real>): (t: VocabTask)
    requires |config.themes| > 0 && |rs| == 3 && ValidDraws(rs)
    ensures t.theme == ThemeOf(config, dayNumber)
    ensures var entry := GetVocabByTheme(t.theme, config.vocabDifficulty)[dayNumber % 3];
      && t.word == entry.word && t.definition == entry.definition && t.correctAnswer == entry.correct
      && multiset(t.options) == multiset([entry.correct] + entry.distractors)
    ensures |t.options| == 4 && t.correctAnswer in t.options
  {
    var theme := ThemeOf(config, dayNumber);
    var bank := GetVocabByTheme(theme, config.vocabDifficulty);
    var entry := bank[dayNumber % |bank|];
    var choices := [entry.correct] + entry.distractors;
    ShuffledPermutes(choices, rs);
    assert entry.correct in multiset(choices);
    VocabTask(entry.word, entry.definition, Shuffled(choices, rs), entry.correct, theme)
  }

  /**
   * The reading task of a day: the single passage of the day's theme, with the correct answer
   * and its distractors shuffled by three draws.
   */
  function GenerateReadingTask(level: string, dayNumber: nat, config: LevelConfig, rs: seq<real>): (t: ReadingTask)
    requires |config.themes| > 0 && |rs| == 3 && ValidDraws(rs)
    ensures t.theme == ThemeOf(config, dayNumber)
    ensures var entry := GetReadingByTheme(t.theme, config.readingLength)[0];
      && t.title == entry.title && t.content == entry.content && t.question == entry.question
      && t.correctAnswer == entry.correctAnswer
      && multiset(t.options) == multiset([entry.correctAnswer] + entry.distractors)
    ensures |t.options| == 4 && t.correctAnswer in t.options
  {
    var theme := ThemeOf(config, dayNumber);
    var bank := GetReadingByTheme(theme, config.readingLength);
    var entry := bank[dayNumber % |bank|];
    var choices := [entry.correctAnswer] + entry.distractors;
    ShuffledPermutes(choices, rs);
    assert entry.correctAnswer in multiset(choices);
    ReadingTask(entry.title, entry.content, entry.question, Shuffled(choices, rs), entry.correctAnswer, theme)
  }

  /** The speaking prompt of a day: the bank entry at `dayNumber % 2`; missing hints become []. */
  function GenerateSpeakingPrompt(level: string, dayNumber: nat, config: LevelConfig): (p: SpeakingPrompt)
    requires |config.themes| > 0
    ensures p.theme == ThemeOf(config, dayNumber)
    ensures var entry := GetSpeakingPrompts(p.theme, config.speakingComplexity)[dayNumber % 2];
      && p.prompt == entry.text && p.expectedLength == entry.expectedLength
      && p.hints == (if entry.hints.Some? then entry.hints.value else [])
  {
    var theme := ThemeOf(config, dayNumber);
    var bank := GetSpeakingPrompts(theme, config.speakingComplexity);
    var entry := bank[dayNumber % |bank|];
    SpeakingPrompt(entry.text, entry.expectedLength, theme,
      match entry.hints case Some(h) => h case None => [])
  }

  // ---------------------------------------------------------------------------------------
  // The plan

  /** Draws a plan consumes: six per day. */
  const PlanDraws: nat := 6 * PlanLength

  /** The draws of the first `dayNumber - 1` days come first; then the vocabulary task's three, then the reading task's. */
  function PlanDayFor(level: string, dayNumber: nat, rs: seq<real>): (day: PlanDay)
    requires 1 <= dayNumber <= PlanLength && |rs| >= PlanDraws && ValidDraws(rs)
    ensures day.dayNumber == dayNumber
    ensures var theme := ThemeOf(GetLevelConfig(level), dayNumber);
      day.vocabTask.theme == theme && day.readingTask.theme == theme && day.speakingPrompt.theme == theme
  {
    var config := GetLevelConfig(level);
    var base := 6 * (dayNumber - 1);
    PlanDay(dayNumber,
      GenerateVocabTask(level, dayNumber, config, rs[base..base + 3]),
      GenerateReadingTask(level, dayNumber, config, rs[base + 3..base + 6]),
      GenerateSpeakingPrompt(level, dayNumber, config))
  }

  /** Days that are `PlanDayFor` of their positions are numbered 1 to 60. */
  lemma PlanDaysNumbered(level: string, rs: seq<real>, days: seq<PlanDay>)
    requires |rs| >= PlanDraws && ValidDraws(rs) && |days| == PlanLength
    requires forall k :: 0 <= k < |days| ==> days[k] == PlanDayFor(level, k + 1, rs)
    ensures NumberedDays(days)
  {
    forall k | 0 <= k < |days|
      ensures days[k].dayNumber == k + 1
    {
      var day := PlanDayFor(level, k + 1, rs);
      assert day.dayNumber == k + 1;
    }
  }

  /** `generatePlan`: 60 days, numbered 1 to 60, for any level string (unknown ones get A0's content). */
  method GeneratePlan(level: string, rs: seq<real>) returns (days: seq<PlanDay>)
    requires |rs| >= PlanDraws && ValidDraws(rs)
    ensures NumberedDays(days)
    ensures forall k :: 0 <= k < |days| ==> days[k] == PlanDayFor(level, k + 1, rs)
  {
    days := [];
    var dayNumber := 1;
    while dayNumber <= PlanLength
      invariant 1 <= dayNumber <= PlanLength + 1 && |days| == dayNumber - 1
      invariant forall k :: 0 <= k < |days| ==> days[k] == PlanDayFor(level, k + 1, rs)
    {
      days := days + [PlanDayFor(level, dayNumber, rs)];
      dayNumber := dayNumber + 1;
    }
    PlanDaysNumbered(level, rs, days);
  }

  // ---------------------------------------------------------------------------------------
  // Properties of the plan

  /**
   * The plan repeats every six days: day d and day d + 6 have the same theme, the same
   * vocabulary word and answer, the same reading passage and answer, and the same speaking
   * prompt; only the order of the answer options may differ.
   */
  lemma PlanRepeatsEverySixDays(level: string, d: nat, rs: seq<real>)
    requires 1 <= d && d + 6 <= PlanLength && |rs| >= PlanDraws && ValidDraws(rs)
    ensures var a, b := PlanDayFor(level, d, rs), PlanDayFor(level, d + 6, rs);
      && a.vocabTask.theme == b.vocabTask.theme
      && a.vocabTask.(options := []) == b.vocabTask.(options := [])
      && multiset(a.vocabTask.options) == multiset(b.vocabTask.options)
      && a.readingTask.(options := []) == b.readingTask.(options := [])
      && multiset(a.readingTask.options) == multiset(b.readingTask.options)
      && a.speakingPrompt == b.speakingPrompt
  {
    assert (d + 6) % 6 == d % 6 && (d + 6) % 3 == d % 3 && (d + 6) % 2 == d % 2;
  }

  /**
   * The theme cycle is indexed by the day number itself: day 1 of an A0 plan is about animals,
   * the second theme of the cycle, and the first theme, colors, comes on day 6.
   */
  lemma FirstThemeComesOnDaySix(rs: seq<real>)
    requires |rs| >= PlanDraws && ValidDraws(rs)
    ensures PlanDayFor("A0", 1, rs).vocabTask.theme == "animals"
    ensures PlanDayFor("A0", 6, rs).vocabTask.theme == "colors"
  {
  }

  /**
   * The draws decide only the order of the options: with any two draw sequences a day has the
   * same tasks, the same correct answers and the same option multisets.
   */
  lemma DrawsOnlyOrderOptions(level: string, d: nat, rs: seq<real>, rs': seq<real>)
    requires 1 <= d <= PlanLength
    requires |rs| >= PlanDraws && ValidDraws(rs) && |rs'| >= PlanDraws && ValidDraws(rs')
    ensures var a, b := PlanDayFor(level, d, rs), PlanDayFor(level, d, rs');
      && a.vocabTask.(options := []) == b.vocabTask.(options := [])
      && multiset(a.vocabTask.options) == multiset(b.vocabTask.options)
      && a.readingTask.(options := []) == b.readingTask.(options := [])
      && multiset(a.readingTask.options) == multiset(b.readingTask.options)
      && a.speakingPrompt == b.speakingPrompt
  {
  }

  /** No theme of the A1 and A2-kids cycles has a content bank of its own. */
  lemma HigherLevelThemesHaveNoBank(level: string, d: nat)
    requires level == "A1" || level == "A2-kids"
    ensures ThemeOf(GetLevelConfig(level), d) !in BankThemes
  {
    var k := d % 6;
    if level == "A1" {
      assert A1Config.themes[k] !in BankThemes;
    } else {
      assert A2KidsConfig.themes[k] !in BankThemes;
    }
  }

  /**
   * Only the colors, animals and family themes have content: every theme of the A1 and A2-kids
   * cycles falls back to the colors banks, so those plans reuse the colors words and passage.
   */
  lemma HigherLevelsUseColorsContent(level: string, d: nat, rs: seq<real>)
    requires level == "A1" || level == "A2-kids"
    requires 1 <= d <= PlanLength && |rs| >= PlanDraws && ValidDraws(rs)
    ensures PlanDayFor(level, d, rs).vocabTask.word in {"red", "blue", "green"}
    ensures PlanDayFor(level, d, rs).readingTask.title == "Rainbow Colors"
  {
    var day := PlanDayFor(level, d, rs);
    HigherLevelThemesHaveNoBank(level, d);
    assert day.vocabTask.word == ColorsVocab[d % 3].word;
  }
}
