/** The tasks of one plan day, in the shape both plan generators produce and the plan table stores. */
module PlanContent {

  /** A vocabulary question: a word, its definition and answer options. */
  datatype VocabTask = VocabTask(
    word: string, definition: string, options: seq<string>, correctAnswer: string, theme: string)

  /** A reading passage with one multiple-choice question about it. */
  datatype ReadingTask = ReadingTask(
    title: string, content: string, question: string, options: seq<string>,
    correctAnswer: string, theme: string)

  /** A speaking prompt; it has no answer options. */
  datatype SpeakingPrompt = SpeakingPrompt(
    prompt: string, expectedLength: string, theme: string, hints: seq<string>)

  /** One day of a learning plan. */
  datatype PlanDay = PlanDay(
    dayNumber: nat, vocabTask: VocabTask, readingTask: ReadingTask, speakingPrompt: SpeakingPrompt)

  /** Every plan has this many days. */
  const PlanLength: nat := 60

  /** `days` is a full plan: 60 days numbered 1 to 60 in order. */
  predicate NumberedDays(days: seq<PlanDay>) {
    |days| == PlanLength && forall k :: 0 <= k < |days| ==> days[k].dayNumber == k + 1
  }
}
