/**
 * The two records the quiz layer keeps in browser storage, and its fixed constants.
 * Calendar days are whole day numbers: the day before `d` is `d - 1`.
 */
module Records {
  import opened Wrappers

  const XP_PER_CORRECT: int := 25
  /** Declared by the quiz layer but never awarded: no operation marks a chapter complete. */
  const XP_PER_CHAPTER: int := 50

  type Day = int

  /** One stored quiz answer: the option the reader picked and whether it was the right one. */
  datatype QuizAnswer = QuizAnswer(selected: string, correct: bool)

  /** Quiz id (`<chapter>-q<n>`) to the latest answer recorded for it. */
  type AnswerMap = map<string, QuizAnswer>

  /** The gamification record: experience points, day streak, last visit, completed chapters. */
  datatype Gamification = Gamification(
    xp: int,
    streak: int,
    lastVisit: Option<Day>,
    completedChapters: seq<string>)

  /** What an absent or unreadable answer record reads as. */
  const DEFAULT_ANSWERS: AnswerMap := map[]

  /** What an absent or unreadable gamification record reads as. */
  const DEFAULT_GAMIFICATION: Gamification := Gamification(0, 0, None, [])
}
