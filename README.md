# Quiz, gamification and page enhancements of the .NET MAUI tutorial site

This project is a Dafny model of the browser scripts behind the tutorial's interactive pages.

`assets/js/quiz.js` keeps two records in browser storage:
- the answer record maps each quiz id to the option chosen and whether it was right;
- the gamification record holds XP, the day streak, the last visit day and a list of completed chapters.

From these records the script computes:
- the level, from a fixed table of XP thresholds;
- the streak, advanced once per calendar day;
- the chapter tallies and the number of fully correct chapters shown in the stats bar;
- the rounded percentage of each of the four learning paths;
- the score badge of a chapter page.

It also handles a quiz's submit button (XP only for a right answer to a quiz the widget had seen no stored answer for, so a wrong first answer forfeits it), the fill-in-the-blank check (trimmed, lower-cased comparison) and the reset button.

`assets/js/enhancements.js` handles three things:
- it builds a table of contents from the h2/h3 headings of a chapter page, giving ids to headings that lack one;
- it keeps the contents link of the heading last reported in view active;
- it shows the scroll-to-top button past 400 pixels.

Modules:
- `Wrappers`: `Option`.
- `Text`: JavaScript `trim`, lower-casing and the decimal rendering of an index.
- `Records`: the stored records and their defaults.
- `Levels`: the level table, a specification of the level and the `getLevel` loop.
- `Streak`: the streak as a function of the last visit.
- `Stats`: chapter tallies, completed chapters, path percentages and badges.
- `Quiz`: the storage (class `Store`), one quiz widget (class `QuizWidget`), the fill-in-the-blank check and reset.
- `Enhancements`: the contents builder, the active-link rule and the scroll button.

Storage is modelled as follows:
- Each key holds a `Slot`: `Absent`, `Corrupt` (text that does not parse, or parses to a falsy value such as `null`, `0` or `""`) or `Stored(record)`.
- Reading anything but `Stored` yields the default record, as the `try`/`catch` and `|| {}` fallbacks do.
- A `writable` flag models `setItem` calls that fail silently.
- Days are integers, and "yesterday" is `today - 1`.

## Model

| member | source | states |
|---|---|---|
| Levels.LevelsAscending | assets/js/quiz.js:12 | The XP thresholds are strictly ascending, from 0 to 5200. |
| Levels.Level | assets/js/quiz.js:39-44 | The level lies between 1 and the number of thresholds, 11. |
| Levels.LevelIsHighestThreshold | assets/js/quiz.js:39-44 | The level lies between 1 and 11. It is 1 below 100 XP. Otherwise it is `i + 1` for the highest threshold `LEVELS[i]` not above the XP, and the next threshold is above the XP. |
| Levels.LevelMonotone | assets/js/quiz.js:39-44 | More XP never gives a lower level. |
| Levels.ReachedUpTo | assets/js/quiz.js:40-42 | When every threshold above index `k` exceeds the XP and `LEVELS[k]` does not, exactly `k + 1` thresholds are reached. |
| Levels.GetLevel | assets/js/quiz.js:39-44 | The downward scan returns the level specification: the highest reached threshold's index plus one, or 1 when none is reached. |
| Streak.Visit | assets/js/quiz.js:47-62 | A visit on the day of the last visit changes nothing. A visit the day after the last one adds 1 to the streak. Any other visit, the first included, sets the streak to 1. The last visit becomes today. XP and completed chapters are kept. |
| Streak.ConsecutiveVisits | assets/js/quiz.js:47-62 | Visits on `n` consecutive days after the last visit raise the streak by exactly `n`. |
| Streak.SameDayVisits | assets/js/quiz.js:50 | Any number of repeat visits on the same day leave the record unchanged. |
| Streak.StreakIsTrailingRun | assets/js/quiz.js:47-62 | From the default record, the streak after any visit history is the length of the run of consecutive days that ends the history, with repeat visits on a day counted once. |
| Quiz.Store.LoadProgress | assets/js/quiz.js:15-18 | A missing or unreadable answer record reads as the empty record. A stored one reads as itself. |
| Quiz.Store.LoadGamification | assets/js/quiz.js:24-32 | A missing or unreadable gamification record reads as 0 XP, streak 0, no last visit and no chapters. |
| Quiz.Store.SaveProgress | assets/js/quiz.js:20-22 | A successful write reads back as the saved record. A failed write leaves the slot unchanged. |
| Quiz.Store.SaveGamification | assets/js/quiz.js:34-36 | A successful write reads back as the saved record. A failed write leaves the slot unchanged. |
| Quiz.Store.UpdateStreak | assets/js/quiz.js:47-62 | Returns `Visit` of the loaded record and today. A repeat visit on the same day writes nothing. Other visits save the result. XP and completed chapters stay as loaded. |
| Quiz.Store.AddXP | assets/js/quiz.js:85-91 | Stores the loaded record with `amount` added to its XP and nothing else changed. A non-negative amount never lowers the XP. |
| Quiz.Store.CheckFillBlank | assets/js/quiz.js:256-275 | Marks every blank. The result is true iff every blank matches. The correct-answer XP is added on every fully correct check. |
| Quiz.Store.Reset | assets/js/quiz.js:280-290 | Both records are removed and read back as their defaults. |
| Quiz.MarkFor | assets/js/quiz.js:202-214 | An option is marked correct iff it is the right answer. It is marked incorrect iff it is the chosen option and that choice is wrong. |
| Quiz.MarkAll | assets/js/quiz.js:205-214 | Each option label gets the mark of its option. |
| Quiz.MarksSingleOut | assets/js/quiz.js:202-214 | With distinct option values, at most one label is marked correct and at most one incorrect. Some label is marked incorrect iff the choice is a wrong option on offer. |
| Quiz.QuizWidget.constructor | assets/js/quiz.js:164-178 | The widget keeps the answer record loaded at set-up. A quiz with a stored answer is shown answered and disabled. Any other quiz is left open. |
| Quiz.QuizWidget.Submit | assets/js/quiz.js:180-198 | On a disabled widget, whose button delivers no click, or with no choice, nothing changes. Otherwise the widget is disabled and the result marked. The answer overwrites this quiz's entry in a freshly loaded record, and that record is saved. Other entries are unchanged. XP is added only for a right answer to a quiz the widget had seen no answer for. A widget stays disabled exactly while its quiz has an answer in the record it holds, so each widget saves an answer and awards XP at most once. |
| Quiz.CheckBlanks | assets/js/quiz.js:257-267 | Each blank's mark says whether its trimmed, lower-cased value equals its trimmed, lower-cased expected answer (empty when missing). The result is the conjunction of all marks. |
| Quiz.BlankMatches | assets/js/quiz.js:259-261 | Typing exactly the expected answer always matches. |
| Quiz.BlankWithoutAnswer | assets/js/quiz.js:259-261 | A blank without an expected answer matches iff only whitespace was typed. |
| Quiz.BlankIgnoresPaddingAndCase | assets/js/quiz.js:259-261 | Typing extra whitespace at either end, or lower-casing the typed text, does not change whether a blank matches. |
| Text.TrimStartCutsLeadingSpace | assets/js/quiz.js:259-260 | Trimming the front removes exactly the leading run of JavaScript whitespace. |
| Text.TrimEndCutsTrailingSpace | assets/js/quiz.js:259-260 | Trimming the back removes exactly the trailing run of JavaScript whitespace. |
| Text.Trim | assets/js/quiz.js:259-260 | `trim` never lengthens the text. |
| Text.TrimIsMiddleSlice | assets/js/quiz.js:259-260 | `trim` yields the slice between the leading and trailing whitespace runs. That slice neither starts nor ends with whitespace. |
| Text.Lower | assets/js/quiz.js:259-260 | Lower-casing keeps the length, maps each character, and leaves no ASCII capital. |
| Text.Normalize | assets/js/quiz.js:259-260 | The comparison key is never longer than the typed text. |
| Text.NormalizeShape | assets/js/quiz.js:259-260 | The comparison key holds no ASCII capital and neither starts nor ends with whitespace. |
| Text.TrimStartSkipsSpace | assets/js/quiz.js:259-260 | Whitespace put in front of a text is cut along with the text's own leading whitespace. |
| Text.TrimEndSkipsSpace | assets/js/quiz.js:259-260 | Whitespace put after a text is cut along with the text's own trailing whitespace. |
| Text.TrimStartAppend | assets/js/quiz.js:259-260 | Trimming the front of a concatenation trims the first part, and reaches into the second only when the first is all whitespace. |
| Text.TrimIgnoresPadding | assets/js/quiz.js:259-260 | Whitespace added at either end does not change what `trim` yields. |
| Text.TrimStartOfLower | assets/js/quiz.js:259-260 | Trimming the front commutes with lower-casing. |
| Text.TrimEndOfLower | assets/js/quiz.js:259-260 | Trimming the back commutes with lower-casing. |
| Text.NormalizeIgnoresCase | assets/js/quiz.js:259-260 | Lower-casing a text first does not change its comparison key. |
| Text.NormalizeIdempotent | assets/js/quiz.js:259-260 | Trimming and lower-casing twice is the same as doing it once. |
| Text.NatToString | assets/js/enhancements.js:55 | The decimal rendering of an index is non-empty and all digits, with no leading zero. |
| Text.NatToStringRoundTrip | assets/js/enhancements.js:55 | Reading the rendered digits back gives the index. |
| Text.NatToStringInjective | assets/js/enhancements.js:55 | Different indices render differently. |
| Stats.ChapterOf | assets/js/quiz.js:110-111 | The chapter of a quiz id is a prefix of the id. |
| Stats.ChapterOfIsPrefixBeforeDashQ | assets/js/quiz.js:110-111 | The chapter of a quiz id is its prefix before the first `-q`, or the whole id when there is no `-q`. |
| Stats.ChapterTally | assets/js/quiz.js:109-115 | A chapter's correct count is at most its total. The total is at most the number of ids counted. |
| Stats.Chapters | assets/js/quiz.js:109-112 | The chapters are listed without repeats, and there are no more of them than quiz ids counted. |
| Stats.ChaptersAreThoseOfQuizzes | assets/js/quiz.js:109-112 | A chapter is listed iff some quiz id belongs to it. |
| Stats.TallyOfAbsentChapter | assets/js/quiz.js:112 | A chapter no quiz id belongs to has an empty tally. |
| Stats.TallyOfPresentChapter | assets/js/quiz.js:112-113 | A listed chapter has at least one answer. |
| Stats.TallyChapters | assets/js/quiz.js:108-115 | The loop builds one tally per chapter, keyed exactly by the listed chapters. Each tally equals the chapter's tally specification, has at least one answer, and has no more correct answers than answers. |
| Stats.CountQuiz | assets/js/quiz.js:110-114 | Counting one more quiz id keeps the chapter list and the tallies equal to their specifications over one more id. A new chapter starts from an empty tally. |
| Stats.SumTotalsStep | assets/js/quiz.js:113 | Counting one more quiz id raises the summed totals by one exactly when its chapter is among those summed. |
| Stats.TotalsCountEveryAnswer | assets/js/quiz.js:109-115 | Every counted quiz id falls in exactly one chapter, so the chapter totals add up to the number of ids. |
| Stats.TotalsCountStoredAnswers | assets/js/quiz.js:108-115 | Over the keys of the answer record, the chapter totals add up to the number of stored answers. |
| Stats.CompletedChapters | assets/js/quiz.js:117-120 | A chapter counts as completed iff it has at least one answer and every answer is correct. Each completed chapter is listed once. |
| Stats.CompletedCountIsSetSize | assets/js/quiz.js:117-120 | The number of completed chapters listed is the number of distinct tallied chapters that are fully correct. |
| Stats.CountCompleted | assets/js/quiz.js:107-120 | The stats bar's completed figure is the number of distinct chapters whose tally is fully correct, so no chapter is counted twice. It is at most the number of chapters. |
| Stats.ChapterTallies | assets/js/quiz.js:108-115 | The tally map has an entry exactly for each chapter of the answered quiz ids. |
| Stats.PathsPartitionChapters | assets/js/quiz.js:130-135 | Taken in order, the four learning paths list `ch01` to `ch22`, each exactly once. |
| Stats.PathIsNumbered | assets/js/quiz.js:130-135 | Each path lists consecutively numbered chapters, starting at chapters 1, 7, 13 and 20. |
| Stats.ChapterNameInjective | assets/js/quiz.js:130-135 | Different chapter numbers give different chapter ids. |
| Stats.Percent | assets/js/quiz.js:152 | The percentage is within 0..100 and within half a point of the exact ratio. It is 0 with no answers or no correct answers. It is 100 when every answer is correct. |
| Stats.RoundedRatio | assets/js/quiz.js:152 | Rounding `200c + t` over `2t` gives a whole percentage within half a point of the ratio, with exact endpoints. |
| Stats.PathTally | assets/js/quiz.js:141-150 | A path's summed tally never has more correct answers than answers. |
| Stats.PathPercent | assets/js/quiz.js:137-152 | The loop sums the tallies of the path's answered chapters and returns the rounded percentage of that sum. |
| Stats.PathWithoutAnswers | assets/js/quiz.js:145-152 | A path none of whose chapters has an answer sums to an empty tally, so it shows 0%. |
| Stats.PathAllCorrect | assets/js/quiz.js:145-152 | A path whose answered chapters are all fully correct shows 100%, or 0% when it has no answers. |
| Stats.BadgeTally | assets/js/quiz.js:234-241 | A badge's correct count is at most its total. The total is at most the number of quizzes on the page. |
| Stats.ScoreBadge | assets/js/quiz.js:228-244 | A badge without a chapter is skipped. Otherwise it counts the page's quizzes whose id starts with the chapter, and how many of them have a correct stored answer. |
| Stats.BadgeAgreesWithChapterTally | assets/js/quiz.js:228-244 | Over the same list of quiz ids, when every id starting with the chapter belongs to that chapter, the badge equals the stats-bar tally of the chapter. |
| Enhancements.StripHashPrefix | assets/js/enhancements.js:60 | Text that starts with a run of `#` followed by a space is shown without that run and that space. Any other text is shown unchanged. Text changed this way is shorter and started with `#`. |
| Enhancements.StripHashPrefixKeepsPlainText | assets/js/enhancements.js:60 | Text not starting with `#` is shown unchanged. |
| Enhancements.HeadingId | assets/js/enhancements.js:55 | A heading with an id keeps it. A heading without one gets an id that starts with `heading-` and is longer than that prefix. |
| Enhancements.HeadingIdDefaults | assets/js/enhancements.js:55 | A heading keeps its own id. A heading without one gets `heading-` followed by its index in decimal. |
| Enhancements.GeneratedIdsDistinct | assets/js/enhancements.js:55 | Generated ids of different headings differ. |
| Enhancements.InsertionPoint | assets/js/enhancements.js:72-78 | The contents go after the banner iff there is a banner and it has a next sibling. They go after the first h1 iff there is no banner and the h1 has a next sibling. Otherwise they are not inserted. |
| Enhancements.EntryFor | assets/js/enhancements.js:56-60 | An entry has class `toc-item toc-sub` iff its heading is an h3, and `toc-item` iff it is an h2. Its href is `#` followed by the heading's id. Its text is the heading text with any `#` prefix stripped. |
| Enhancements.BuildToc | assets/js/enhancements.js:38-78 | There is no contents, and no id changes, iff there is no main content, fewer than three headings, or a hero section. Otherwise each heading gets its own or generated id and one entry, in order, and the contents' place is `InsertionPoint`. |
| Enhancements.ListHeadings | assets/js/enhancements.js:54-68 | The loop gives every id-less heading its generated id, leaves other ids alone, and yields one entry per heading whose class, href and text follow the heading's level, id and text. |
| Enhancements.NameHeading | assets/js/enhancements.js:55-60 | A heading without an id gets its generated id, and its entry follows its level, id and text. |
| Enhancements.LastInView | assets/js/enhancements.js:82-89 | There is no target iff no report in the batch is intersecting. |
| Enhancements.LastInViewIsLastIntersecting | assets/js/enhancements.js:82-87 | A target is the heading of an intersecting report after which no report is intersecting, so it is the last one in view. |
| Enhancements.Highlight | assets/js/enhancements.js:85-87 | Afterwards a link is active iff it is the first link whose href is `#` followed by the target id. |
| Enhancements.OnIntersection | assets/js/enhancements.js:82-89 | A batch with no intersecting report changes nothing. Otherwise the active link is exactly the first link to the last intersecting heading, so at most one link is active. |
| Enhancements.ScrollButton.constructor | assets/js/enhancements.js:17-22 | The button starts hidden. |
| Enhancements.ScrollButton.OnScroll | assets/js/enhancements.js:24-32 | The button is shown iff the page is scrolled more than 400 pixels, and hidden otherwise. The scroll offset is a real number, as `scrollY` may be fractional. |

## Left out

- The XP toast, feedback texts, button captions and the `'/22'` text of the stats bar: these are display only. The `+25 XP` badge of `showResult` is display only as well.
- The SVG stroke offset of the path circles is left out. It is floating-point arithmetic on a percentage the model already has.
- Stats.Percent: it is not `Math.round` on a double. It is the exact rounding of `100 * correct / total` with halves rounded up. A double can differ from it by one on a value that is exactly a half in exact arithmetic, which is why the contract only bounds the distance to the ratio by half a point.
- JSON parsing and serialisation are left out. A stored text that does not parse, or parses to a falsy value, is modelled as `Corrupt`.
- Stored text that parses to a truthy value that is not a record, such as an array or the number `1`, is not modelled. The `|| {}` fallback keeps such a value. With an array, answers written into it are dropped when it is serialised again, so later answers are silently lost. With a number or a string, assigning an answer to it throws in strict mode, so the submit handler stops before saving.
- Heading ids and badge chapters are assumed to contain no `"` and no `\`. The scripts paste them into CSS attribute selectors (`enhancements.js` line 86, `quiz.js` line 234). A `"` makes the selector invalid, so `querySelector` throws. In the intersection callback that happens after every link has lost `active`. In `updateScoreBadges` it stops the badge update and the calls after it, such as the stats bar update. A `\` is unescaped by CSS, so a different string is matched. The model compares the strings themselves and never fails.
- Truthiness of individual entries is left out: an entry that is `null`, or keys like `__proto__`, are not modelled.
- `Object.keys` order: the answer record's keys are a parameter `qids` listing each key once. The chapter list follows the order in which chapters first appear among the keys, so it depends on that order. Each chapter's tally is a count, and the completed figure is the size of a set, so neither depends on it.
- `Date` and `toDateString` are left out. Days are integers given by the caller, and "yesterday" is the previous integer.
- Text.Trim: its own contract only bounds the length. Which slice it keeps is stated by `TrimIsMiddleSlice`, a separate lemma, because the stronger postcondition on the function made every proof about blanks too costly.
- Text.Normalize: its own contract only bounds the length. Its shape is stated by the lemma `NormalizeShape` and its idempotence by `NormalizeIdempotent`, for the same reason as `Trim`.
- Quiz.BlankMatches: its own contract states only that the expected answer matches itself. The case of a missing answer is the lemma `BlankWithoutAnswer`, and the indifference to padding and case is the lemma `BlankIgnoresPaddingAndCase`.
- Levels.Level: its own contract only bounds the level. Which level is reached is stated by `LevelIsHighestThreshold`.
- Stats.ChapterOf: its own contract only says the chapter is a prefix of the id. Which prefix it is is stated by `ChapterOfIsPrefixBeforeDashQ`.
- Enhancements.HeadingId: its own contract gives only the `heading-` prefix of a generated id. The exact id, with the index in decimal, is stated by `HeadingIdDefaults`.
- Text.Lower: it maps only ASCII capitals. JavaScript's `toLowerCase` also lowers non-ASCII letters.
- The reset confirmation dialog and `location.reload` are left out. The model is the confirmed branch. A failing `removeItem` is not modelled.
- The reading-progress bar (`enhancements.js` lines 3-14) is left out. It is floating-point display only.
- Smooth scrolling, `history.pushState`, the scroll-to-top click, and registering headings with the intersection observer are left out. The observer's root margin is left out as well. The callback is modelled by `OnIntersection` on the reports it receives.
- Quiz widgets or exercises without a button or feedback element are left out. They are skipped before any state changes.
- Several tabs writing storage concurrently are left out. Event handlers are modelled one at a time.
- The completed-chapter list and the per-chapter XP constant (`XP_PER_CHAPTER`) are kept in the records but never updated, because no code in the scripts does so. The stats bar counts completed chapters from the answer record alone, not from the larger of that count and the stored list.
- `assets/js/copy-code.js` is not part of this model.
