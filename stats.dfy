/**
 * Figures derived from the answer record for display: per-chapter tallies, the number of
 * chapters answered fully correctly, the percentage of each learning path, and the score
 * badge of a chapter page.
 */
module Stats {
  import opened Wrappers
  import opened Records
  import Text

  /** The delimiter `-q` starts at position `i` of `s`. */
  predicate DashQAt(s: string, i: int) {
    0 <= i && i + 2 <= |s| && s[i] == '-' && s[i + 1] == 'q'
  }

  /** The chapter a quiz id belongs to: `qid.split('-q')[0]`. */
  function ChapterOf(qid: string): (ch: string)
    ensures ch <= qid
    decreases |qid|
  {
    if |qid| < 2 then qid
    else if DashQAt(qid, 0) then ""
    else [qid[0]] + ChapterOf(qid[1..])
  }

  /** The chapter is the prefix of the id before its first `-q`, or the whole id when it has none. */
  lemma {:induction false} ChapterOfIsPrefixBeforeDashQ(qid: string)
    ensures ChapterOf(qid) <= qid
    ensures ChapterOf(qid) == qid || DashQAt(qid, |ChapterOf(qid)|)
    ensures forall i :: 0 <= i < |ChapterOf(qid)| ==> !DashQAt(qid, i)
    decreases |qid|
  {
    if |qid| >= 2 && !DashQAt(qid, 0) {
      var rest := ChapterOf(qid[1..]);
      ChapterOfIsPrefixBeforeDashQ(qid[1..]);
      assert forall i :: 1 <= i <= |rest| ==> (DashQAt(qid, i) <==> DashQAt(qid[1..], i - 1));
    }
  }

  /** Counters of one chapter: quizzes answered and quizzes answered correctly. */
  datatype Tally = Tally(total: nat, correct: nat)

  ghost predicate WellFormed(t: Tally) {
    t.correct <= t.total
  }

  /** `qids` lists the keys of `progress`, each once, as `Object.keys` does. */
  ghost predicate IsKeyList(qids: seq<string>, progress: AnswerMap) {
    && (forall i, j :: 0 <= i < j < |qids| ==> qids[i] != qids[j])
    && (forall q :: q in qids <==> q in progress)
  }

  /** The tally of chapter `ch` over the answers to the first `n` quiz ids of `qids`. */
  function ChapterTally(qids: seq<string>, n: nat, progress: AnswerMap, ch: string): (t: Tally)
    requires n <= |qids|
    ensures t.correct <= t.total <= n
  {
    if n == 0 then Tally(0, 0)
    else
      var t0 := ChapterTally(qids, n - 1, progress, ch);
      var q := qids[n - 1];
      if ChapterOf(q) == ch then Tally(t0.total + 1, t0.correct + (if q in progress && progress[q].correct then 1 else 0))
      else t0
  }

  /** The chapters of the first `n` quiz ids, each once, in order of first appearance. */
  function Chapters(qids: seq<string>, n: nat): (chs: seq<string>)
    requires n <= |qids|
    ensures forall i, j :: 0 <= i < j < |chs| ==> chs[i] != chs[j]
    ensures |chs| <= n
  {
    if n == 0 then []
    else
      var chs := Chapters(qids, n - 1);
      var c := ChapterOf(qids[n - 1]);
      if c in chs then chs else chs + [c]
  }

  /** The chapters listed are exactly those some quiz id belongs to. */
  lemma {:induction false} ChaptersAreThoseOfQuizzes(qids: seq<string>, n: nat, c: string)
    requires n <= |qids|
    ensures c in Chapters(qids, n) <==> exists i :: 0 <= i < n && ChapterOf(qids[i]) == c
  {
    if n > 0 {
      ChaptersAreThoseOfQuizzes(qids, n - 1, c);
    }
  }

  /** A chapter none of the first `n` quiz ids belongs to has an empty tally. */
  lemma {:induction false} TallyOfAbsentChapter(qids: seq<string>, n: nat, progress: AnswerMap, ch: string)
    requires n <= |qids|
    requires ch !in Chapters(qids, n)
    ensures ChapterTally(qids, n, progress, ch) == Tally(0, 0)
  {
    if n > 0 {
      TallyOfAbsentChapter(qids, n - 1, progress, ch);
    }
  }

  /** A chapter one of the first `n` quiz ids belongs to has at least one answer. */
  lemma {:induction false} TallyOfPresentChapter(qids: seq<string>, n: nat, progress: AnswerMap, ch: string)
    requires n <= |qids|
    requires ch in Chapters(qids, n)
    ensures ChapterTally(qids, n, progress, ch).total >= 1
  {
    if ChapterOf(qids[n - 1]) != ch {
      TallyOfPresentChapter(qids, n - 1, progress, ch);
    }
  }

  /** `order` and `tallies` are the chapters and tallies of the first `n` quiz ids. */
  ghost predicate TalliedUpTo(qids: seq<string>, n: nat, progress: AnswerMap,
                              order: seq<string>, tallies: map<string, Tally>)
    requires n <= |qids|
  {
    && order == Chapters(qids, n)
    && (forall ch :: ch in tallies <==> ch in order)
    && (forall ch :: ch in tallies ==> tallies[ch] == ChapterTally(qids, n, progress, ch))
  }

  /**
   * The tally loop of the stats bar: for each answered quiz id, in key order, add one to its
   * chapter's total and, when the answer was right, one to its correct count.
   */
  method TallyChapters(qids: seq<string>, progress: AnswerMap)
    returns (order: seq<string>, tallies: map<string, Tally>)
    ensures order == Chapters(qids, |qids|)
    ensures forall ch :: ch in tallies <==> ch in order
    ensures forall ch :: ch in tallies ==> tallies[ch] == ChapterTally(qids, |qids|, progress, ch)
    ensures forall ch :: ch in tallies ==> 1 <= tallies[ch].total && WellFormed(tallies[ch])
  {
    order, tallies := [], map[];
    var i := 0;
    while i < |qids|
      invariant 0 <= i <= |qids|
      invariant TalliedUpTo(qids, i, progress, order, tallies)
    {
      order, tallies := CountQuiz(qids, i, progress, order, tallies);
      i := i + 1;
    }
    forall ch | ch in tallies ensures 1 <= tallies[ch].total {
      TallyOfPresentChapter(qids, |qids|, progress, ch);
    }
  }

  /** One step of the tally loop: count quiz id `n` in its chapter, first giving a new chapter an empty tally. */
  method CountQuiz(qids: seq<string>, n: nat, progress: AnswerMap, order: seq<string>, tallies: map<string, Tally>)
    returns (order': seq<string>, tallies': map<string, Tally>)
    requires n < |qids| && TalliedUpTo(qids, n, progress, order, tallies)
    ensures TalliedUpTo(qids, n + 1, progress, order', tallies')
  {
    var qid := qids[n];
    var ch := ChapterOf(qid);
    order', tallies' := order, tallies;
    if ch !in tallies' {
      TallyOfAbsentChapter(qids, n, progress, ch);
      tallies' := tallies'[ch := Tally(0, 0)];
      order' := order' + [ch];
    }
    var t := tallies'[ch];
    assert t == ChapterTally(qids, n, progress, ch);
    assert order' == Chapters(qids, n + 1);
    ghost var init := tallies';
    tallies' := tallies'[ch := Tally(t.total + 1, t.correct + (if qid in progress && progress[qid].correct then 1 else 0))];
    forall c | c in tallies' ensures tallies'[c] == ChapterTally(qids, n + 1, progress, c) {
      if c != ch {
        assert tallies'[c] == init[c] == tallies[c];
      }
    }
  }

  /** Sum of the totals of chapters `chs` over the first `n` quiz ids. */
  function SumTotals(chs: seq<string>, qids: seq<string>, n: nat, progress: AnswerMap): nat
    requires n <= |qids|
  {
    if chs == [] then 0
    else SumTotals(chs[..|chs| - 1], qids, n, progress) + ChapterTally(qids, n, progress, chs[|chs| - 1]).total
  }

  lemma {:induction false} SumTotalsStep(chs: seq<string>, qids: seq<string>, n: nat, progress: AnswerMap)
    requires 0 < n <= |qids|
    requires forall i, j :: 0 <= i < j < |chs| ==> chs[i] != chs[j]
    ensures SumTotals(chs, qids, n, progress)
      == SumTotals(chs, qids, n - 1, progress) + (if ChapterOf(qids[n - 1]) in chs then 1 else 0)
  {
    if chs != [] {
      var init := chs[..|chs| - 1];
      SumTotalsStep(init, qids, n, progress);
      assert forall x :: x in chs <==> x in init || x == chs[|chs| - 1];
    }
  }

  /** Every answered quiz is counted in exactly one chapter: the chapter totals add up to the number of answers. */
  lemma {:induction false} TotalsCountEveryAnswer(qids: seq<string>, n: nat, progress: AnswerMap)
    requires n <= |qids|
    ensures SumTotals(Chapters(qids, n), qids, n, progress) == n
  {
    if n > 0 {
      TotalsCountEveryAnswer(qids, n - 1, progress);
      ChaptersStep(qids, n, progress);
      SumTotalsStep(Chapters(qids, n), qids, n, progress);
    }
  }

  /** One more quiz id lists its chapter, and any chapter it adds has no answers among the earlier ids. */
  lemma {:induction false} ChaptersStep(qids: seq<string>, n: nat, progress: AnswerMap)
    requires 0 < n <= |qids|
    ensures ChapterOf(qids[n - 1]) in Chapters(qids, n)
    ensures SumTotals(Chapters(qids, n), qids, n - 1, progress)
      == SumTotals(Chapters(qids, n - 1), qids, n - 1, progress)
  {
    var prev := Chapters(qids, n - 1);
    var c := ChapterOf(qids[n - 1]);
    if c !in prev {
      TallyOfAbsentChapter(qids, n - 1, progress, c);
      AppendEmptyChapter(prev, c, qids, n - 1, progress);
    }
  }

  /** Adding a chapter with no answers leaves the sum of totals as it is. */
  lemma {:induction false} AppendEmptyChapter(chs: seq<string>, c: string, qids: seq<string>, n: nat, progress: AnswerMap)
    requires n <= |qids| && ChapterTally(qids, n, progress, c).total == 0
    ensures SumTotals(chs + [c], qids, n, progress) == SumTotals(chs, qids, n, progress)
  {
    assert (chs + [c])[..|chs|] == chs;
  }

  lemma {:induction false} DistinctListSize(s: seq<string>)
    requires forall i, j :: 0 <= i < j < |s| ==> s[i] != s[j]
    ensures |set x | x in s| == |s|
  {
    if s != [] {
      var init := s[..|s| - 1];
      DistinctListSize(init);
      assert (set x | x in s) == (set x | x in init) + {s[|s| - 1]};
    }
  }

  /** With `qids` the key list of the answer record, the chapter totals add up to its size. */
  lemma {:induction false} TotalsCountStoredAnswers(qids: seq<string>, progress: AnswerMap)
    requires IsKeyList(qids, progress)
    ensures SumTotals(Chapters(qids, |qids|), qids, |qids|, progress) == |progress|
  {
    TotalsCountEveryAnswer(qids, |qids|, progress);
    DistinctListSize(qids);
    assert (set x | x in qids) == progress.Keys;
  }

  /** A chapter every one of whose recorded quizzes was answered correctly. */
  predicate FullyCorrect(t: Tally) {
    t.total > 0 && t.correct == t.total
  }

  /** The chapters of `order` whose tally is fully correct, in order, each once. */
  function CompletedChapters(order: seq<string>, tallies: map<string, Tally>): (done: seq<string>)
    requires forall i, j :: 0 <= i < j < |order| ==> order[i] != order[j]
    requires forall ch :: ch in order ==> ch in tallies
    ensures forall ch :: ch in done <==> ch in order && FullyCorrect(tallies[ch])
    ensures forall i, j :: 0 <= i < j < |done| ==> done[i] != done[j]
    ensures |done| <= |order|
  {
    if order == [] then []
    else
      var init := order[..|order| - 1];
      var ch := order[|order| - 1];
      assert forall x :: x in order <==> x in init || x == ch;
      CompletedChapters(init, tallies) + (if FullyCorrect(tallies[ch]) then [ch] else [])
  }

  /** Counting the completed list counts the fully correct chapters, each once. */
  lemma {:induction false} CompletedCountIsSetSize(order: seq<string>, tallies: map<string, Tally>)
    requires forall i, j :: 0 <= i < j < |order| ==> order[i] != order[j]
    requires forall ch :: ch in tallies <==> ch in order
    ensures |CompletedChapters(order, tallies)| == |set ch | ch in tallies && FullyCorrect(tallies[ch])|
  {
    var done := CompletedChapters(order, tallies);
    DistinctListSize(done);
    assert (set x | x in done) == (set ch | ch in tallies && FullyCorrect(tallies[ch]));
  }

  /**
   * The completed-chapter figure of the stats bar: tally the answers by chapter, then count
   * the chapters with at least one answer and every answer correct.
   */
  method CountCompleted(qids: seq<string>, progress: AnswerMap) returns (completed: nat)
    ensures completed == |CompletedChapters(Chapters(qids, |qids|), ChapterTallies(qids, progress))|
    ensures var tallies := ChapterTallies(qids, progress);
      completed == |set ch | ch in tallies && FullyCorrect(tallies[ch])|
    ensures completed <= |Chapters(qids, |qids|)|
  {
    var order, tallies := TallyChapters(qids, progress);
    assert tallies == ChapterTallies(qids, progress);
    completed := 0;
    var i := 0;
    while i < |order|
      invariant 0 <= i <= |order|
      invariant completed == |CompletedChapters(order[..i], tallies)|
    {
      assert order[..i + 1][..i] == order[..i];
      if tallies[order[i]].correct == tallies[order[i]].total && tallies[order[i]].total > 0 {
        completed := completed + 1;
      }
      i := i + 1;
    }
    assert order[..i] == order;
    CompletedCountIsSetSize(order, tallies);
  }

  /** The tally of every chapter of `qids`, keyed by chapter. */
  function ChapterTallies(qids: seq<string>, progress: AnswerMap): (tallies: map<string, Tally>)
    ensures forall ch :: ch in tallies <==> ch in Chapters(qids, |qids|)
  {
    map ch | ch in Chapters(qids, |qids|) :: ChapterTally(qids, |qids|, progress, ch)
  }

  /** A learning path: a named, fixed group of chapters. */
  datatype Path = Path(name: string, chapters: seq<string>)

  const PATHS: seq<Path> := [
    Path("fundamentals", ["ch01", "ch02", "ch03", "ch04", "ch05", "ch06"]),
    Path("intermediate", ["ch07", "ch08", "ch09", "ch10", "ch11", "ch12"]),
    Path("advanced", ["ch13", "ch14", "ch15", "ch16", "ch17", "ch18", "ch19"]),
    Path("expert", ["ch20", "ch21", "ch22"])
  ]

  /** The id of chapter `k` (below 100): `ch` and two digits. */
  function ChapterName(k: nat): string
    requires k < 100
  {
    "ch" + [Text.DigitChar(k / 10), Text.DigitChar(k % 10)]
  }

  lemma {:induction false} ChapterNameInjective(a: nat, b: nat)
    requires a < 100 && b < 100 && ChapterName(a) == ChapterName(b)
    ensures a == b
  {
    assert ChapterName(a)[2] == ChapterName(b)[2] && ChapterName(a)[3] == ChapterName(b)[3];
  }

  /** The chapters of all paths, path after path. */
  function PathChapters(paths: seq<Path>): seq<string> {
    if paths == [] then [] else paths[0].chapters + PathChapters(paths[1..])
  }

  /** `chs` lists the chapters numbered `first`, `first + 1`, ... in turn. */
  predicate NumberedFrom(chs: seq<string>, first: nat)
    requires first + |chs| <= 100
  {
    forall k :: 0 <= k < |chs| ==> chs[k] == ChapterName(first + k)
  }

  lemma {:induction false} NumberedConcat(a: seq<string>, b: seq<string>, first: nat)
    requires first + |a| + |b| <= 100
    requires NumberedFrom(a, first) && NumberedFrom(b, first + |a|)
    ensures NumberedFrom(a + b, first)
  {
    forall k | 0 <= k < |a + b| ensures (a + b)[k] == ChapterName(first + k) {
      if k >= |a| {
        assert (a + b)[k] == b[k - |a|];
      }
    }
  }

  /** Consecutively numbered chapters are distinct. */
  lemma {:induction false} NumberedDistinct(chs: seq<string>, first: nat)
    requires first + |chs| <= 100 && NumberedFrom(chs, first)
    ensures forall i, j :: 0 <= i < j < |chs| ==> chs[i] != chs[j]
  {
    forall i, j | 0 <= i < j < |chs| ensures chs[i] != chs[j] {
      if chs[i] == chs[j] {
        ChapterNameInjective(first + i, first + j);
      }
    }
  }

  /** The number of the first chapter of each path. */
  const FIRST_CHAPTERS: seq<nat> := [1, 7, 13, 20]

  /** Each path lists its chapters by consecutive number, starting at its first chapter. */
  lemma {:induction false} PathIsNumbered(p: nat)
    requires p < |PATHS|
    ensures FIRST_CHAPTERS[p] + |PATHS[p].chapters| <= 100
    ensures NumberedFrom(PATHS[p].chapters, FIRST_CHAPTERS[p])
  {
    var chs, first := PATHS[p].chapters, FIRST_CHAPTERS[p];
    forall k | 0 <= k < |chs| ensures chs[k] == ChapterName(first + k) {
      var n := first + k;
      assert ChapterName(n) == "ch" + [Text.DigitChar(n / 10), Text.DigitChar(n % 10)];
    }
  }

  /** The four paths list `ch01` to `ch22` once each: they are disjoint and cover every chapter. */
  lemma PathsPartitionChapters()
    ensures |PathChapters(PATHS)| == 22
    ensures NumberedFrom(PathChapters(PATHS), 1)
    ensures forall i, j :: 0 <= i < j < |PathChapters(PATHS)| ==> PathChapters(PATHS)[i] != PathChapters(PATHS)[j]
  {
    var p0, p1, p2, p3 := PATHS[0].chapters, PATHS[1].chapters, PATHS[2].chapters, PATHS[3].chapters;
    assert PathChapters(PATHS) == p0 + (p1 + (p2 + p3));
    PathIsNumbered(0);
    PathIsNumbered(1);
    PathIsNumbered(2);
    PathIsNumbered(3);
    NumberedConcat(p2, p3, 13);
    NumberedConcat(p1, p2 + p3, 7);
    NumberedConcat(p0, p1 + (p2 + p3), 1);
    NumberedDistinct(PathChapters(PATHS), 1);
  }

  /**
   * `Math.round(correct / total * 100)`, or 0 when there is nothing to count: a whole
   * percentage within half a point of the exact ratio.
   */
  function Percent(correct: nat, total: nat): (pct: nat)
    requires correct <= total
    ensures pct <= 100
    ensures total == 0 ==> pct == 0
    ensures total > 0 && correct == total ==> pct == 100
    ensures total > 0 && correct == 0 ==> pct == 0
    ensures total > 0 ==> -(total as int) <= 2 * total * pct - 200 * correct <= total
  {
    if total > 0 then
      RoundedRatio(correct, total);
      (200 * correct + total) / (2 * total)
    else 0
  }

  lemma MulMonotone(d: int, x: int, y: int)
    requires d > 0 && x <= y
    ensures d * x <= d * y
  {
  }

  /** Integer division lands in `[lo, hi)` when the dividend lies between the matching multiples. */
  lemma {:induction false} DivBetween(a: int, d: int, lo: int, hi: int)
    requires d > 0 && d * lo <= a < d * hi
    ensures lo <= a / d < hi
  {
    var q := a / d;
    assert a == d * q + a % d && 0 <= a % d < d;
    if q >= hi {
      MulMonotone(d, hi, q);
    }
    if q < lo {
      MulMonotone(d, q, lo - 1);
    }
  }

  lemma {:induction false} RoundedRatio(correct: nat, total: nat)
    requires 0 < total && correct <= total
    ensures var q := (200 * correct + total) / (2 * total);
      && 0 <= q <= 100
      && (correct == total ==> q == 100)
      && (correct == 0 ==> q == 0)
      && -(total as int) <= 2 * total * q - 200 * correct <= total
  {
    var a, d := 200 * correct + total, 2 * total;
    DivBetween(a, d, 0, 101);
    if correct == total {
      DivBetween(a, d, 100, 101);
    }
    if correct == 0 {
      DivBetween(a, d, 0, 1);
    }
    var q := a / d;
    assert a == d * q + a % d && 0 <= a % d < d;
  }

  /** The summed tally of the first `n` chapters of a path, skipping chapters with no answers. */
  function PathTally(chapters: seq<string>, n: nat, tallies: map<string, Tally>): (t: Tally)
    requires n <= |chapters|
    requires forall ch :: ch in tallies ==> WellFormed(tallies[ch])
    ensures t.correct <= t.total
  {
    if n == 0 then Tally(0, 0)
    else
      var t0 := PathTally(chapters, n - 1, tallies);
      var ch := chapters[n - 1];
      if ch in tallies then Tally(t0.total + tallies[ch].total, t0.correct + tallies[ch].correct) else t0
  }

  /** The percentage shown on a path card: sum the tallies of the path's answered chapters, then round. */
  method PathPercent(chapters: seq<string>, tallies: map<string, Tally>) returns (pct: nat)
    requires forall ch :: ch in tallies ==> WellFormed(tallies[ch])
    ensures var t := PathTally(chapters, |chapters|, tallies); pct == Percent(t.correct, t.total)
  {
    var totalQuizzes: nat, correctQuizzes: nat := 0, 0;
    var i := 0;
    while i < |chapters|
      invariant 0 <= i <= |chapters|
      invariant Tally(totalQuizzes, correctQuizzes) == PathTally(chapters, i, tallies)
    {
      var ch := chapters[i];
      if ch in tallies {
        totalQuizzes := totalQuizzes + tallies[ch].total;
        correctQuizzes := correctQuizzes + tallies[ch].correct;
      }
      i := i + 1;
    }
    pct := Percent(correctQuizzes, totalQuizzes);
  }

  /** A path none of whose chapters has an answer shows 0%. */
  lemma {:induction false} PathWithoutAnswers(chapters: seq<string>, n: nat, tallies: map<string, Tally>)
    requires n <= |chapters|
    requires forall ch :: ch in tallies ==> WellFormed(tallies[ch])
    requires forall i :: 0 <= i < n ==> chapters[i] !in tallies
    ensures PathTally(chapters, n, tallies) == Tally(0, 0)
  {
    if n > 0 {
      PathWithoutAnswers(chapters, n - 1, tallies);
    }
  }

  /** A path whose answered chapters were all answered correctly shows 100% (or 0% with no answers). */
  lemma {:induction false} PathAllCorrect(chapters: seq<string>, n: nat, tallies: map<string, Tally>)
    requires n <= |chapters|
    requires forall ch :: ch in tallies ==> WellFormed(tallies[ch])
    requires forall i :: 0 <= i < n && chapters[i] in tallies ==> tallies[chapters[i]].correct == tallies[chapters[i]].total
    ensures var t := PathTally(chapters, n, tallies); t.correct == t.total
    ensures var t := PathTally(chapters, n, tallies); Percent(t.correct, t.total) == if t.total == 0 then 0 else 100
  {
    if n > 0 {
      PathAllCorrect(chapters, n - 1, tallies);
    }
  }

  /** The score of a chapter badge over the first `n` quiz ids on the page whose id starts with `chapter`. */
  function BadgeTally(chapter: string, pageIds: seq<string>, n: nat, progress: AnswerMap): (t: Tally)
    requires n <= |pageIds|
    ensures t.correct <= t.total <= n
  {
    if n == 0 then Tally(0, 0)
    else
      var t0 := BadgeTally(chapter, pageIds, n - 1, progress);
      var q := pageIds[n - 1];
      if chapter <= q then
        Tally(t0.total + 1, t0.correct + (if q in progress && progress[q].correct then 1 else 0))
      else t0
  }

  /**
   * updateScoreBadges for one badge: a badge with no chapter is skipped; otherwise it counts the
   * quizzes on the page whose id starts with the chapter, and those answered correctly.
   */
  method ScoreBadge(chapter: string, pageIds: seq<string>, progress: AnswerMap) returns (score: Option<Tally>)
    ensures chapter == "" ==> score == None
    ensures chapter != "" ==> score == Some(BadgeTally(chapter, pageIds, |pageIds|, progress))
  {
    if chapter == "" {
      return None;
    }
    var total, correct := 0, 0;
    var i := 0;
    while i < |pageIds|
      invariant 0 <= i <= |pageIds|
      invariant Tally(total, correct) == BadgeTally(chapter, pageIds, i, progress)
    {
      var qid := pageIds[i];
      if chapter <= qid {
        total := total + 1;
        if qid in progress && progress[qid].correct {
          correct := correct + 1;
        }
      }
      i := i + 1;
    }
    return Some(Tally(total, correct));
  }

  /**
   * The badge agrees with the stats-bar tally of the chapter when the page's quizzes are the
   * answered ones and no quiz id of another chapter starts with this chapter's id.
   */
  lemma {:induction false} BadgeAgreesWithChapterTally(chapter: string, qids: seq<string>, n: nat, progress: AnswerMap)
    requires n <= |qids|
    requires forall i :: 0 <= i < n && chapter <= qids[i] ==> ChapterOf(qids[i]) == chapter
    ensures BadgeTally(chapter, qids, n, progress) == ChapterTally(qids, n, progress, chapter)
  {
    if n > 0 {
      BadgeAgreesWithChapterTally(chapter, qids, n - 1, progress);
      ChapterOfIsPrefixBeforeDashQ(qids[n - 1]);
    }
  }
}
