/**
 * The stateful side of the quiz layer: the two browser-storage records, the day-streak and
 * XP updates, a quiz widget's submit handler, the fill-in-the-blank check, and reset.
 */
module Quiz {
  import opened Wrappers
  import opened Records
  import opened Text
  import Streak

  /** What reading a storage key yields: nothing stored, text that does not parse or parses to a falsy value, or a record. */
  datatype Slot<T> = Absent | Corrupt | Stored(value: T)

  /**
   * Browser storage as far as the quiz layer uses it: one slot per key. A write that the
   * browser refuses (storage full or disabled) is swallowed and leaves the slot as it was;
   * `writable` says whether writes currently succeed.
   */
  class Store {
    var answers: Slot<AnswerMap>
    var gamification: Slot<Gamification>
    var writable: bool

    constructor (answers: Slot<AnswerMap>, gamification: Slot<Gamification>, writable: bool)
      ensures this.answers == answers && this.gamification == gamification && this.writable == writable
    {
      this.answers := answers;
      this.gamification := gamification;
      this.writable := writable;
    }

    /** loadProgress: the stored answer record, or the empty record when it is missing or unreadable. */
    function LoadProgress(): (p: AnswerMap)
      reads this
      ensures answers.Stored? ==> p == answers.value
      ensures !answers.Stored? ==> p == DEFAULT_ANSWERS
    {
      if answers.Stored? then answers.value else DEFAULT_ANSWERS
    }

    /** loadGamification: the stored record, or zero XP, no streak, no visit, no chapters. */
    function LoadGamification(): (g: Gamification)
      reads this
      ensures gamification.Stored? ==> g == gamification.value
      ensures !gamification.Stored? ==> g == DEFAULT_GAMIFICATION
    {
      if gamification.Stored? then gamification.value else DEFAULT_GAMIFICATION
    }

    /** saveProgress: a successful write reads back as the same record; a failed one changes nothing. */
    method SaveProgress(p: AnswerMap)
      modifies this`answers
      ensures answers == if writable then Stored(p) else old(answers)
      ensures writable ==> LoadProgress() == p
    {
      if writable {
        answers := Stored(p);
      }
    }

    /** saveGamification: a successful write reads back as the same record; a failed one changes nothing. */
    method SaveGamification(g: Gamification)
      modifies this`gamification
      ensures gamification == if writable then Stored(g) else old(gamification)
      ensures writable ==> LoadGamification() == g
    {
      if writable {
        gamification := Stored(g);
      }
    }

    /**
     * updateStreak on day `today`: returns the record after the visit; a repeat visit on the
     * same day returns the loaded record and writes nothing, any other visit saves the result.
     */
    method UpdateStreak(today: Day) returns (g: Gamification)
      modifies this`gamification
      ensures g == Streak.Visit(old(LoadGamification()), today)
      ensures old(LoadGamification()).lastVisit == Some(today) ==> gamification == old(gamification)
      ensures old(LoadGamification()).lastVisit != Some(today) ==>
        gamification == if writable then Stored(g) else old(gamification)
      ensures LoadGamification().xp == old(LoadGamification()).xp
      ensures LoadGamification().completedChapters == old(LoadGamification()).completedChapters
    {
      g := LoadGamification();
      if g.lastVisit == Some(today) {
        return;
      }
      var yesterday := today - 1;
      if g.lastVisit == Some(yesterday) {
        g := g.(streak := g.streak + 1);
      } else if g.lastVisit != Some(today) {
        g := g.(streak := 1);
      }
      g := g.(lastVisit := Some(today));
      SaveGamification(g);
    }

    /** addXP: load the record, add `amount` to its XP alone, and save it. */
    method AddXP(amount: int)
      modifies this`gamification
      ensures gamification == if writable
        then Stored(old(LoadGamification()).(xp := old(LoadGamification()).xp + amount))
        else old(gamification)
      ensures amount >= 0 ==> LoadGamification().xp >= old(LoadGamification()).xp
    {
      var g := LoadGamification();
      g := g.(xp := g.xp + amount);
      SaveGamification(g);
    }

    /**
     * The check button of a fill-in-the-blank exercise: mark each input, and award the
     * correct-answer XP whenever every input matches, on every such check.
     */
    method CheckFillBlank(inputs: seq<BlankInput>) returns (allCorrect: bool, marks: seq<bool>)
      modifies this`gamification
      ensures allCorrect <==> forall i :: 0 <= i < |inputs| ==> BlankMatches(inputs[i])
      ensures |marks| == |inputs| && forall i :: 0 <= i < |inputs| ==> marks[i] == BlankMatches(inputs[i])
      ensures gamification == if allCorrect && writable
        then Stored(old(LoadGamification()).(xp := old(LoadGamification()).xp + XP_PER_CORRECT))
        else old(gamification)
    {
      allCorrect, marks := CheckBlanks(inputs);
      if allCorrect {
        AddXP(XP_PER_CORRECT);
      }
    }

    /** The reset button, once confirmed: both records are removed and read back as defaults. */
    method Reset()
      modifies this`answers, this`gamification
      ensures answers == Absent && gamification == Absent
      ensures LoadProgress() == DEFAULT_ANSWERS && LoadGamification() == DEFAULT_GAMIFICATION
    {
      answers := Absent;
      gamification := Absent;
    }
  }

  /** How showResult marks one option's label. */
  datatype Mark = Unmarked | MarkedCorrect | MarkedIncorrect

  /** The right option is marked correct; the chosen option, when wrong, is marked incorrect. */
  function MarkFor(option: string, selected: string, correctAnswer: string): (m: Mark)
    ensures m == MarkedCorrect <==> option == correctAnswer
    ensures m == MarkedIncorrect <==> option == selected && selected != correctAnswer
  {
    if option == correctAnswer then MarkedCorrect
    else if option == selected && selected != correctAnswer then MarkedIncorrect
    else Unmarked
  }

  function MarkAll(options: seq<string>, selected: string, correctAnswer: string): (marks: seq<Mark>)
    ensures |marks| == |options|
    ensures forall i :: 0 <= i < |options| ==> marks[i] == MarkFor(options[i], selected, correctAnswer)
  {
    seq(|options|, i requires 0 <= i < |options| => MarkFor(options[i], selected, correctAnswer))
  }

  /**
   * With distinct option values, at most one label is marked correct and at most one incorrect,
   * and a label is marked incorrect exactly when the chosen option is a wrong one on offer.
   */
  lemma {:induction false} MarksSingleOut(options: seq<string>, selected: string, correctAnswer: string)
    requires forall i, j :: 0 <= i < j < |options| ==> options[i] != options[j]
    ensures var marks := MarkAll(options, selected, correctAnswer);
      && (forall i, j :: 0 <= i < j < |marks| ==> !(marks[i] == marks[j] == MarkedCorrect))
      && (forall i, j :: 0 <= i < j < |marks| ==> !(marks[i] == marks[j] == MarkedIncorrect))
      && ((exists i :: 0 <= i < |marks| && marks[i] == MarkedIncorrect)
          <==> selected != correctAnswer && selected in options)
  {
    var marks := MarkAll(options, selected, correctAnswer);
    if selected != correctAnswer && selected in options {
      var k :| 0 <= k < |options| && options[k] == selected;
      assert marks[k] == MarkedIncorrect;
    }
  }

  /**
   * One quiz on a page. `seen` is the answer record as the submit handler last loaded it
   * (at set-up, then after each submission); `disabled` covers the radios and the button.
   */
  class QuizWidget {
    const quizId: string
    const correctAnswer: string
    const options: seq<string>
    var seen: AnswerMap
    var disabled: bool
    var marks: seq<Mark>

    /** Set-up in initQuizzes: a quiz that already has a stored answer is shown answered and disabled. */
    constructor (store: Store, quizId: string, correctAnswer: string, options: seq<string>)
      ensures this.quizId == quizId && this.correctAnswer == correctAnswer && this.options == options
      ensures seen == store.LoadProgress()
      ensures disabled <==> quizId in seen
      ensures quizId in seen ==> marks == MarkAll(options, seen[quizId].selected, correctAnswer)
      ensures quizId !in seen ==> marks == seq(|options|, _ => Unmarked)
    {
      this.quizId := quizId;
      this.correctAnswer := correctAnswer;
      this.options := options;
      var progress := store.LoadProgress();
      seen := progress;
      if quizId in progress {
        marks := MarkAll(options, progress[quizId].selected, correctAnswer);
        disabled := true;
      } else {
        marks := seq(|options|, _ => Unmarked);
        disabled := false;
      }
    }

    /**
     * The submit button's handler. A disabled button delivers no click, and with no option
     * chosen the handler returns at once: in both cases nothing happens. Otherwise the result
     * is shown and the widget disabled; the answer `{selected, correct}` overwrites this quiz's
     * entry in a freshly loaded record, which is saved; the correct-answer XP is awarded only
     * when the answer is right and the handler had seen no answer for this quiz.
     */
    method Submit(store: Store, selected: Option<string>)
      modifies this, store
      ensures store.writable == old(store.writable)
      ensures old(disabled) || selected.None? ==> unchanged(this) && unchanged(store)
      ensures (old(disabled) <==> old(quizId in seen)) ==> (disabled <==> quizId in seen)
      ensures !old(disabled) && selected.Some? ==>
        var v := selected.value;
        && disabled
        && marks == MarkAll(options, v, correctAnswer)
        && seen == old(store.LoadProgress())[quizId := QuizAnswer(v, v == correctAnswer)]
        && store.answers == (if store.writable then Stored(seen) else old(store.answers))
        && store.gamification == (if v == correctAnswer && quizId !in old(seen) && store.writable
             then Stored(old(store.LoadGamification()).(xp := old(store.LoadGamification()).xp + XP_PER_CORRECT))
             else old(store.gamification))
      ensures !old(disabled) && selected.Some? ==> quizId in seen
      ensures !old(disabled) && selected.Some? ==> forall q :: q != quizId ==>
        (q in seen <==> q in old(store.LoadProgress())) && (q in seen ==> seen[q] == old(store.LoadProgress())[q])
    {
      if disabled || selected.None? {
        return;
      }
      var value := selected.value;
      var isNew := quizId !in seen;
      marks := MarkAll(options, value, correctAnswer);
      disabled := true;

      var progress := store.LoadProgress();
      progress := progress[quizId := QuizAnswer(value, value == correctAnswer)];
      seen := progress;
      store.SaveProgress(progress);

      if value == correctAnswer && isNew {
        store.AddXP(XP_PER_CORRECT);
      }
    }
  }

  /** One blank of an exercise: what the reader typed and the `data-answer` attribute, if any. */
  datatype BlankInput = BlankInput(value: string, answer: Option<string>)

  /** A blank is right when the typed text equals the expected answer, both trimmed and lower-cased. */
  predicate BlankMatches(b: BlankInput)
    ensures b.answer == Some(b.value) ==> BlankMatches(b)
  {
    Normalize(b.value) == Normalize(b.answer.GetOr(""))
  }

  /** A blank without an expected answer matches exactly when nothing but whitespace was typed. */
  lemma {:induction false} BlankWithoutAnswer(b: BlankInput)
    requires b.answer.None?
    ensures BlankMatches(b) <==> Trim(b.value) == []
  {
  }

  /**
   * The verdict on a blank does not change when whitespace is typed at either end
   * or when the typed text is lower-cased.
   */
  lemma {:induction false} BlankIgnoresPaddingAndCase(b: BlankInput, w1: string, w2: string)
    requires AllSpace(w1) && AllSpace(w2)
    ensures BlankMatches(BlankInput(w1 + b.value + w2, b.answer)) == BlankMatches(b)
    ensures BlankMatches(BlankInput(Lower(b.value), b.answer)) == BlankMatches(b)
  {
    TrimIgnoresPadding(w1, b.value, w2);
    NormalizeIgnoresCase(b.value);
  }

  /** The marking loop of the check button: clear `allCorrect` at the first blank that does not match. */
  method CheckBlanks(inputs: seq<BlankInput>) returns (allCorrect: bool, marks: seq<bool>)
    ensures |marks| == |inputs|
    ensures forall i :: 0 <= i < |inputs| ==> marks[i] == BlankMatches(inputs[i])
    ensures allCorrect <==> forall i :: 0 <= i < |inputs| ==> BlankMatches(inputs[i])
  {
    allCorrect := true;
    marks := [];
    var i := 0;
    while i < |inputs|
      invariant 0 <= i <= |inputs|
      invariant |marks| == i
      invariant forall k :: 0 <= k < i ==> marks[k] == BlankMatches(inputs[k])
      invariant allCorrect <==> forall k :: 0 <= k < i ==> BlankMatches(inputs[k])
    {
      var matches := MarkBlank(inputs[i]);
      marks := marks + [matches];
      if !matches {
        allCorrect := false;
      }
      i := i + 1;
    }
  }

  /** The comparison for one blank, split out of the marking loop to keep its proof small. */
  method MarkBlank(b: BlankInput) returns (matches: bool)
    ensures matches == BlankMatches(b)
  {
    var expected := Normalize(b.answer.GetOr(""));
    var userVal := Normalize(b.value);
    matches := userVal == expected;
  }
}
