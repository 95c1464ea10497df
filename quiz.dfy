/** The quiz engine of the `QuizGame` component: a walk through a fixed,
    non-empty question bank with a double-answer guard, a score counter and
    a finished flag, plus the per-option colouring of the current question. */
module Quiz {
  import opened Wrappers

  /** One entry of the question bank (`Question` in types.ts). */
  datatype Question = Question(id: int, question: string, options: seq<string>,
                               correctAnswer: int, explanation: string)

  /** The bank the component reads: non-empty, and every `correctAnswer`
      indexes one of its question's options. */
  predicate WellFormedBank(bank: seq<Question>)
  {
    |bank| > 0 &&
    forall i :: 0 <= i < |bank| ==> 0 <= bank[i].correctAnswer < |bank[i].options|
  }

  /** The four state cells `currentIdx`, `selectedAnswer`, `score`, `isFinished`. */
  datatype QuizState = QuizState(currentIdx: int, selectedAnswer: Option<int>,
                                 score: int, isFinished: bool)

  /** The `useState` initial values, also what `resetQuiz` restores. */
  const Initial := QuizState(0, None, 0, false)

  /** 1 while an answer is selected for the current question, else 0. */
  function Answered(s: QuizState): nat
  {
    if s.selectedAnswer.Some? then 1 else 0
  }

  /** What every reachable state satisfies: the current question exists and
      the score counts at most one point per question reached so far. */
  predicate Inv(bank: seq<Question>, s: QuizState)
  {
    0 <= s.currentIdx < |bank| && 0 <= s.score <= s.currentIdx + Answered(s)
  }

  /** The user actions that change the state. */
  datatype Event = Answer(idx: int) | Next | Reset

  /** `handleAnswer(idx)`. */
  function AnswerStep(bank: seq<Question>, s: QuizState, idx: int): QuizState
    requires 0 <= s.currentIdx < |bank|
  {
    if s.selectedAnswer.Some? then s
    else if idx == bank[s.currentIdx].correctAnswer then
      s.(selectedAnswer := Some(idx), score := s.score + 1)
    else
      s.(selectedAnswer := Some(idx))
  }

  /** `handleNext()`. */
  function NextStep(bank: seq<Question>, s: QuizState): QuizState
  {
    if s.currentIdx < |bank| - 1 then
      s.(currentIdx := s.currentIdx + 1, selectedAnswer := None)
    else
      s.(isFinished := true)
  }

  /** One transition. Every transition keeps the invariant. */
  function Step(bank: seq<Question>, s: QuizState, e: Event): (r: QuizState)
    requires Inv(bank, s)
    ensures Inv(bank, r)
  {
    match e
    case Answer(idx) => AnswerStep(bank, s, idx)
    case Next => NextStep(bank, s)
    case Reset => Initial
  }

  /** The state after a sequence of transitions; it still satisfies the
      invariant, so the current question is always a real one. */
  function Run(bank: seq<Question>, s: QuizState, events: seq<Event>): (r: QuizState)
    requires Inv(bank, s)
    ensures Inv(bank, r)
    decreases |events|
  {
    if events == [] then s else Run(bank, Step(bank, s, events[0]), events[1..])
  }

  /** Running a concatenation runs the two parts one after the other. */
  lemma {:induction false} RunAppend(bank: seq<Question>, s: QuizState, xs: seq<Event>, ys: seq<Event>)
    requires Inv(bank, s)
    ensures Run(bank, s, xs + ys) == Run(bank, Run(bank, s, xs), ys)
    decreases |xs|
  {
    if xs == [] {
      assert xs + ys == ys;
    } else {
      var t := Step(bank, s, xs[0]);
      assert (xs + ys)[0] == xs[0];
      assert (xs + ys)[1..] == xs[1..] + ys;
      calc {
        Run(bank, s, xs + ys);
        Run(bank, t, xs[1..] + ys);
        { RunAppend(bank, t, xs[1..], ys); }
        Run(bank, Run(bank, t, xs[1..]), ys);
      }
    }
  }

  /** The initial state is reachable-state consistent. */
  lemma InitialInv(bank: seq<Question>)
    requires WellFormedBank(bank)
    ensures Inv(bank, Initial)
  {
  }

  /** `handleAnswer` is a no-op once an answer is selected; otherwise it
      selects `idx`, adds exactly one point iff `idx` is the correct option,
      and leaves the question index and the finished flag alone. */
  lemma AnswerEffect(bank: seq<Question>, s: QuizState, idx: int)
    requires Inv(bank, s)
    ensures s.selectedAnswer.Some? ==> Step(bank, s, Answer(idx)) == s
    ensures s.selectedAnswer.None? ==>
              var r := Step(bank, s, Answer(idx));
              r.selectedAnswer == Some(idx) &&
              r.score == (if idx == bank[s.currentIdx].correctAnswer then s.score + 1 else s.score) &&
              r.currentIdx == s.currentIdx && r.isFinished == s.isFinished
  {
  }

  /** A second answer, whatever its value, changes nothing. */
  lemma AnswerTwiceIsAnswerOnce(bank: seq<Question>, s: QuizState, i: int, j: int)
    requires Inv(bank, s)
    ensures Run(bank, s, [Answer(i), Answer(j)]) == Run(bank, s, [Answer(i)])
  {
    var t := Step(bank, s, Answer(i));
    assert Run(bank, s, [Answer(i)]) == t by {
      assert [Answer(i)][1..] == [];
    }
    assert Run(bank, s, [Answer(i), Answer(j)]) == Run(bank, t, [Answer(j)]) by {
      assert [Answer(i), Answer(j)][1..] == [Answer(j)];
    }
    assert Run(bank, t, [Answer(j)]) == Step(bank, t, Answer(j)) by {
      assert [Answer(j)][1..] == [];
    }
  }

  /** `handleNext` before the last question moves to the next one and clears
      the selection; on the last question it only sets the finished flag. */
  lemma NextEffect(bank: seq<Question>, s: QuizState)
    requires Inv(bank, s)
    ensures s.currentIdx < |bank| - 1 ==>
              Step(bank, s, Next) ==
              QuizState(s.currentIdx + 1, None, s.score, s.isFinished)
    ensures s.currentIdx == |bank| - 1 ==>
              Step(bank, s, Next) ==
              QuizState(s.currentIdx, s.selectedAnswer, s.score, true)
  {
  }

  /** The shown final score `score / ISLAMIC_QUESTIONS.length` never exceeds
      the number of questions, and a score is never negative. */
  lemma ScoreBounded(bank: seq<Question>, events: seq<Event>)
    requires WellFormedBank(bank)
    ensures 0 <= Run(bank, Initial, events).score <= |bank|
  {
    var r := Run(bank, Initial, events);
    assert r.score <= r.currentIdx + Answered(r);
  }

  /** `resetQuiz` restores the initial values from any state, whatever ran
      before it, and resetting twice is resetting once. */
  lemma {:induction false} ResetAfterAnything(bank: seq<Question>, s: QuizState, events: seq<Event>)
    requires Inv(bank, s)
    ensures Run(bank, s, events + [Reset]) == Initial
    ensures Run(bank, s, events + [Reset, Reset]) == Initial
  {
    RunAppend(bank, s, events, [Reset]);
    RunAppend(bank, s, events, [Reset, Reset]);
    var t := Run(bank, s, events);
    assert [Reset][1..] == [];
    assert [Reset, Reset][1..] == [Reset];
    assert Run(bank, t, [Reset]) == Initial;
    assert Run(bank, t, [Reset, Reset]) == Run(bank, Initial, [Reset]);
  }

  /** `count` presses of "next". */
  function Nexts(count: nat): (r: seq<Event>)
    ensures |r| == count
  {
    if count == 0 then [] else [Next] + Nexts(count - 1)
  }

  /** Pressing "next" once per remaining question, answered or not, walks to
      the last question and finishes there with the score untouched. */
  lemma {:induction false} NextsFinish(bank: seq<Question>, k: int, sel: Option<int>, score: int)
    requires Inv(bank, QuizState(k, sel, score, false))
    ensures Run(bank, QuizState(k, sel, score, false), Nexts(|bank| - k)) ==
            QuizState(|bank| - 1, if k < |bank| - 1 then None else sel, score, true)
    decreases |bank| - k
  {
    var s := QuizState(k, sel, score, false);
    var evs := Nexts(|bank| - k);
    assert evs[0] == Next && evs[1..] == Nexts(|bank| - k - 1);
    if k == |bank| - 1 {
      assert evs[1..] == [];
    } else {
      NextsFinish(bank, k + 1, None, score);
    }
  }

  /** From a fresh quiz, `ISLAMIC_QUESTIONS.length` presses of "next" end
      finished on the last question. */
  lemma FreshNextsFinish(bank: seq<Question>)
    requires WellFormedBank(bank)
    ensures Run(bank, Initial, Nexts(|bank|)) == QuizState(|bank| - 1, None, 0, true)
  {
    NextsFinish(bank, 0, None, 0);
  }

  /** Answer each question with the given pick and press "next" after it. */
  function Play(picks: seq<int>): (r: seq<Event>)
    ensures |r| == 2 * |picks|
  {
    if picks == [] then [] else [Answer(picks[0]), Next] + Play(picks[1..])
  }

  /** How many picks hit the correct option of the question they answer. */
  function Hits(qs: seq<Question>, picks: seq<int>): (n: nat)
    requires |qs| == |picks|
    ensures n <= |picks|
  {
    if picks == [] then 0
    else (if picks[0] == qs[0].correctAnswer then 1 else 0) + Hits(qs[1..], picks[1..])
  }

  /** Playing the remaining questions `k..` with one pick each, starting
      unanswered, finishes on the last question having added one point per
      correct pick and nothing else. */
  lemma {:induction false} PlayFrom(bank: seq<Question>, k: int, score: int, picks: seq<int>)
    requires Inv(bank, QuizState(k, None, score, false))
    requires |picks| == |bank| - k
    ensures Run(bank, QuizState(k, None, score, false), Play(picks)) ==
            QuizState(|bank| - 1, Some(picks[|picks| - 1]),
                      score + Hits(bank[k..], picks), true)
    decreases |picks|
  {
    var s := QuizState(k, None, score, false);
    var evs := Play(picks);
    var p := picks[0];
    var hit := if p == bank[k].correctAnswer then 1 else 0;
    assert evs[0] == Answer(p) && evs[1..][0] == Next && evs[1..][1..] == Play(picks[1..]);
    var a := Step(bank, s, Answer(p));
    assert a == QuizState(k, Some(p), score + hit, false);
    assert bank[k..][0] == bank[k] && bank[k..][1..] == bank[k + 1..];
    assert Hits(bank[k..], picks) == hit + Hits(bank[k + 1..], picks[1..]);
    assert Run(bank, s, evs) == Run(bank, a, evs[1..]);
    var b := Step(bank, a, Next);
    assert Run(bank, a, evs[1..]) == Run(bank, b, Play(picks[1..]));
    if k == |bank| - 1 {
      assert Play(picks[1..]) == [];
      assert Hits(bank[k + 1..], picks[1..]) == 0;
    } else {
      PlayFrom(bank, k + 1, score + hit, picks[1..]);
    }
  }

  /** The final score of a full play-through is determined by the picks: it
      is exactly the number of correct picks, and the quiz is finished. */
  lemma PlayThrough(bank: seq<Question>, picks: seq<int>)
    requires WellFormedBank(bank) && |picks| == |bank|
    ensures Run(bank, Initial, Play(picks)) ==
            QuizState(|bank| - 1, Some(picks[|picks| - 1]), Hits(bank, picks), true)
  {
    PlayFrom(bank, 0, 0, picks);
    assert bank[0..] == bank;
  }

  /** Three questions with correct options 1, 0, 2 answered 1, 1, 2 (with
      "next" after each) score 2 of 3 and finish. */
  lemma ThreeQuestionScenario(bank: seq<Question>)
    requires WellFormedBank(bank) && |bank| == 3
    requires bank[0].correctAnswer == 1 && bank[1].correctAnswer == 0 && bank[2].correctAnswer == 2
    ensures Run(bank, Initial, Play([1, 1, 2])) == QuizState(2, Some(2), 2, true)
  {
    var picks := [1, 1, 2];
    assert picks[1..] == [1, 2];
    assert Hits(bank[2..], [2]) == 1;
    assert Hits(bank[1..], [1, 2]) == 1;
    assert Hits(bank, picks) == 2;
    PlayThrough(bank, picks);
  }

  // ---- Rendering of the current question ----

  /** How an option button is drawn: plain before an answer is chosen, then
      green for the correct option, red for a wrong choice, faded otherwise. */
  datatype OptionStatus = Neutral | Correct | Wrong | Dimmed

  /** The colour decision for option `idx`. */
  function StatusOf(idx: int, selected: Option<int>, correct: int): OptionStatus
  {
    if selected.None? then Neutral
    else if idx == correct then Correct
    else if idx == selected.value then Wrong
    else Dimmed
  }

  /** `currentQuestion.options.map(...)`: one status per option, in order. */
  function Statuses(q: Question, selected: Option<int>): seq<OptionStatus>
  {
    seq(|q.options|, i => StatusOf(i, selected, q.correctAnswer))
  }

  /** How many entries of `ss` equal `x`. */
  function Count(ss: seq<OptionStatus>, x: OptionStatus): (n: nat)
    ensures n <= |ss|
  {
    if ss == [] then 0 else (if ss[0] == x then 1 else 0) + Count(ss[1..], x)
  }

  lemma {:induction false} CountAbsent(ss: seq<OptionStatus>, x: OptionStatus)
    requires forall i :: 0 <= i < |ss| ==> ss[i] != x
    ensures Count(ss, x) == 0
  {
    if ss != [] {
      CountAbsent(ss[1..], x);
    }
  }

  lemma {:induction false} CountSingle(ss: seq<OptionStatus>, x: OptionStatus, k: int)
    requires 0 <= k < |ss| && ss[k] == x
    requires forall i :: 0 <= i < |ss| && i != k ==> ss[i] != x
    ensures Count(ss, x) == 1
  {
    if k == 0 {
      CountAbsent(ss[1..], x);
    } else {
      CountSingle(ss[1..], x, k - 1);
    }
  }

  /** Before an answer is chosen every option is drawn plain. */
  lemma AllNeutralBeforeSelection(q: Question)
    ensures forall i :: 0 <= i < |q.options| ==> Statuses(q, None)[i] == Neutral
    ensures Count(Statuses(q, None), Neutral) == |q.options|
  {
    CountAllSame(Statuses(q, None), Neutral);
  }

  lemma {:induction false} CountAllSame(ss: seq<OptionStatus>, x: OptionStatus)
    requires forall i :: 0 <= i < |ss| ==> ss[i] == x
    ensures Count(ss, x) == |ss|
  {
    if ss != [] {
      CountAllSame(ss[1..], x);
    }
  }

  /** After an answer is chosen exactly one option, the correct one, is green;
      an option is red iff it is the chosen one and the choice is wrong (so at
      most one is red); every other option is faded and none is plain. */
  lemma StatusesAfterSelection(q: Question, v: int)
    requires 0 <= q.correctAnswer < |q.options|
    ensures var ss := Statuses(q, Some(v));
            ss[q.correctAnswer] == Correct && Count(ss, Correct) == 1 &&
            Count(ss, Wrong) == (if v != q.correctAnswer && 0 <= v < |q.options| then 1 else 0) &&
            Count(ss, Neutral) == 0 &&
            (forall i :: 0 <= i < |ss| ==> (ss[i] == Wrong <==> i == v && v != q.correctAnswer)) &&
            (forall i :: 0 <= i < |ss| ==> (ss[i] == Dimmed <==> i != v && i != q.correctAnswer))
  {
    var ss := Statuses(q, Some(v));
    CountSingle(ss, Correct, q.correctAnswer);
    CountAbsent(ss, Neutral);
    if v != q.correctAnswer && 0 <= v < |q.options| {
      CountSingle(ss, Wrong, v);
    } else {
      CountAbsent(ss, Wrong);
    }
  }

  /** The option buttons are disabled once an answer is selected. */
  function AnswerButtonsDisabled(s: QuizState): bool
  {
    s.selectedAnswer.Some?
  }

  /** The "next" button is disabled until an answer is selected. */
  function NextButtonDisabled(s: QuizState): bool
  {
    s.selectedAnswer.None?
  }

  /** Exactly one of the two kinds of button is enabled at a time, and the
      option buttons are enabled exactly when pressing one would change the
      state. */
  lemma ButtonsMatchGuards(bank: seq<Question>, s: QuizState, idx: int)
    requires Inv(bank, s)
    ensures AnswerButtonsDisabled(s) != NextButtonDisabled(s)
    ensures !AnswerButtonsDisabled(s) <==> Step(bank, s, Answer(idx)) != s
  {
  }

  /** The component: the question bank is fixed, the four state cells are
      updated in place by the three handlers. */
  class QuizGame {
    const bank: seq<Question>
    var currentIdx: int
    var selectedAnswer: Option<int>
    var score: int
    var isFinished: bool

    function State(): QuizState
      reads this
    {
      QuizState(currentIdx, selectedAnswer, score, isFinished)
    }

    ghost predicate Valid()
      reads this
    {
      WellFormedBank(bank) && Inv(bank, State())
    }

    /** Mounting the component with the initial `useState` values. */
    constructor (bank: seq<Question>)
      requires WellFormedBank(bank)
      ensures Valid() && this.bank == bank && State() == Initial
    {
      this.bank := bank;
      currentIdx, selectedAnswer, score, isFinished := 0, None, 0, false;
    }

    /** `currentQuestion`: always an entry of the bank with a valid answer. */
    function CurrentQuestion(): (q: Question)
      reads this
      requires Valid()
      ensures q in bank && 0 <= q.correctAnswer < |q.options|
    {
      bank[currentIdx]
    }

    method HandleAnswer(idx: int)
      requires Valid()
      modifies this
      ensures Valid() && State() == Step(bank, old(State()), Answer(idx))
      ensures old(selectedAnswer).Some? ==> State() == old(State())
      ensures old(selectedAnswer).None? ==>
                selectedAnswer == Some(idx) &&
                score == old(score) + (if idx == bank[old(currentIdx)].correctAnswer then 1 else 0) &&
                currentIdx == old(currentIdx) && isFinished == old(isFinished)
    {
      var currentQuestion := CurrentQuestion();
      if selectedAnswer.Some? {
        return;
      }
      selectedAnswer := Some(idx);
      if idx == currentQuestion.correctAnswer {
        score := score + 1;
      }
    }

    method HandleNext()
      requires Valid()
      modifies this
      ensures Valid() && State() == Step(bank, old(State()), Next)
      ensures old(currentIdx) < |bank| - 1 ==>
                currentIdx == old(currentIdx) + 1 && selectedAnswer == None &&
                score == old(score) && isFinished == old(isFinished)
      ensures old(currentIdx) == |bank| - 1 ==>
                isFinished && currentIdx == old(currentIdx) &&
                selectedAnswer == old(selectedAnswer) && score == old(score)
    {
      if currentIdx < |bank| - 1 {
        currentIdx := currentIdx + 1;
        selectedAnswer := None;
      } else {
        isFinished := true;
      }
    }

    method ResetQuiz()
      requires Valid()
      modifies this
      ensures Valid() && State() == Step(bank, old(State()), Reset) && State() == Initial
    {
      currentIdx := 0;
      selectedAnswer := None;
      score := 0;
      isFinished := false;
    }
  }
}
