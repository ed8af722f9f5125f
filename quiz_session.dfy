/** The quiz-taking page (src/Components/Quiz.js): a fixed question bank, a
    sparse array of answers indexed by question position, per-answer feedback,
    and a result computed locally when the learner finishes. */
module QuizSession {
  import opened Wrappers

  datatype Question = Question(id: int, text: string, options: seq<string>, correctAnswer: string)

  datatype Feedback = Feedback(isCorrect: bool, message: string)

  datatype QuizResult = QuizResult(score: nat, totalQuestions: nat, pointsEarned: nat)

  /** Points awarded for each correct answer. */
  const PointsPerAnswer: nat := 100

  /** The hard-coded "React Basics Quiz" question bank. */
  function Bank(): (b: seq<Question>)
    ensures |b| == 3
    ensures forall i :: 0 <= i < |b| ==> b[i].correctAnswer in b[i].options
  {
    [ Question(1, "What is a React component?",
               ["A function", "A class", "Both A and B", "None of the above"],
               "Both A and B"),
      Question(2, "What is JSX?",
               ["JavaScript XML", "Java Syntax Extension", "JSON XML", "JavaScript Extension"],
               "JavaScript XML"),
      Question(3, "Which hook is used for side effects in React?",
               ["useState", "useEffect", "useContext", "useReducer"],
               "useEffect") ]
  }

  /** Answer slot `i` holds the correct option for question `i`. A hole
      (`None`) never matches. */
  predicate CorrectAt(questions: seq<Question>, answers: seq<Option<string>>, i: nat)
    requires |answers| <= |questions|
  {
    i < |answers| && answers[i] == Some(questions[i].correctAnswer)
  }

  /** `answers.filter((a, i) => a === questions[i].correctAnswer).length`,
      counted over the answered prefix from the back. */
  function Score(questions: seq<Question>, answers: seq<Option<string>>): (r: nat)
    requires |answers| <= |questions|
    ensures r <= |answers|
  {
    if answers == [] then 0
    else
      var n := |answers| - 1;
      Score(questions, answers[..n]) + (if answers[n] == Some(questions[n].correctAnswer) then 1 else 0)
  }

  /** The positions that were answered correctly. */
  ghost function CorrectPositions(questions: seq<Question>, answers: seq<Option<string>>): set<nat>
    requires |answers| <= |questions|
  {
    set i: nat | i < |answers| && CorrectAt(questions, answers, i)
  }

  /** The score is exactly the number of correctly answered positions. */
  lemma {:induction false} ScoreCountsCorrect(questions: seq<Question>, answers: seq<Option<string>>)
    requires |answers| <= |questions|
    ensures Score(questions, answers) == |CorrectPositions(questions, answers)|
  {
    if answers != [] {
      var n := |answers| - 1;
      ScoreCountsCorrect(questions, answers[..n]);
      var before := CorrectPositions(questions, answers[..n]);
      var all := CorrectPositions(questions, answers);
      if CorrectAt(questions, answers, n) {
        assert all == before + {n};
      } else {
        assert all == before;
      }
    }
  }

  /** With no answer given, nothing scores. */
  lemma {:induction false} UnansweredScoresZero(questions: seq<Question>, answers: seq<Option<string>>)
    requires |answers| <= |questions|
    requires forall i :: 0 <= i < |answers| ==> answers[i] == None
    ensures Score(questions, answers) == 0
  {
    if answers != [] {
      UnansweredScoresZero(questions, answers[..|answers| - 1]);
    }
  }

  /** Every question answered correctly gives full marks. */
  lemma {:induction false} AllCorrectScoresFull(questions: seq<Question>, answers: seq<Option<string>>)
    requires |answers| == |questions|
    requires forall i :: 0 <= i < |answers| ==> answers[i] == Some(questions[i].correctAnswer)
    ensures Score(questions, answers) == |questions|
  {
    if answers != [] {
      var n := |answers| - 1;
      AllCorrectScoresFull(questions[..n], answers[..n]);
      ScoreOnPrefix(questions, answers[..n], n);
    }
  }

  /** The score only looks at the questions that have an answer slot. */
  lemma {:induction false} ScoreOnPrefix(questions: seq<Question>, answers: seq<Option<string>>, n: nat)
    requires |answers| <= n <= |questions|
    ensures Score(questions[..n], answers) == Score(questions, answers)
  {
    if answers != [] {
      ScoreOnPrefix(questions, answers[..|answers| - 1], n);
    }
  }

  /** The result built by `handleSubmit`. */
  function MakeResult(questions: seq<Question>, answers: seq<Option<string>>): (r: QuizResult)
    requires |answers| <= |questions|
    ensures r.totalQuestions == |questions|
    ensures r.score <= r.totalQuestions
    ensures r.score == |CorrectPositions(questions, answers)|
    ensures r.pointsEarned == r.score * PointsPerAnswer
  {
    ScoreCountsCorrect(questions, answers);
    var score := Score(questions, answers);
    QuizResult(score, |questions|, score * PointsPerAnswer)
  }

  /** The feedback shown after choosing `answer` for question `q`. */
  function FeedbackFor(q: Question, answer: string): (f: Feedback)
    ensures f.isCorrect <==> answer == q.correctAnswer
    ensures f.isCorrect ==> f.message == "Correct! Well done!"
    ensures !f.isCorrect ==> f.message == "Incorrect. The correct answer is: " + q.correctAnswer
  {
    if answer == q.correctAnswer then Feedback(true, "Correct! Well done!")
    else Feedback(false, "Incorrect. The correct answer is: " + q.correctAnswer)
  }

  /** A copy of `answers` with slot `i` set to `answer`; writing past the end
      leaves holes in between, as assigning past a JavaScript array's length does. */
  function WithAnswer(answers: seq<Option<string>>, i: nat, answer: string): (r: seq<Option<string>>)
    ensures |r| == if i < |answers| then |answers| else i + 1
    ensures r[i] == Some(answer)
    ensures forall j :: 0 <= j < |answers| && j != i ==> r[j] == answers[j]
    ensures forall j :: |answers| <= j < |r| && j != i ==> r[j] == None
  {
    if i < |answers| then answers[i := Some(answer)]
    else answers + seq(i - |answers|, _ => None) + [Some(answer)]
  }

  /** Answering the same question again keeps only the later choice. */
  lemma {:induction false} AnswerOverwrites(answers: seq<Option<string>>, i: nat, first: string, second: string)
    ensures WithAnswer(WithAnswer(answers, i, first), i, second) == WithAnswer(answers, i, second)
  {
    var a := WithAnswer(WithAnswer(answers, i, first), i, second);
    var b := WithAnswer(answers, i, second);
    assert |a| == |b|;
    forall j | 0 <= j < |a| ensures a[j] == b[j] {
      if j != i && j < |answers| {
        assert WithAnswer(answers, i, first)[j] == answers[j];
      }
    }
  }

  /** One learner's pass through the question bank. */
  class Session {
    const questions: seq<Question>
    var currentQuestionIndex: nat
    var answers: seq<Option<string>>
    var feedback: Option<Feedback>
    var result: Option<QuizResult>

    /** The index stays on a question, the answers never outgrow the bank, and
        a result, once present, is the score of the recorded answers. */
    ghost predicate Valid()
      reads this
    {
      && |questions| > 0
      && currentQuestionIndex < |questions|
      && |answers| <= |questions|
      && (result.Some? ==> result.value == MakeResult(questions, answers))
    }

    constructor (bank: seq<Question>)
      requires |bank| > 0
      ensures Valid()
      ensures questions == bank && currentQuestionIndex == 0 && answers == []
      ensures feedback == None && result == None
    {
      questions := bank;
      currentQuestionIndex := 0;
      answers := [];
      feedback := None;
      result := None;
    }

    /** Whether the answer inputs and the Next/Finish button are rendered. */
    predicate ControlsShown()
      reads this
    {
      result.None?
    }

    /** The label of the Next/Finish button. */
    function NextLabel(): (caption: string)
      reads this
      ensures caption == "Finish" <==> currentQuestionIndex == |questions| - 1
    {
      if currentQuestionIndex == |questions| - 1 then "Finish" else "Next"
    }

    /** `handleAnswer`: record the choice for the current question on a copy
        of the answers and show whether it was right. */
    method HandleAnswer(answer: string)
      requires Valid() && ControlsShown()
      modifies this
      ensures Valid() && ControlsShown()
      ensures answers == WithAnswer(old(answers), currentQuestionIndex, answer)
      ensures feedback == Some(FeedbackFor(questions[currentQuestionIndex], answer))
      ensures currentQuestionIndex == old(currentQuestionIndex)
    {
      var newAnswers := answers;
      if currentQuestionIndex >= |newAnswers| {
        newAnswers := newAnswers + seq(currentQuestionIndex + 1 - |newAnswers|, _ => None);
      }
      newAnswers := newAnswers[currentQuestionIndex := Some(answer)];
      answers := newAnswers;

      var currentQuestion := questions[currentQuestionIndex];
      if answer == currentQuestion.correctAnswer {
        feedback := Some(Feedback(true, "Correct! Well done!"));
      } else {
        feedback := Some(Feedback(false, "Incorrect. The correct answer is: " + currentQuestion.correctAnswer));
      }
    }

    /** `handleNext`: clear the feedback, then move to the next question or,
        on the last one, finish. */
    method HandleNext()
      requires Valid() && ControlsShown()
      modifies this
      ensures Valid()
      ensures feedback == None
      ensures answers == old(answers)
      ensures old(currentQuestionIndex) < |questions| - 1 ==>
        currentQuestionIndex == old(currentQuestionIndex) + 1 && result == None
      ensures old(currentQuestionIndex) == |questions| - 1 ==>
        currentQuestionIndex == old(currentQuestionIndex) && result == Some(MakeResult(questions, answers))
    {
      feedback := None;
      if currentQuestionIndex < |questions| - 1 {
        currentQuestionIndex := currentQuestionIndex + 1;
      } else {
        HandleSubmit();
      }
    }

    /** `handleSubmit`: score the answers and store the result. */
    method HandleSubmit()
      requires Valid()
      modifies this`result
      ensures Valid()
      ensures result == Some(MakeResult(questions, answers))
    {
      var score := Score(questions, answers);
      result := Some(QuizResult(score, |questions|, score * PointsPerAnswer));
    }
  }

  /** The learner answers "Both A and B", "JavaScript XML" and "useState" on
      the built-in bank and presses Next three times: two right, 200 points. */
  method ScenarioTwoOfThree() returns (r: QuizResult)
    ensures r == QuizResult(2, 3, 200)
  {
    var s := new Session(Bank());
    s.HandleAnswer("Both A and B");
    s.HandleNext();
    s.HandleAnswer("JavaScript XML");
    s.HandleNext();
    s.HandleAnswer("useState");
    assert s.feedback.value.isCorrect == false;
    s.HandleNext();
    var given := [Some("Both A and B"), Some("JavaScript XML"), Some("useState")];
    assert s.answers == given;
    assert Score(Bank(), given[..1]) == 1;
    assert Score(Bank(), given[..2]) == 2;
    assert Score(Bank(), given) == 2;
    r := s.result.value;
  }
}
