/**
 * The fajr wake-up alarm: the azan plays in the sheikh's voice until the user
 * opens the quiz, and the alarm is dismissed only after five questions are
 * answered correctly, one after another.
 */
module FajrAlarm {
  import opened Text

  /** The screen's stages; 'nag' is declared but no handler ever enters it. */
  datatype Stage = Azan | Nag | Quiz

  /** One quiz question and its expected answer. */
  datatype Question = Question(prompt: string, answer: string)

  /** How many questions the quiz asks. */
  const QuizLength: nat := 5

  /** The sheikh whose azan plays when the chosen one has none. */
  const DefaultSheikh: string := "مشاري العفاسي"

  /** `FAJR_AZAN_URLS`. */
  const AzanUrls: map<string, string> := map[
    "مشاري العفاسي" := "https://www.islamcan.com/audio/adhan/azan1.mp3",
    "عبد الباسط عبد الصمد" := "https://www.islamcan.com/audio/adhan/azan11.mp3",
    "المنشاوي" := "https://www.islamcan.com/audio/adhan/azan16.mp3",
    "سعود الشريم" := "https://www.islamcan.com/audio/adhan/azan3.mp3",
    "عبد الرحمن السديس" := "https://www.islamcan.com/audio/adhan/azan2.mp3"
  ]

  /**
   * `FAJR_AZAN_URLS[sheikh] || FAJR_AZAN_URLS['مشاري العفاسي']`: the sheikh's
   * own azan when the table has one, the default sheikh's otherwise; always
   * one of the table's recordings.
   */
  function AzanUrl(sheikh: string): (url: string)
    ensures url in AzanUrls.Values
    ensures sheikh in AzanUrls ==> url == AzanUrls[sheikh]
    ensures sheikh !in AzanUrls ==> url == AzanUrls[DefaultSheikh]
  {
    if sheikh in AzanUrls && AzanUrls[sheikh] != "" then AzanUrls[sheikh] else AzanUrls[DefaultSheikh]
  }

  /** An answer is right when, trimmed, it is exactly the stored answer. */
  predicate IsCorrect(typed: string, q: Question) {
    Trim(typed) == q.answer
  }

  /** Blank padding around the right answer is forgiven; nothing else is. */
  lemma PaddedAnswerIsCorrect(before: string, after: string, q: Question)
    requires IsBlank(before) && IsBlank(after)
    requires q.answer != [] && !IsWhitespace(q.answer[0]) && !IsWhitespace(q.answer[|q.answer| - 1])
    ensures IsCorrect(before + q.answer + after, q)
  {
    TrimPadded(before, q.answer, after);
  }

  /** Accepting one more right answer keeps every accepted answer right for its question. */
  lemma AcceptAnswer(accepted: seq<string>, qs: seq<Question>, a: string)
    requires |accepted| < |qs|
    requires forall i :: 0 <= i < |accepted| ==> IsCorrect(accepted[i], qs[i])
    requires IsCorrect(a, qs[|accepted|])
    ensures forall i :: 0 <= i < |accepted + [a]| ==> IsCorrect((accepted + [a])[i], qs[i])
  {
    forall i | 0 <= i < |accepted + [a]| ensures IsCorrect((accepted + [a])[i], qs[i]) {
      if i < |accepted| {
        assert (accepted + [a])[i] == accepted[i];
      }
    }
  }

  class AlarmScreen {
    var stage: Stage
    var questions: seq<Question>
    var currentIdx: nat
    var userAnswer: string
    var errorCount: nat
    var dismissed: bool
    /** The answers accepted so far, in order. */
    ghost var accepted: seq<string>

    /**
     * The stage is never 'nag', the index stays in [0, 4], every accepted
     * answer was right for its question, and dismissal comes only with all
     * five accepted.
     */
    ghost predicate Valid()
      reads this
    {
      && stage != Nag
      && |questions| == QuizLength
      && currentIdx < QuizLength
      && |accepted| == (if dismissed then QuizLength else currentIdx)
      && (dismissed ==> currentIdx == QuizLength - 1)
      && forall i :: 0 <= i < |accepted| ==> IsCorrect(accepted[i], questions[i])
    }

    /** The alarm opens on the azan with five questions drawn from the bank. */
    constructor (drawn: seq<Question>)
      requires |drawn| == QuizLength
      ensures Valid()
      ensures stage == Azan && questions == drawn && currentIdx == 0
      ensures userAnswer == "" && errorCount == 0 && !dismissed
    {
      stage, questions, currentIdx := Azan, drawn, 0;
      userAnswer, errorCount, dismissed := "", 0, false;
      accepted := [];
    }

    /** The wake-up button, or the azan recording ending: the quiz starts. */
    method StartQuiz()
      requires Valid()
      modifies this
      ensures Valid()
      ensures stage == Quiz
      ensures currentIdx == old(currentIdx) && userAnswer == old(userAnswer)
      ensures errorCount == old(errorCount) && dismissed == old(dismissed)
      ensures questions == old(questions)
    {
      stage := Quiz;
    }

    /** Typing into the answer box. */
    method Type(text: string)
      requires Valid()
      modifies this
      ensures Valid()
      ensures userAnswer == text
      ensures stage == old(stage) && currentIdx == old(currentIdx)
      ensures errorCount == old(errorCount) && dismissed == old(dismissed)
      ensures questions == old(questions)
    {
      userAnswer := text;
    }

    /**
     * `submitAnswer`. A right answer before the last question moves to the
     * next one, clears the box and the error count; a right answer to the
     * last question dismisses the alarm. A wrong answer counts one more
     * error, clears the box and keeps the question; `warned` is the alert,
     * shown only when an error had already been counted.
     */
    method SubmitAnswer() returns (warned: bool)
      requires Valid() && stage == Quiz && !dismissed
      modifies this
      ensures Valid()
      ensures stage == Quiz && questions == old(questions)
      ensures IsCorrect(old(userAnswer), questions[old(currentIdx)]) && old(currentIdx) < QuizLength - 1 ==>
        currentIdx == old(currentIdx) + 1 && userAnswer == "" && errorCount == 0 && !dismissed && !warned
      ensures IsCorrect(old(userAnswer), questions[old(currentIdx)]) && old(currentIdx) == QuizLength - 1 ==>
        dismissed && currentIdx == old(currentIdx) && userAnswer == old(userAnswer)
        && errorCount == old(errorCount) && !warned
      ensures !IsCorrect(old(userAnswer), questions[old(currentIdx)]) ==>
        currentIdx == old(currentIdx) && userAnswer == "" && errorCount == old(errorCount) + 1
        && !dismissed && (warned <==> old(errorCount) >= 1)
      ensures dismissed ==> forall i :: 0 <= i < QuizLength ==> IsCorrect(accepted[i], questions[i])
    {
      warned := false;
      var right := IsCorrect(userAnswer, questions[currentIdx]);
      if right {
        AcceptAnswer(accepted, questions, userAnswer);
        accepted := accepted + [userAnswer];
        if currentIdx < 4 {
          currentIdx := currentIdx + 1;
          userAnswer := "";
          errorCount := 0;
        } else {
          dismissed := true;
        }
      } else {
        var before := errorCount;
        errorCount := errorCount + 1;
        userAnswer := "";
        if before >= 1 {
          warned := true;
        }
      }
    }
  }
}
