/**
 * Helpers shared by the voice handlers: the end-of-quiz verdict, the form in
 * which the current question is kept in the session attributes, and the
 * spoken word for an operation code.
 */
module Helpers {
  import opened Wrappers
  import opened MathQuestions

  /** Which of the four end-of-quiz messages is spoken. */
  datatype EndCategory = Perfect | Great | Good | KeepPracticing

  /** The categories from best to worst, for comparing them. */
  function Rank(c: EndCategory): nat {
    match c
    case Perfect => 3
    case Great => 2
    case Good => 1
    case KeepPracticing => 0
  }

  /**
   * `get_quiz_end_message(correct, total)`: all answers right is perfect,
   * checked first; then at least 80 percent, then at least 50 percent.
   */
  function QuizEndCategory(correct: int, total: int): EndCategory {
    if correct == total then Perfect
    else if correct as real >= total as real * 0.8 then Great
    else if correct as real >= total as real * 0.5 then Good
    else KeepPracticing
  }

  /**
   * The thresholds stated in whole numbers: each category holds exactly
   * when its own test passes and every test before it fails.
   */
  lemma QuizEndCategorySpec(correct: int, total: int)
    ensures QuizEndCategory(correct, total) == Perfect <==> correct == total
    ensures QuizEndCategory(correct, total) == Great <==> correct != total && 5 * correct >= 4 * total
    ensures QuizEndCategory(correct, total) == Good <==>
      correct != total && 5 * correct < 4 * total && 2 * correct >= total
    ensures QuizEndCategory(correct, total) == KeepPracticing <==>
      correct != total && 5 * correct < 4 * total && 2 * correct < total
  {
    assert correct as real >= total as real * 0.8 <==> 5 * correct >= 4 * total;
    assert correct as real >= total as real * 0.5 <==> 2 * correct >= total;
  }

  /** For a fixed total, more correct answers never give a lower category. */
  lemma QuizEndCategoryMonotone(c1: int, c2: int, total: int)
    requires 0 <= c1 <= c2 <= total
    ensures Rank(QuizEndCategory(c1, total)) <= Rank(QuizEndCategory(c2, total))
  {
    QuizEndCategorySpec(c1, total);
    QuizEndCategorySpec(c2, total);
  }

  /** `SerializedQuestion`: the session-attribute form of a question. */
  datatype SerializedQuestion = SerializedQuestion(
    questionId: string,
    operand1: int,
    operand2: int,
    operation: string,
    correctAnswer: int,
    questionText: string)

  /** `serialize_question`: every field copied, the operation as its code. */
  function Serialize(q: MathQuestion): (s: SerializedQuestion)
    ensures s.operation == Code(q.operation)
  {
    SerializedQuestion(q.questionId, q.operand1, q.operand2, Code(q.operation), q.correctAnswer, q.questionText)
  }

  /** Reading a stored question back; an unknown operation code reads as nothing. */
  function Deserialize(s: SerializedQuestion): (r: Option<MathQuestion>)
  {
    match OperationFromCode(s.operation)
    case None => None
    case Some(op) => Some(MathQuestion(s.questionId, s.operand1, s.operand2, op, s.correctAnswer, s.questionText))
  }

  /** Serialising loses nothing, and every readable stored question is a serialised one. */
  lemma SerializeRoundTrip(q: MathQuestion, s: SerializedQuestion)
    ensures Deserialize(Serialize(q)) == Some(q)
    ensures Deserialize(s).Some? ==> Serialize(Deserialize(s).value) == s
  {
    CodeRoundTrip(q.operation, s.operation);
  }

  /** `OPERATION_WORDS.get(operation, operation)`. */
  function OperationWord(code: string): string {
    match OperationFromCode(code)
    case Some(op) => Word(op)
    case None => code
  }

  /** Each operation's code is spoken as its word; any other code is spoken as itself. */
  lemma OperationWordSpec(op: Operation, code: string)
    ensures OperationWord(Code(op)) == Word(op)
    ensures code !in {"add", "sub", "mul", "div"} ==> OperationWord(code) == code
  {
    CodeRoundTrip(op, code);
  }
}
