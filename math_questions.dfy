/**
 * The arithmetic-fact generator: the per-grade capability table, the four
 * per-operation generators and the question identifier `"{op}_{a}_{b}"`.
 * Every random draw (`random.randint`, `random.choice`) is a parameter whose
 * `requires` says where the Python call would have put it.
 */
module MathQuestions {
  import opened Wrappers
  import opened Text

  datatype Operation = Addition | Subtraction | Multiplication | Division

  /** The operation's short code, its enum value in the source. */
  function Code(op: Operation): (c: string)
    ensures |c| == 3 && '_' !in c
  {
    match op
    case Addition => "add"
    case Subtraction => "sub"
    case Multiplication => "mul"
    case Division => "div"
  }

  /** The inverse of Code: a known code, or None. */
  function OperationFromCode(code: string): (r: Option<Operation>)
  {
    if code == "add" then Some(Addition)
    else if code == "sub" then Some(Subtraction)
    else if code == "mul" then Some(Multiplication)
    else if code == "div" then Some(Division)
    else None
  }

  /** The codes are exactly the four operations' codes, both ways. */
  lemma CodeRoundTrip(op: Operation, code: string)
    ensures OperationFromCode(Code(op)) == Some(op)
    ensures OperationFromCode(code).Some? ==> Code(OperationFromCode(code).value) == code
  {
  }

  /** The spoken German word for each operation. */
  function Word(op: Operation): string {
    match op
    case Addition => "plus"
    case Subtraction => "minus"
    case Multiplication => "mal"
    case Division => "geteilt durch"
  }

  /**
   * One grade's capabilities. `tables` is the list of multiplication tables;
   * the source's `None` and an empty list behave the same (`tables or default`),
   * so both are the empty sequence here.
   */
  datatype DifficultyConfig = DifficultyConfig(
    grade: int,
    operations: seq<Operation>,
    minNum: int,
    maxNum: int,
    tables: seq<int>)

  /** `list(range(lo, hi))`. */
  function Range(lo: int, hi: int): (r: seq<int>)
    ensures |r| == if lo <= hi then hi - lo else 0
    ensures forall i :: 0 <= i < |r| ==> r[i] == lo + i
    decreases hi - lo
  {
    if lo >= hi then [] else [lo] + Range(lo + 1, hi)
  }

  /** The fixed grade table. */
  function GradeConfigs(): map<int, DifficultyConfig> {
    map[
      1 := DifficultyConfig(1, [Addition], 1, 10, []),
      2 := DifficultyConfig(2, [Addition, Subtraction, Multiplication], 0, 100, [2, 5, 10]),
      3 := DifficultyConfig(3, [Addition, Subtraction, Multiplication, Division], 0, 100, Range(1, 11)),
      4 := DifficultyConfig(4, [Addition, Subtraction, Multiplication, Division], 0, 1000, Range(1, 13))
    ]
  }

  /** What every entry of the grade table satisfies. */
  ghost predicate WellFormedConfig(c: DifficultyConfig) {
    && |c.operations| >= 1
    && 0 <= c.minNum <= c.maxNum
    && (forall i :: 0 <= i < |c.tables| ==> c.tables[i] >= 1)
  }

  datatype GenerationError =
    | UnsupportedGrade(grade: int)
    | OperationNotAvailable(op: Operation, grade: int)

  /** `get_grade_config`. */
  function GetGradeConfig(grade: int): (r: Result<DifficultyConfig, GenerationError>)
    ensures r.Success? <==> 1 <= grade <= 4
    ensures r.Failure? ==> r.error == UnsupportedGrade(grade)
    ensures r.Success? ==> r.value.grade == grade && WellFormedConfig(r.value)
    ensures r.Success? ==> (Addition in r.value.operations && (Division in r.value.operations <==> grade >= 3))
  {
    if grade in GradeConfigs() then Success(GradeConfigs()[grade]) else Failure(UnsupportedGrade(grade))
  }

  /** `get_available_operations`: a copy of the grade's operation list. */
  function GetAvailableOperations(grade: int): (r: Result<seq<Operation>, GenerationError>)
    ensures r.Success? <==> 1 <= grade <= 4
    ensures r.Success? ==> 1 <= |r.value| && r.value[0] == Addition
    ensures r.Success? ==> (|r.value| == 1 <==> grade == 1)
  {
    match GetGradeConfig(grade)
    case Success(c) => Success(c.operations)
    case Failure(e) => Failure(e)
  }

  /** Grade 1 is addition only, over 1..10, with no tables. */
  lemma GradeOneIsAdditionOnly()
    ensures GetGradeConfig(1) == Success(DifficultyConfig(1, [Addition], 1, 10, []))
  {
  }

  datatype MathQuestion = MathQuestion(
    questionId: string,
    operand1: int,
    operand2: int,
    operation: Operation,
    correctAnswer: int,
    questionText: string)

  /** `MathQuestion.check_answer`. */
  function CheckAnswer(q: MathQuestion, answer: int): (ok: bool)
  {
    answer == q.correctAnswer
  }

  /** `generate_question_id`. */
  function QuestionId(op: Operation, a: int, b: int): (id: string)
    ensures Split(id, '_') == [Code(op), IntToString(a), IntToString(b)]
  {
    var sa := IntToString(a);
    var sb := IntToString(b);
    SplitNoSep(sb, '_');
    SplitCons(sa, '_', sb);
    assert Code(op) + "_" + sa + "_" + sb == Code(op) + ['_'] + (sa + ['_'] + sb);
    SplitCons(Code(op), '_', sa + ['_'] + sb);
    Code(op) + "_" + sa + "_" + sb
  }

  /** The spoken prompt "Was ist a <word> b?". */
  function QuestionText(op: Operation, a: int, b: int): string {
    "Was ist " + IntToString(a) + " " + Word(op) + " " + IntToString(b) + "?"
  }

  /** What `x` being the right answer means, independently of any generator. */
  ghost predicate Solves(op: Operation, a: int, b: int, x: int) {
    match op
    case Addition => x == a + b
    case Subtraction => x == a - b
    case Multiplication => x == a * b
    case Division => b != 0 && x * b == a
  }

  /** A question whose id, prompt and answer agree with its operands. */
  ghost predicate WellFormedQuestion(q: MathQuestion) {
    && q.questionId == QuestionId(q.operation, q.operand1, q.operand2)
    && q.questionText == QuestionText(q.operation, q.operand1, q.operand2)
    && Solves(q.operation, q.operand1, q.operand2, q.correctAnswer)
  }

  /** Python's `max` of two integers. */
  function Max(a: int, b: int): int { if a >= b then a else b }

  /** The multiplication tables, defaulting to [2, 5, 10]. */
  function MultiplicationTables(c: DifficultyConfig): seq<int> {
    if |c.tables| > 0 then c.tables else [2, 5, 10]
  }

  /** The divisors, defaulting to 1..10. */
  function DivisionTables(c: DifficultyConfig): seq<int> {
    if |c.tables| > 0 then c.tables else Range(1, 11)
  }

  /** The grade's operand constraints for a question of operation `q.operation`. */
  ghost predicate WithinGrade(c: DifficultyConfig, q: MathQuestion) {
    var a, b := q.operand1, q.operand2;
    match q.operation
    case Addition => c.minNum <= a <= c.maxNum && c.minNum <= b <= Max(c.minNum, c.maxNum - a)
    case Subtraction => c.minNum <= b <= a <= c.maxNum
    case Multiplication =>
      (a in MultiplicationTables(c) && 1 <= b <= 10) || (b in MultiplicationTables(c) && 1 <= a <= 10)
    case Division => b in DivisionTables(c) && 1 <= q.correctAnswer <= 10
  }

  /** A question with its id and text derived from the operation and operands. */
  function Build(op: Operation, a: int, b: int, answer: int): MathQuestion {
    MathQuestion(QuestionId(op, a, b), a, b, op, answer, QuestionText(op, a, b))
  }

  /** `_generate_addition` given its two `randint` draws. */
  function GenerateAddition(c: DifficultyConfig, a: int, b: int): (q: MathQuestion)
    requires c.minNum <= a <= c.maxNum
    requires c.minNum <= b <= Max(c.minNum, c.maxNum - a)
    ensures q.operation == Addition && q.operand1 == a && q.operand2 == b
    ensures WellFormedQuestion(q) && WithinGrade(c, q)
  {
    Build(Addition, a, b, a + b)
  }

  /** `_generate_subtraction` given its two `randint` draws. */
  function GenerateSubtraction(c: DifficultyConfig, a: int, b: int): (q: MathQuestion)
    requires c.minNum <= a <= c.maxNum
    requires c.minNum <= b <= a
    ensures q.operation == Subtraction && q.operand1 == a && q.operand2 == b
    ensures WellFormedQuestion(q) && WithinGrade(c, q) && q.correctAnswer >= 0
  {
    Build(Subtraction, a, b, a - b)
  }

  /**
   * `_generate_multiplication` given the index of the table `random.choice`
   * picks, the `randint(1, 10)` factor and the coin that swaps the two.
   */
  function GenerateMultiplication(c: DifficultyConfig, tableIndex: nat, factor: int, swap: bool): (q: MathQuestion)
    requires tableIndex < |MultiplicationTables(c)|
    requires 1 <= factor <= 10
    ensures q.operation == Multiplication
    ensures {q.operand1, q.operand2} == {MultiplicationTables(c)[tableIndex], factor}
    ensures swap ==> q.operand1 == factor && q.operand2 == MultiplicationTables(c)[tableIndex]
    ensures !swap ==> q.operand1 == MultiplicationTables(c)[tableIndex] && q.operand2 == factor
    ensures WellFormedQuestion(q) && WithinGrade(c, q)
  {
    var t := MultiplicationTables(c)[tableIndex];
    var (a, b) := if swap then (factor, t) else (t, factor);
    Build(Multiplication, a, b, a * b)
  }

  /**
   * `_generate_division` given the index of the divisor `random.choice` picks
   * and the `randint(1, 10)` quotient; the dividend comes first.
   */
  function GenerateDivision(c: DifficultyConfig, tableIndex: nat, quotient: int): (q: MathQuestion)
    requires tableIndex < |DivisionTables(c)|
    requires 1 <= quotient <= 10
    ensures q.operation == Division && q.correctAnswer == quotient
    ensures q.operand2 == DivisionTables(c)[tableIndex] && q.operand1 == q.operand2 * quotient
    ensures WellFormedConfig(c) ==> q.operand2 >= 1 && q.operand1 % q.operand2 == 0
    ensures WellFormedConfig(c) ==> WellFormedQuestion(q) && WithinGrade(c, q)
  {
    var divisor := DivisionTables(c)[tableIndex];
    var dividend := divisor * quotient;
    assert quotient * divisor == dividend;
    assert divisor in DivisionTables(c);
    DivisionTablesPositive(c);
    ExactDivision(divisor, quotient);
    Build(Division, dividend, divisor, quotient)
  }

  /** Every division table of a well-formed grade is at least 1, so no draw divides by zero. */
  lemma DivisionTablesPositive(c: DifficultyConfig)
    ensures WellFormedConfig(c) ==> forall i :: 0 <= i < |DivisionTables(c)| ==> DivisionTables(c)[i] >= 1
  {
  }

  /** Every multiplication table of a well-formed grade is at least 1. */
  lemma MultiplicationTablesPositive(c: DifficultyConfig)
    ensures WellFormedConfig(c) ==> forall i :: 0 <= i < |MultiplicationTables(c)| ==> MultiplicationTables(c)[i] >= 1
  {
  }

  /** A product of a positive divisor and a quotient divides back exactly. */
  lemma ExactDivision(d: int, q: int)
    ensures d >= 1 ==> (d * q) % d == 0 && (d * q) / d == q
  {
    if d < 1 { return; }
    var k, m := (d * q) / d, (d * q) % d;
    assert d * q == d * k + m && 0 <= m < d;
    var e := q - k;
    assert d * e == m;
    // 0 <= d * e < d leaves no room for e != 0
    if e > 0 {
      assert false;
    } else if e < 0 {
      assert false;
    }
  }

  /**
   * The random draws one `generate_question` call makes: the index
   * `random.choice` picks among the grade's operations, the operation's two
   * draws (an operand or table index, then an operand, factor or quotient)
   * and the coin of the multiplication swap.
   */
  datatype Draws = Draws(opIndex: nat, first: int, second: int, swap: bool)

  /** The operation `generate_question` uses, or None when it raises. */
  function ChosenOperation(c: DifficultyConfig, op: Option<Operation>, d: Draws): Option<Operation> {
    if op.None? then (if d.opIndex < |c.operations| then Some(c.operations[d.opIndex]) else None)
    else if op.value in c.operations then op
    else None
  }

  /** The draws lie where the random calls of the chosen generator put them. */
  ghost predicate DrawsFit(c: DifficultyConfig, op: Operation, d: Draws) {
    match op
    case Addition => c.minNum <= d.first <= c.maxNum && c.minNum <= d.second <= Max(c.minNum, c.maxNum - d.first)
    case Subtraction => c.minNum <= d.first <= c.maxNum && c.minNum <= d.second <= d.first
    case Multiplication => 0 <= d.first < |MultiplicationTables(c)| && 1 <= d.second <= 10
    case Division => 0 <= d.first < |DivisionTables(c)| && 1 <= d.second <= 10
  }

  /** The draws `generate_question(grade, op)` could make. */
  ghost predicate DrawsFor(grade: int, op: Option<Operation>, d: Draws) {
    grade in GradeConfigs() ==>
      var c := GradeConfigs()[grade];
      && (op.None? ==> d.opIndex < |c.operations|)
      && (ChosenOperation(c, op, d).Some? ==> DrawsFit(c, ChosenOperation(c, op, d).value, d))
  }

  /** `generate_question`. */
  function GenerateQuestion(grade: int, op: Option<Operation>, d: Draws): (r: Result<MathQuestion, GenerationError>)
    requires DrawsFor(grade, op, d)
  {
    if grade !in GradeConfigs() then Failure(UnsupportedGrade(grade))
    else
      var c := GradeConfigs()[grade];
      match ChosenOperation(c, op, d)
      case None => Failure(OperationNotAvailable(op.value, grade))
      case Some(chosen) => Success(GenerateWith(c, chosen, d))
  }

  /** The generator of operation `chosen` applied to its draws. */
  function GenerateWith(c: DifficultyConfig, chosen: Operation, d: Draws): MathQuestion
    requires DrawsFit(c, chosen, d)
  {
    match chosen
    case Addition => GenerateAddition(c, d.first, d.second)
    case Subtraction => GenerateSubtraction(c, d.first, d.second)
    case Multiplication => GenerateMultiplication(c, d.first, d.second, d.swap)
    case Division => GenerateDivision(c, d.first, d.second)
  }

  /** Each generator yields a well-formed fact of its operation within the configuration's ranges. */
  lemma GenerateWithSpec(c: DifficultyConfig, chosen: Operation, d: Draws)
    requires DrawsFit(c, chosen, d) && WellFormedConfig(c)
    ensures var q := GenerateWith(c, chosen, d);
      WellFormedQuestion(q) && WithinGrade(c, q) && q.operation == chosen
  {
  }

  /**
   * `generate_question` fails exactly for an unsupported grade, or for a
   * requested operation the grade does not offer, with the matching error.
   */
  lemma GenerateQuestionOutcome(grade: int, op: Option<Operation>, d: Draws)
    requires DrawsFor(grade, op, d)
    ensures var r := GenerateQuestion(grade, op, d);
      && (!(1 <= grade <= 4) ==> r == Failure(UnsupportedGrade(grade)))
      && (1 <= grade <= 4 ==> (r.Failure? <==> op.Some? && op.value !in GradeConfigs()[grade].operations))
      && (r.Failure? && op.Some? && 1 <= grade <= 4 ==> r.error == OperationNotAvailable(op.value, grade))
  {
    var config := GetGradeConfig(grade);
    if config.Success? {
      assert config.value == GradeConfigs()[grade];
    }
  }

  /** Without a requested operation, `generate_question` fails exactly for an unsupported grade. */
  lemma GenerateAnyOutcome(grade: int, d: Draws)
    requires DrawsFor(grade, None, d)
    ensures GenerateQuestion(grade, None, d).Success? <==> 1 <= grade <= 4
    ensures GenerateQuestion(grade, None, d).Failure? ==> GenerateQuestion(grade, None, d) == Failure(UnsupportedGrade(grade))
  {
    GenerateQuestionOutcome(grade, None, d);
  }

  /**
   * A generated fact is well-formed, within its grade's ranges, of an
   * operation the grade offers, and of the requested operation when one is
   * given.
   */
  lemma GenerateQuestionSpec(grade: int, op: Option<Operation>, d: Draws)
    requires DrawsFor(grade, op, d)
    requires GenerateQuestion(grade, op, d).Success?
    ensures var q := GenerateQuestion(grade, op, d).value;
      && WellFormedQuestion(q)
      && WithinGrade(GradeConfigs()[grade], q)
      && q.operation in GradeConfigs()[grade].operations
      && (op.Some? ==> q.operation == op.value)
  {
    var config := GetGradeConfig(grade);
    var c := GradeConfigs()[grade];
    assert config.value == c;
    GenerateWithSpec(c, ChosenOperation(c, op, d).value, d);
  }

  /** The outcome of each `generate_question` call of a set, one per element of `ds`. */
  function Outcomes(grade: int, op: Option<Operation>, ds: seq<Draws>): (r: seq<Result<MathQuestion, GenerationError>>)
    requires forall i :: 0 <= i < |ds| ==> DrawsFor(grade, op, ds[i])
    ensures |r| == |ds|
  {
    seq(|ds|, i requires 0 <= i < |ds| => GenerateQuestion(grade, op, ds[i]))
  }

  /** A list comprehension over calls that may raise: the first error, or every value in order. */
  function Collect<T, E>(outcomes: seq<Result<T, E>>): Result<seq<T>, E> {
    if |outcomes| == 0 then Success([])
    else
      match outcomes[0]
      case Failure(e) => Failure(e)
      case Success(x) =>
        match Collect(outcomes[1..])
        case Failure(e) => Failure(e)
        case Success(xs) => Success([x] + xs)
  }

  /** Collecting succeeds exactly when every call does, and then keeps every value in place. */
  lemma {:induction false} CollectSpec<T, E>(outcomes: seq<Result<T, E>>)
    ensures Collect(outcomes).Success? <==> forall i :: 0 <= i < |outcomes| ==> outcomes[i].Success?
    ensures Collect(outcomes).Success? ==>
      |Collect(outcomes).value| == |outcomes| &&
      forall i :: 0 <= i < |outcomes| ==> outcomes[i] == Success(Collect(outcomes).value[i])
  {
    if |outcomes| > 0 {
      var tail := outcomes[1..];
      CollectSpec(tail);
      if outcomes[0].Success? && Collect(tail).Success? {
        var xs := [outcomes[0].value] + Collect(tail).value;
        assert Collect(outcomes) == Success(xs);
        forall i | 0 <= i < |outcomes|
          ensures outcomes[i] == Success(xs[i])
        {
          if i > 0 {
            assert outcomes[i] == tail[i - 1];
          }
        }
      } else if outcomes[0].Success? {
        var j :| 0 <= j < |tail| && !tail[j].Success?;
        assert outcomes[j + 1] == tail[j];
      }
    }
  }

  /** `generate_question_set`: `count` independent calls (none for count <= 0). */
  function GenerateQuestionSet(count: int, grade: int, op: Option<Operation>, ds: seq<Draws>): (r: Result<seq<MathQuestion>, GenerationError>)
    requires |ds| == Max(count, 0)
    requires forall i :: 0 <= i < |ds| ==> DrawsFor(grade, op, ds[i])
  {
    if count <= 0 then Success([]) else Collect(Outcomes(grade, op, ds))
  }

  /** A generated set holds `count` questions, the `i`-th being what `generate_question` gives for draw `i`. */
  lemma GenerateQuestionSetElements(count: int, grade: int, op: Option<Operation>, ds: seq<Draws>)
    requires |ds| == Max(count, 0)
    requires forall i :: 0 <= i < |ds| ==> DrawsFor(grade, op, ds[i])
    ensures var r := GenerateQuestionSet(count, grade, op, ds);
      r.Success? ==> |r.value| == |ds| && forall i :: 0 <= i < |ds| ==> GenerateQuestion(grade, op, ds[i]) == Success(r.value[i])
  {
    var outcomes := Outcomes(grade, op, ds);
    CollectSpec(outcomes);
    assert forall i :: 0 <= i < |ds| ==> outcomes[i] == GenerateQuestion(grade, op, ds[i]);
  }

  /**
   * A set of at least one question fails exactly when a single question
   * would: for an unsupported grade or an operation the grade lacks, never
   * because of the draws.
   */
  lemma GenerateQuestionSetFails(count: int, grade: int, op: Option<Operation>, ds: seq<Draws>)
    requires |ds| == Max(count, 0)
    requires forall i :: 0 <= i < |ds| ==> DrawsFor(grade, op, ds[i])
    ensures count <= 0 ==> GenerateQuestionSet(count, grade, op, ds) == Success([])
    ensures count > 0 ==>
      (GenerateQuestionSet(count, grade, op, ds).Failure? <==> GenerateQuestion(grade, op, ds[0]).Failure?)
  {
    if count > 0 {
      var outcomes := Outcomes(grade, op, ds);
      CollectSpec(outcomes);
      assert outcomes[0] == GenerateQuestion(grade, op, ds[0]);
      if outcomes[0].Success? {
        GenerateQuestionOutcome(grade, op, ds[0]);
        forall i | 0 <= i < |ds|
          ensures outcomes[i].Success?
        {
          GenerateQuestionOutcome(grade, op, ds[i]);
        }
      }
    }
  }

  // ---------------------------------------------------------------------------
  // Properties of generated facts

  /** check_answer accepts exactly the mathematically right answer of a generated fact. */
  lemma CheckAnswerMeansSolves(q: MathQuestion, x: int)
    requires WellFormedQuestion(q)
    ensures CheckAnswer(q, x) <==> Solves(q.operation, q.operand1, q.operand2, x)
  {
    if q.operation == Division {
      var b := q.operand2;
      if Solves(Division, q.operand1, b, x) {
        assert x * b == q.correctAnswer * b;
        MulCancel(x, q.correctAnswer, b);
      }
    }
  }

  /** Cancelling a non-zero factor; the solver needs it spelled out for non-linear terms. */
  lemma MulCancel(x: int, y: int, b: int)
    requires b != 0 && x * b == y * b
    ensures x == y
  {
    assert (x - y) * b == 0;
  }

  /** Every generated fact has non-negative operands and a non-negative answer. */
  lemma GeneratedFactsAreNonNegative(grade: int, op: Option<Operation>, d: Draws)
    requires DrawsFor(grade, op, d)
    requires GenerateQuestion(grade, op, d).Success?
    ensures var q := GenerateQuestion(grade, op, d).value;
      q.operand1 >= 0 && q.operand2 >= 0 && q.correctAnswer >= 0
  {
    GenerateQuestionSpec(grade, op, d);
    var q := GenerateQuestion(grade, op, d).value;
    var c := GradeConfigs()[grade];
    assert WellFormedConfig(c) by { assert GetGradeConfig(grade).value == c; }
    assert WithinGrade(c, q) && WellFormedQuestion(q);
    WithinGradeNonNegative(c, q);
  }

  /** A solved question within a well-formed grade has no negative number in it. */
  lemma WithinGradeNonNegative(c: DifficultyConfig, q: MathQuestion)
    requires WellFormedConfig(c) && WithinGrade(c, q) && Solves(q.operation, q.operand1, q.operand2, q.correctAnswer)
    ensures q.operand1 >= 0 && q.operand2 >= 0 && q.correctAnswer >= 0
  {
    match q.operation
    case Addition =>
    case Subtraction =>
    case Multiplication =>
      MultiplicationTablesPositive(c);
      ProductNonNegative(q.operand1, q.operand2);
    case Division =>
      DivisionTablesPositive(c);
      ProductNonNegative(q.correctAnswer, q.operand2);
  }

  /** The product of two non-negative numbers, stated for the solver's non-linear arithmetic. */
  lemma ProductNonNegative(a: int, b: int)
    requires a >= 0 && b >= 0
    ensures a * b >= 0
  {
  }

  /**
   * The addition generator keeps the sum within the grade's maximum exactly
   * when the first operand leaves room for the smallest second operand.
   */
  lemma AdditionSumBound(c: DifficultyConfig, a: int, b: int)
    requires c.minNum <= a <= c.maxNum
    requires c.minNum <= b <= Max(c.minNum, c.maxNum - a)
    ensures GenerateAddition(c, a, b).correctAnswer <= c.maxNum <==> a <= c.maxNum - c.minNum
  {
  }

  /** Grade 1 draws operand1 = 10, which forces operand2 = 1 and the sum 11 above the range. */
  lemma GradeOneAdditionCanExceedRange(d: Draws)
    requires d.first == 10 && DrawsFor(1, Some(Addition), d)
    ensures GenerateQuestion(1, Some(Addition), d) == Success(GenerateAddition(GradeConfigs()[1], 10, 1))
    ensures GenerateQuestion(1, Some(Addition), d).value.correctAnswer == 11
  {
    var c := GradeConfigs()[1];
    assert c == DifficultyConfig(1, [Addition], 1, 10, []);
    assert ChosenOperation(c, Some(Addition), d) == Some(Addition);
    assert d.second == 1;
  }
}
