/** The question generator of the quiz: the fixed table of four operations
    and the construction of one question from two sampled operands. The two
    samples and the choice of operation come from the random source; here
    they are parameters, constrained to the ranges the random source draws
    from. */
module Questions {
  import opened Arith

  datatype Op = Add | Sub | Mul | Div

  /** One row of the operations table: the operator, the symbol shown to
      the player and the inclusive range operands are drawn from. */
  datatype Operation = Operation(op: Op, symbol: char, min: int, max: int)

  const Operations: seq<Operation> := [
    Operation(Add, '+', 1, 100),
    Operation(Sub, '-', 1, 100),
    Operation(Mul, '×', 1, 12),
    Operation(Div, '÷', 1, 12)
  ]

  /** A question as shown to the player, with the answer the game expects. */
  datatype Question = Question(op: Op, num1: int, num2: int, answer: int)

  predicate InBounds(n: int, o: Operation) {
    o.min <= n <= o.max
  }

  /** The two samples a question is built from are legal draws for the
      operation at `index`. */
  predicate LegalDraws(index: int, first: int, second: int) {
    0 <= index < |Operations| &&
    InBounds(first, Operations[index]) && InBounds(second, Operations[index])
  }

  /** Math.floor(a / d) on integers: the largest integer not above the real
      quotient, for either sign of `d`. */
  function FloorDiv(a: int, d: int): (r: int)
    requires d != 0
    ensures d > 0 ==> d * r <= a < d * r + d
    ensures d < 0 ==> d * r + d < a <= d * r
  {
    if d > 0 then a / d else (-a) / (-d)
  }

  /** The `calculate` entry of each operation. Division replaces a zero
      divisor by 1 and rounds the quotient down. */
  function Calculate(op: Op, a: int, b: int): (r: int)
    ensures op == Div && b > 0 ==> b * r <= a < b * r + b
    ensures op == Div && b < 0 ==> b * r + b < a <= b * r
    ensures op == Div && b == 0 ==> r == a
  {
    match op
    case Add => a + b
    case Sub => a - b
    case Mul => a * b
    case Div =>
      var divisor := if b != 0 then b else 1;
      FloorDiv(a, divisor)
  }

  /** The questions the generator can produce, described per operation
      without reference to how they are built. */
  predicate WellFormed(q: Question) {
    match q.op
    case Add => 1 <= q.num1 <= 100 && 1 <= q.num2 <= 100 && q.answer == q.num1 + q.num2
    case Sub => 1 <= q.num2 <= q.num1 <= 100 && q.answer == q.num1 - q.num2
    case Mul => 1 <= q.num1 <= 12 && 1 <= q.num2 <= 12 && q.answer == q.num1 * q.num2
    case Div => 1 <= q.num2 <= 12 && 1 <= q.answer <= 12 && q.num1 == q.answer * q.num2
  }

  /** The question built from the operation at `index` and two samples.
      Division takes the first sample as divisor and the second as quotient
      and shows their product as dividend; subtraction puts the larger
      sample first. */
  function Generate(index: int, first: int, second: int): (q: Question)
    requires LegalDraws(index, first, second)
    ensures q.op == Operations[index].op
    ensures WellFormed(q)
    ensures q.answer == Calculate(q.op, q.num1, q.num2)
    ensures q.op == Div ==> q.num2 == first && q.answer == second
    ensures q.op == Add || q.op == Mul ==> q.num1 == first && q.num2 == second
    ensures q.op == Sub ==> multiset{q.num1, q.num2} == multiset{first, second}
  {
    var operation := Operations[index];
    if operation.symbol == '÷' then
      var quotient := second;
      QuotientExact(quotient, first);
      Question(operation.op, quotient * first, first, Calculate(operation.op, quotient * first, first))
    else if operation.symbol == '×' then
      Question(operation.op, first, second, Calculate(operation.op, first, second))
    else
      var swap := operation.symbol == '-' && second > first;
      var num1 := if swap then second else first;
      var num2 := if swap then first else second;
      Question(operation.op, num1, num2, Calculate(operation.op, num1, num2))
  }

  /** A dividend built as quotient times divisor divides back exactly. */
  lemma QuotientExact(quotient: int, divisor: int)
    requires divisor >= 1
    ensures FloorDiv(quotient * divisor, divisor) == quotient
    ensures (quotient * divisor) % divisor == 0
  {
    var r := FloorDiv(quotient * divisor, divisor);
    if r < quotient {
      MulMonotone(divisor, r + 1, quotient);
    } else if r > quotient {
      MulMonotone(divisor, quotient + 1, r);
    }
  }

  /** Every generated division divides exactly, so the zero-divisor guard
      of `Calculate` never takes effect and the answer is the quotient. */
  lemma DivisionIsExact(q: Question)
    requires WellFormed(q) && q.op == Div
    ensures q.num2 != 0
    ensures q.num1 % q.num2 == 0 && q.num1 / q.num2 == q.answer
    ensures Calculate(Div, q.num1, q.num2) == q.answer
  {
    QuotientExact(q.answer, q.num2);
  }

  /** A generated subtraction never goes below zero: the minuend is at
      least the subtrahend and the answer lies in [0, 99]. */
  lemma SubtractionIsNonNegative(q: Question)
    requires WellFormed(q) && q.op == Sub
    ensures q.num1 >= q.num2 && 0 <= q.answer <= 99
  {
  }

  /** The range of the expected answer for each operation. */
  lemma AnswerRange(q: Question)
    requires WellFormed(q)
    ensures q.op == Add ==> 2 <= q.answer <= 200
    ensures q.op == Sub ==> 0 <= q.answer <= 99
    ensures q.op == Mul ==> 1 <= q.answer <= 144
    ensures q.op == Div ==> 1 <= q.answer <= 12 && 1 <= q.num1 <= 144
  {
    if q.op == Mul {
      MulMonotone(q.num1, q.num2, 12);
      MulMonotone(12, q.num1, 12);
      MulMonotone(q.num1, 1, q.num2);
    } else if q.op == Div {
      MulMonotone(q.answer, q.num2, 12);
      MulMonotone(12, q.answer, 12);
      MulMonotone(q.answer, 1, q.num2);
    }
  }

  /** The expected answer of every well-formed question is what the
      operation's `calculate` gives for the two operands shown. */
  lemma AnswerIsReproducible(q: Question)
    requires WellFormed(q)
    ensures q.answer == Calculate(q.op, q.num1, q.num2) && q.answer >= 0
  {
    if q.op == Div {
      DivisionIsExact(q);
    }
  }

  /** The generator reaches every well-formed question: some operation and
      two legal samples produce it. */
  lemma GenerateReachesAll(q: Question) returns (index: int, first: int, second: int)
    requires WellFormed(q)
    ensures LegalDraws(index, first, second)
    ensures Generate(index, first, second) == q
  {
    match q.op
    case Add => index, first, second := 0, q.num1, q.num2;
    case Sub => index, first, second := 1, q.num1, q.num2;
    case Mul => index, first, second := 2, q.num1, q.num2;
    case Div =>
      index, first, second := 3, q.num2, q.answer;
      QuotientExact(q.answer, q.num2);
  }
}
