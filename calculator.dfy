/**
 * The `/api/calculate` handler: the Operation header selects one of four
 * arithmetic operations on the two operands of the request body. Operands
 * are exact reals rather than IEEE doubles.
 */
module Calculator {
  import opened Wrappers
  import opened Ascii

  const MissingOperation: string := "Operation header is missing."
  const InvalidOperation: string := "Invalid operation."
  const DivisionByZero: string := "Cannot divide by zero."

  /** What the handler answers: 200 with `{ result }`, or a status and a plain-text message. */
  datatype Outcome = Ok(result: real) | Err(status: int, msg: string)

  datatype Operation = Add | Subtract | Multiply | Divide

  /** The lower-case name under which an operation is recognised. */
  function Name(op: Operation): string {
    match op
    case Add => "add"
    case Subtract => "subtract"
    case Multiply => "multiply"
    case Divide => "divide"
  }

  /** The `switch` on the lower-cased header: which operation it names, if any. */
  function Select(header: string): (r: Option<Operation>)
    ensures r.Some? ==> Lower(header) == Name(r.value)
    ensures r.None? ==> forall op :: Lower(header) != Name(op)
  {
    var name := Lower(header);
    if name == "add" then Some(Add)
    else if name == "subtract" then Some(Subtract)
    else if name == "multiply" then Some(Multiply)
    else if name == "divide" then Some(Divide)
    else None
  }

  /**
   * The handler. A missing or empty header is rejected before any name is
   * looked at; division checks its divisor; every rejection is a 400.
   */
  function Calculate(header: Option<string>, a: real, b: real): (r: Outcome)
    ensures r.Err? ==> r.status == 400
    ensures header.None? || header == Some("") ==> r.Err?
  {
    if header.None? || header.value == "" then Err(400, MissingOperation)
    else
      match Select(header.value)
      case None => Err(400, InvalidOperation)
      case Some(Add) => Ok(a + b)
      case Some(Subtract) => Ok(a - b)
      case Some(Multiply) => Ok(a * b)
      case Some(Divide) => if b == 0.0 then Err(400, DivisionByZero) else Ok(a / b)
  }

  /** The four names are distinct, so each header selects at most one operation. */
  lemma NamesDistinct(op1: Operation, op2: Operation)
    ensures Name(op1) == Name(op2) <==> op1 == op2
  {
  }

  /**
   * A header selects an operation exactly when it spells that operation's
   * name with each letter in either case: "ADD", "Add" and "add" all select Add.
   */
  lemma SelectBySpelling(header: string, op: Operation)
    ensures Select(header) == Some(op) <==> IsCaseVariant(header, Name(op))
  {
    LowerMatchesWord(header, Name(op));
    if Lower(header) == Name(op) {
      NamesDistinct(Select(header).value, op);
    }
  }

  /** A missing or empty Operation header is answered the same way whatever the operands. */
  lemma MissingHeaderRejected(header: Option<string>, a: real, b: real)
    requires header.None? || header == Some("")
    ensures Calculate(header, a, b) == Err(400, MissingOperation)
  {
  }

  /** Headers that agree after lower-casing give identical outcomes. */
  lemma CaseInsensitive(h1: string, h2: string, a: real, b: real)
    requires Lower(h1) == Lower(h2)
    ensures Calculate(Some(h1), a, b) == Calculate(Some(h2), a, b)
  {
  }

  /** Addition, subtraction and multiplication never fail, whatever the divisor-to-be. */
  lemma ArithmeticAlwaysSucceeds(header: string, a: real, b: real)
    ensures IsCaseVariant(header, "add") ==> Calculate(Some(header), a, b) == Ok(a + b)
    ensures IsCaseVariant(header, "subtract") ==> Calculate(Some(header), a, b) == Ok(a - b)
    ensures IsCaseVariant(header, "multiply") ==> Calculate(Some(header), a, b) == Ok(a * b)
  {
    SelectBySpelling(header, Add);
    SelectBySpelling(header, Subtract);
    SelectBySpelling(header, Multiply);
  }

  /** Division by zero is refused for every dividend; any other divisor yields the quotient. */
  lemma DivideGuard(header: string, a: real, b: real)
    requires IsCaseVariant(header, "divide")
    ensures b == 0.0 ==> Calculate(Some(header), a, b) == Err(400, DivisionByZero)
    ensures b != 0.0 ==> Calculate(Some(header), a, b) == Ok(a / b)
  {
    SelectBySpelling(header, Divide);
  }

  /** A non-empty header whose lower-case form names none of the four operations is invalid. */
  lemma UnknownOperationRejected(header: string, a: real, b: real)
    requires header != ""
    requires forall op :: !IsCaseVariant(header, Name(op))
    ensures Calculate(Some(header), a, b) == Err(400, InvalidOperation)
  {
    if Select(header).Some? {
      SelectBySpelling(header, Select(header).value);
    }
  }

  /**
   * The outcomes are exhaustive and exclusive: the handler succeeds exactly
   * when the header is present and names an operation, and that operation is
   * not a division by zero; every failure carries exactly one of the three
   * messages, each tied to its own cause.
   */
  lemma Classification(header: Option<string>, a: real, b: real)
    ensures Calculate(header, a, b).Ok? <==>
      header.Some? && exists op :: IsCaseVariant(header.value, Name(op)) && !(op == Divide && b == 0.0)
    ensures Calculate(header, a, b).Err? ==>
      Calculate(header, a, b) in {Err(400, MissingOperation), Err(400, InvalidOperation), Err(400, DivisionByZero)}
    ensures Calculate(header, a, b) == Err(400, MissingOperation) <==> header.None? || header == Some("")
    ensures Calculate(header, a, b) == Err(400, DivisionByZero) <==>
      header.Some? && IsCaseVariant(header.value, "divide") && b == 0.0
  {
    if header.Some? {
      var h := header.value;
      SelectBySpelling(h, Add);
      SelectBySpelling(h, Subtract);
      SelectBySpelling(h, Multiply);
      SelectBySpelling(h, Divide);
      if h == "" {
        forall op ensures !IsCaseVariant(h, Name(op)) {
        }
      }
    }
  }

  /** The worked examples: 10 and 5 under addition and subtraction. */
  lemma AddSubtractExamples()
    ensures Calculate(Some("add"), 10.0, 5.0) == Ok(15.0)
    ensures Calculate(Some("subtract"), 10.0, 5.0) == Ok(5.0)
  {
    LowerOfLowerCase("add");
    LowerOfLowerCase("subtract");
  }

  /** The worked examples: 10 and 5 under multiplication and division, and 10 divided by 0. */
  lemma MultiplyDivideExamples()
    ensures Calculate(Some("multiply"), 10.0, 5.0) == Ok(50.0)
    ensures Calculate(Some("divide"), 10.0, 5.0) == Ok(2.0)
    ensures Calculate(Some("divide"), 10.0, 0.0) == Err(400, DivisionByZero)
  {
    LowerOfLowerCase("multiply");
    LowerOfLowerCase("divide");
  }

  /** "ADD", "Add" and "add" all add; an unknown name is invalid. */
  lemma SpellingExamples()
    ensures Calculate(Some("ADD"), 10.0, 5.0) == Ok(15.0)
    ensures Calculate(Some("Add"), 10.0, 5.0) == Ok(15.0)
    ensures Calculate(Some("modulo"), 10.0, 5.0) == Err(400, InvalidOperation)
  {
    assert IsCaseVariant("ADD", "add");
    assert IsCaseVariant("Add", "add");
    ArithmeticAlwaysSucceeds("ADD", 10.0, 5.0);
    ArithmeticAlwaysSucceeds("Add", 10.0, 5.0);
    forall op ensures !IsCaseVariant("modulo", Name(op)) {
      if op == Divide {
        assert "modulo"[0] != "divide"[0] && "modulo"[0] != UpperChar("divide"[0]);
      }
    }
    UnknownOperationRejected("modulo", 10.0, 5.0);
  }
}
