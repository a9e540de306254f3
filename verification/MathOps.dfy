/**
  Commands, completions and the arithmetic of the mathaccel device.
*/
module MathOps {

  const MATH_OP_ADD := 0
  const MATH_OP_SUB := 1
  const MATH_OP_MUL := 2
  const MATH_OP_DIV := 3
  const MATH_OP_COUNT := 4

  const COMPLETION_SUCCESS := 1
  const COMPLETION_ERROR_UNKNOWN_CMD := 2
  const COMPLETION_ERROR_DIV_BY_ZERO := 4

  const EINVAL := 22

  /** One slot of the submission ring. */
  datatype SqEntry = SqEntry(opcode: nat, cmdId: nat, arg0: int, arg1: int)

  /** One slot of the completion ring; `valid` is set by the device and cleared by the driver. */
  datatype CqEntry = CqEntry(cmdId: nat, status: nat, result: int, valid: bool)

  predicate IsS32(x: int) {
    -0x8000_0000 <= x < 0x8000_0000
  }

  /** Two's complement value of the low 32 bits of `x`. */
  function WrapS32(x: int): (r: int)
    ensures IsS32(r)
    ensures (x - r) % 0x1_0000_0000 == 0
    ensures IsS32(x) ==> r == x
  {
    (x + 0x8000_0000) % 0x1_0000_0000 - 0x8000_0000
  }

  function Abs(x: int): nat {
    if x < 0 then -x else x
  }

  /** Division that rounds toward zero, as the `/` of C does. */
  function TruncDiv(a: int, b: int): int
    requires b != 0
  {
    if (a < 0) == (b < 0) then Abs(a) / Abs(b) else -(Abs(a) / Abs(b))
  }

  predicate IsKnownOp(opcode: nat) {
    opcode < MATH_OP_COUNT
  }

  /** The value an operation has over the integers, before it is stored in 32 bits. */
  function ExactValue(opcode: nat, a: int, b: int): int
    requires IsKnownOp(opcode)
    requires opcode == MATH_OP_DIV ==> b != 0
  {
    if opcode == MATH_OP_ADD then a + b
    else if opcode == MATH_OP_SUB then a - b
    else if opcode == MATH_OP_MUL then a * b
    else TruncDiv(a, b)
  }

  /** The completion the device writes for a command. */
  function Execute(cmd: SqEntry): (res: CqEntry)
    ensures res.valid && res.cmdId == cmd.cmdId
  {
    if !IsKnownOp(cmd.opcode) then
      CqEntry(cmd.cmdId, COMPLETION_ERROR_UNKNOWN_CMD, -1, true)
    else if cmd.opcode == MATH_OP_DIV && cmd.arg1 == 0 then
      CqEntry(cmd.cmdId, COMPLETION_ERROR_DIV_BY_ZERO, -1, true)
    else
      CqEntry(cmd.cmdId, COMPLETION_SUCCESS, WrapS32(ExactValue(cmd.opcode, cmd.arg0, cmd.arg1)), true)
  }

  /**
    `execute_operation`: fills the completion by a switch on the opcode and reports a
    user-level failure through its return value.
  */
  method ExecuteOperation(cmd: SqEntry) returns (res: CqEntry, ret: int)
    ensures res == Execute(cmd)
    ensures IsAnswer(cmd.opcode, cmd.arg0, cmd.arg1, res.status, res.result)
    ensures ret == 0 <==> IsKnownOp(cmd.opcode) && !(cmd.opcode == MATH_OP_DIV && cmd.arg1 == 0)
    ensures ret == 0 || ret == -22
  {
    var status, result := COMPLETION_SUCCESS, 0;
    match cmd.opcode {
      case 0 => result := WrapS32(cmd.arg0 + cmd.arg1);
      case 1 => result := WrapS32(cmd.arg0 - cmd.arg1);
      case 2 => result := WrapS32(cmd.arg0 * cmd.arg1);
      case 3 =>
        if cmd.arg1 == 0 {
          status, result := COMPLETION_ERROR_DIV_BY_ZERO, -1;
        } else {
          result := WrapS32(TruncDiv(cmd.arg0, cmd.arg1));
        }
      case _ =>
        status, result := COMPLETION_ERROR_UNKNOWN_CMD, -1;
    }
    res := CqEntry(cmd.cmdId, status, result, true);
    ret := if status == COMPLETION_SUCCESS then 0 else -EINVAL;
    ExecuteAnswers(cmd);
  }

  /** Quotient and remainder of the truncating division: the remainder has the dividend's sign. */
  lemma TruncDivLaw(a: int, b: int)
    requires b != 0
    ensures Abs(a - b * TruncDiv(a, b)) < Abs(b)
    ensures a >= 0 ==> a - b * TruncDiv(a, b) >= 0
    ensures a <= 0 ==> a - b * TruncDiv(a, b) <= 0
  {
    var q, r := Abs(a) / Abs(b), Abs(a) % Abs(b);
    assert Abs(a) == Abs(b) * q + r;
    if a >= 0 && b > 0 {
      assert a - b * TruncDiv(a, b) == r;
    } else if a >= 0 {
      assert b * -q == Abs(b) * q;
      assert a - b * TruncDiv(a, b) == r;
    } else if b > 0 {
      assert b * -q == -(Abs(b) * q);
      assert a - b * TruncDiv(a, b) == -r;
    } else {
      assert b * q == -(Abs(b) * q);
      assert a - b * TruncDiv(a, b) == -r;
    }
  }

  /** `q` is the quotient of C: what is left over is less than the divisor, on the dividend's side of zero. */
  predicate IsQuotient(a: int, b: int, q: int) {
    && Abs(a - b * q) < Abs(b)
    && (a >= 0 ==> a - b * q >= 0)
    && (a <= 0 ==> a - b * q <= 0)
  }

  /** No other number is. */
  lemma QuotientIsOne(a: int, b: int, q: int, q': int)
    requires IsQuotient(a, b, q) && IsQuotient(a, b, q')
    ensures q == q'
  {
    var d := q - q';
    assert b * q - b * q' == b * d;
    if d != 0 {
      ProductIsFar(b, d);
    }
  }

  lemma ProductIsFar(b: int, d: int)
    requires d != 0
    ensures Abs(b * d) >= Abs(b)
  {
    var m, k := Abs(b), Abs(d);
    AbsOfProduct(b, d);
    TimesAtLeast(m, k);
  }

  lemma AbsOfProduct(b: int, d: int)
    ensures Abs(b * d) == Abs(b) * Abs(d)
  {
    if b < 0 && d < 0 {
      assert -b * -d == b * d;
      NotNegative(-b, -d);
    } else if b < 0 {
      assert -b * d == -(b * d);
      NotNegative(-b, d);
    } else if d < 0 {
      assert b * -d == -(b * d);
      NotNegative(b, -d);
    } else {
      NotNegative(b, d);
    }
  }

  lemma NotNegative(m: nat, k: nat)
    ensures m * k >= 0
  {
  }

  lemma TimesAtLeast(m: nat, k: nat)
    requires k > 0
    ensures m * k >= m
  {
    assert m * k == m * (k - 1) + m;
    NotNegative(m, k - 1);
  }

  /** `r` is the signed value of the low 32 bits of `x`. */
  predicate IsLow32(x: int, r: int) {
    IsS32(r) && (x - r) % 0x1_0000_0000 == 0
  }

  lemma Low32IsOne(x: int, r: int, r': int)
    requires IsLow32(x, r) && IsLow32(x, r')
    ensures r == r'
  {
    var i, j := (x - r) / 0x1_0000_0000, (x - r') / 0x1_0000_0000;
    assert r - r' == 0x1_0000_0000 * (j - i);
  }

  /**
    The answer to a command, by the numbers of the interface: 0 adds, 1 subtracts, 2
    multiplies, each in 32 bits; 3 divides; status 1 is success, 2 an unknown opcode, 4 a
    division by zero.
  */
  predicate IsAnswer(opcode: nat, a: int, b: int, status: nat, result: int) {
    match opcode
    case 0 => status == 1 && IsLow32(a + b, result)
    case 1 => status == 1 && IsLow32(a - b, result)
    case 2 => status == 1 && IsLow32(a * b, result)
    case 3 =>
      if b == 0 then status == 4 && result == -1
      else status == 1 && (IsS32(a) && IsS32(b) && !(a == -0x8000_0000 && b == -1) ==> IsQuotient(a, b, result))
    case _ => status == 2 && result == -1
  }

  lemma ExecuteAnswers(cmd: SqEntry)
    ensures IsAnswer(cmd.opcode, cmd.arg0, cmd.arg1, Execute(cmd).status, Execute(cmd).result)
  {
    if cmd.opcode == 3 && cmd.arg1 != 0 {
      TruncDivLaw(cmd.arg0, cmd.arg1);
      if IsS32(cmd.arg0) && IsS32(cmd.arg1) {
        DivisionFits(cmd.arg0, cmd.arg1);
      }
    }
  }

  /** For 32-bit operands there is one answer, but for the division that C leaves undefined. */
  lemma AnswerIsOne(opcode: nat, a: int, b: int, status: nat, result: int, status': nat, result': int)
    requires IsAnswer(opcode, a, b, status, result) && IsAnswer(opcode, a, b, status', result')
    requires IsS32(a) && IsS32(b) && !Traps(opcode, a, b)
    ensures status == status' && result == result'
  {
    hide IsQuotient, IsLow32;
    match opcode
    case 0 => Low32IsOne(a + b, result, result');
    case 1 => Low32IsOne(a - b, result, result');
    case 2 => Low32IsOne(a * b, result, result');
    case 3 =>
      if b != 0 {
        QuotientIsOne(a, b, result, result');
      }
    case _ =>
  }

  /** The one operation whose C division is undefined, and traps on common processors. */
  predicate Traps(opcode: nat, a: int, b: int) {
    opcode == MATH_OP_DIV && a == -0x8000_0000 && b == -1
  }

  /**
    A known operation on 32-bit operands that divides neither by zero nor the least number by
    -1 succeeds, and carries the mathematical result if and only if that fits 32 bits; for a
    division it always does.
  */
  lemma ExecuteIsExact(cmd: SqEntry)
    requires IsKnownOp(cmd.opcode)
    requires cmd.opcode == MATH_OP_DIV ==> cmd.arg1 != 0
    requires IsS32(cmd.arg0) && IsS32(cmd.arg1)
    ensures !Traps(cmd.opcode, cmd.arg0, cmd.arg1) ==>
              && Execute(cmd).status == COMPLETION_SUCCESS
              && (Execute(cmd).result == ExactValue(cmd.opcode, cmd.arg0, cmd.arg1)
                  <==> IsS32(ExactValue(cmd.opcode, cmd.arg0, cmd.arg1)))
              && (cmd.opcode == MATH_OP_DIV ==> Execute(cmd).result == TruncDiv(cmd.arg0, cmd.arg1))
  {
    if cmd.opcode == MATH_OP_DIV {
      DivisionFits(cmd.arg0, cmd.arg1);
    }
  }

  /** Division overflows 32 bits for exactly one pair of operands. */
  lemma DivisionFits(a: int, b: int)
    requires IsS32(a) && IsS32(b) && b != 0
    ensures IsS32(TruncDiv(a, b)) <==> !Traps(MATH_OP_DIV, a, b)
  {
    QuotientBound(Abs(a), Abs(b));
    if a == -0x8000_0000 && b == -1 {
      assert TruncDiv(a, b) == 0x8000_0000;
    } else if Abs(b) == 1 {
      assert Abs(a) / Abs(b) == Abs(a);
    }
  }

  /** A natural quotient never exceeds its dividend, and reaches it only for divisor one. */
  lemma QuotientBound(a: nat, b: nat)
    requires b > 0
    ensures a / b <= a
    ensures b >= 2 && a > 0 ==> a / b < a
  {
    var q := a / b;
    assert a == b * q + a % b;
    if b >= 2 && q > 0 {
      assert b * q >= 2 * q;
    }
  }
}
