/**
 * The command tree shared by every stage of the compiler: a program is an
 * ordered sequence of commands, each one of four closed variants.  The
 * visitor classes and shared pointers of the C++ code become a datatype
 * consumed by `match`.
 */
module Commands {

  datatype ArithType = Add | Sub
  datatype ShiftType = Left | Right
  datatype IoType = In | Out

  /** A command; `amount` is an unsigned count (1 when it comes from the parser). */
  datatype Command =
    | Arithmetic(arith: ArithType, amount: nat)
    | Shift(shift: ShiftType, amount: nat)
    | IO(io: IoType)
    | Loop(body: seq<Command>)

  /** A program is the list of top-level commands. */
  type Program = seq<Command>

  /** A program is ill-formed exactly when it has no commands at all. */
  predicate IllFormed(p: Program) {
    |p| == 0
  }

  /** The signed change a command makes: Add and Right count up, Sub and Left count down. */
  function Delta(c: Command): (r: int)
    ensures c.Arithmetic? || c.Shift? ==> r == c.amount || r == -(c.amount as int)
    ensures r > 0 ==> (c.Arithmetic? && c.arith == Add) || (c.Shift? && c.shift == Right)
    ensures r < 0 ==> (c.Arithmetic? && c.arith == Sub) || (c.Shift? && c.shift == Left)
    ensures c.IO? || c.Loop? ==> r == 0
  {
    match c
    case Arithmetic(Add, n) => n
    case Arithmetic(Sub, n) => -(n as int)
    case Shift(Right, n) => n
    case Shift(Left, n) => -(n as int)
    case IO(_) => 0
    case Loop(_) => 0
  }

  /** Number of nodes in a command tree; used as a termination measure. */
  function Size(c: Command): nat
    decreases c
  {
    match c
    case Loop(b) => 1 + SeqSize(b)
    case _ => 1
  }

  function SeqSize(s: seq<Command>): nat
    decreases s
  {
    if s == [] then 0 else Size(s[0]) + SeqSize(s[1..])
  }

  /** Every command of a sequence is no larger than the sequence. */
  lemma {:induction false} SizeOfElement(s: seq<Command>, k: nat)
    requires k < |s|
    ensures Size(s[k]) <= SeqSize(s)
    decreases |s|
  {
    if k > 0 {
      SizeOfElement(s[1..], k - 1);
    }
  }

  /** Every amount in the tree is exactly 1: the shape the parser builds. */
  predicate UnitAmounts(p: Program)
    decreases p
  {
    forall k :: 0 <= k < |p| ==> UnitCommand(p[k])
  }

  predicate UnitCommand(c: Command)
    decreases c
  {
    match c
    case Arithmetic(_, n) => n == 1
    case Shift(_, n) => n == 1
    case IO(_) => true
    case Loop(b) => UnitAmounts(b)
  }

  /** Every amount in the tree is strictly positive. */
  predicate PositiveAmounts(p: Program)
    decreases p
  {
    forall k :: 0 <= k < |p| ==> PositiveCommand(p[k])
  }

  predicate PositiveCommand(c: Command)
    decreases c
  {
    match c
    case Arithmetic(_, n) => n > 0
    case Shift(_, n) => n > 0
    case IO(_) => true
    case Loop(b) => PositiveAmounts(b)
  }

  /** No loop anywhere in the tree has an empty body. */
  predicate NoEmptyLoops(p: Program)
    decreases p
  {
    forall k :: 0 <= k < |p| ==> NoEmptyLoop(p[k])
  }

  predicate NoEmptyLoop(c: Command)
    decreases c
  {
    match c
    case Loop(b) => b != [] && NoEmptyLoops(b)
    case _ => true
  }
}
