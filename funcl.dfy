/**
 * The higher-order function objects of namespace `funcl`
 * (src/Utilities/Functional.hpp), evaluated over integer values.
 *
 * A C++ function object is a type; here it is a value of the datatype
 * `Functional`, and calling it is `Apply`. A call that would not compile
 * (wrong number of arguments, an index past the arity) and a debug
 * assertion that would fire both become an `Err`.
 */
module Funcl {
  import opened Wrappers

  /** The operators of `MAKE_BINARY_OPERATOR` and the integer-valued ones
      of `MAKE_BINARY_FUNCTIONAL`. */
  datatype BinaryOp = Plus | Minus | Multiplies | Divides | And | Or | Max | Min

  /** The operators of `MAKE_BINARY_INPLACE_OPERATOR`. */
  datatype AssignOp = PlusAssign | MinusAssign | MultAssign | DivAssign

  /** The integer-valued operators of `MAKE_UNARY_FUNCTIONAL`. */
  datatype UnaryOp = Abs | Negate

  datatype Functional =
    | Identity
    | Literal(value: int)
    | GetArgument(arity: nat, index: nat, inner: Functional)
    | Binary(op: BinaryOp, c0: Functional, c1: Functional)
    | Unary(uop: UnaryOp, c: Functional)
    | UnaryPow(exponent: nat, c: Functional)
    | Square(c: Functional)
    | AssertEqual(c: Functional)

  datatype Failure =
    | ArityMismatch   // the call does not compile
    | DivisionByZero  // integer division by zero is undefined in C++
    | NotEqual        // the ASSERT of AssertEqual fires
    | SizeMismatch    // the ASSERT of ElementWise fires

  /** The `arity` constant of each function object's `Functional<Arity>` base. */
  function Arity(f: Functional): nat {
    match f
    case Identity => 1
    case Literal(_) => 0
    case GetArgument(n, _, _) => n
    case Binary(_, c0, c1) => Arity(c0) + Arity(c1)
    case Unary(_, c) => Arity(c)
    case UnaryPow(_, c) => Arity(c)
    case Square(c) => Arity(c)
    case AssertEqual(_) => 2
  }

  /** A function object whose nested parts are instantiated consistently:
      the index of `GetArgument` is below its arity, and the parts that
      receive a single argument have arity one. */
  predicate WellFormed(f: Functional) {
    match f
    case Identity => true
    case Literal(_) => true
    case GetArgument(n, i, c) => i < n && Arity(c) == 1 && WellFormed(c)
    case Binary(_, c0, c1) => WellFormed(c0) && WellFormed(c1)
    case Unary(_, c) => WellFormed(c)
    case UnaryPow(_, c) => WellFormed(c)
    case Square(c) => WellFormed(c)
    case AssertEqual(c) => Arity(c) == 1 && WellFormed(c)
  }

  function AbsInt(x: int): nat {
    if x < 0 then -x else x
  }

  /** C++ integer division, which truncates toward zero (Dafny's `/` is
      Euclidean). */
  function TruncDiv(x: int, y: int): int
    requires y != 0
  {
    var m := AbsInt(x) / AbsInt(y);
    if (x < 0) == (y < 0) then m else -m
  }

  /** The remainder left by `TruncDiv` is smaller than the divisor and has
      the sign of the dividend, which is what rounding toward zero means. */
  lemma TruncDivRemainder(x: int, y: int)
    requires y != 0
    ensures AbsInt(x - TruncDiv(x, y) * y) < AbsInt(y)
    ensures x - TruncDiv(x, y) * y == 0 || (x - TruncDiv(x, y) * y < 0) == (x < 0)
  {
    var m := AbsInt(x) / AbsInt(y);
    var rem := AbsInt(x) % AbsInt(y);
    assert AbsInt(x) == m * AbsInt(y) + rem;
    if (x < 0) == (y < 0) {
      assert x - m * y == (if x < 0 then -rem else rem);
    } else {
      assert x - (-m) * y == (if x < 0 then -rem else rem);
    }
  }

  function Pow(x: int, n: nat): int {
    if n == 0 then 1 else x * Pow(x, n - 1)
  }

  function Combine(op: BinaryOp, x: int, y: int): (r: Result<int, Failure>)
    ensures r.Err? <==> op == Divides && y == 0
    ensures r.Err? ==> r.error == DivisionByZero
  {
    match op
    case Plus => Ok(x + y)
    case Minus => Ok(x - y)
    case Multiplies => Ok(x * y)
    case Divides => if y == 0 then Err(DivisionByZero) else Ok(TruncDiv(x, y))
    case And => Ok(if x != 0 && y != 0 then 1 else 0)
    case Or => Ok(if x != 0 || y != 0 then 1 else 0)
    case Max => Ok(if x < y then y else x)
    case Min => Ok(if y < x then y else x)
  }

  function ApplyUnary(op: UnaryOp, x: int): int {
    match op
    case Abs => AbsInt(x)
    case Negate => -x
  }

  /**
   * Calling a function object on `args`. A composite whose first part is
   * `Identity` uses the specialisation of the macros: the first argument
   * directly, and every remaining argument handed to the second part.
   * Every other composite uses the generic form `ApplyGeneric`.
   * A call with fewer arguments than the arity never compiles.
   */
  function Apply(f: Functional, args: seq<int>): (r: Result<int, Failure>)
    ensures |args| < Arity(f) ==> r == Err(ArityMismatch)
    decreases f, 1
  {
    match f
    case Identity =>
      if |args| == 1 then Ok(args[0]) else Err(ArityMismatch)
    case Literal(v) =>
      if |args| == 0 then Ok(v) else Err(ArityMismatch)
    case GetArgument(n, i, c) =>
      if |args| == n && i < n then Apply(c, [args[i]]) else Err(ArityMismatch)
    case Binary(op, c0, c1) =>
      if c0.Identity? then
        if |args| == 0 then Err(ArityMismatch)
        else
          assert Arity(f) == 1 + Arity(c1) && |args[1..]| == |args| - 1;
          match Apply(c1, args[1..])
          case Err(e) => Err(e)
          case Ok(y) => Combine(op, args[0], y)
      else
        ApplyGeneric(op, c0, c1, args)
    case Unary(op, c) =>
      (match Apply(c, args)
       case Err(e) => Err(e)
       case Ok(x) => Ok(ApplyUnary(op, x)))
    case UnaryPow(k, c) =>
      (match Apply(c, args)
       case Err(e) => Err(e)
       case Ok(x) => Ok(Pow(x, k)))
    case Square(c) =>
      (match Apply(c, args)
       case Err(e) => Err(e)
       case Ok(x) => Ok(x * x))
    case AssertEqual(c) =>
      if |args| != 2 || Arity(c) != 1 then Err(ArityMismatch)
      else
        match Apply(c, [args[0]])
        case Err(e) => Err(e)
        case Ok(x) =>
          match Apply(c, [args[1]])
          case Err(e) => Err(e)
          case Ok(y) => if x == y then Ok(x) else Err(NotEqual)
  }

  /** The operator applied to two results, the first failure winning. */
  function CombineResults(op: BinaryOp, r0: Result<int, Failure>, r1: Result<int, Failure>): Result<int, Failure> {
    match r0
    case Err(e) => Err(e)
    case Ok(x) =>
      match r1
      case Err(e) => Err(e)
      case Ok(y) => Combine(op, x, y)
  }
  /** Whether the call operator of `f` can be instantiated with `n`
      arguments: the check the compiler makes, independent of the values. */
  predicate Accepts(f: Functional, n: nat) {
    match f
    case Identity => n == 1
    case Literal(_) => n == 0
    case GetArgument(m, i, c) => n == m && i < m && Accepts(c, 1)
    case Binary(_, c0, c1) =>
      if c0.Identity? then n >= 1 && Accepts(c1, n - 1)
      else n >= Arity(c0) + Arity(c1) && Accepts(c0, Arity(c0)) && Accepts(c1, Arity(c1))
    case Unary(_, c) => Accepts(c, n)
    case UnaryPow(_, c) => Accepts(c, n)
    case Square(c) => Accepts(c, n)
    case AssertEqual(c) => n == 2 && Arity(c) == 1 && Accepts(c, 1)
  }

  /** The generic body of the binary macros: `C0` receives the first
      `C0::arity` arguments, `C1` the next `C1::arity`, and any further
      arguments are not used. */
  function ApplyGeneric(op: BinaryOp, c0: Functional, c1: Functional, args: seq<int>): (r: Result<int, Failure>)
    ensures |args| < Arity(c0) + Arity(c1) ==> r == Err(ArityMismatch)
    decreases Binary(op, c0, c1), 0
  {
    var a0, a1 := Arity(c0), Arity(c1);
    if |args| < a0 + a1 then Err(ArityMismatch)
    else CombineResults(op, Apply(c0, args[..a0]), Apply(c1, args[a0..a0 + a1]))
  }

  /** A consistently instantiated function object called with exactly its
      arity never fails to compile: the arity of a composite is the sum of
      its parts' arities. */
  lemma {:induction false} ExactArityAccepted(f: Functional, args: seq<int>)
    requires WellFormed(f) && |args| == Arity(f)
    ensures Apply(f, args) != Err(ArityMismatch)
    decreases f, 1
  {
    match f
    case Identity =>
    case Literal(_) =>
    case GetArgument(n, i, c) =>
      ExactArityAccepted(c, [args[i]]);
    case Binary(op, c0, c1) =>
      if c0.Identity? {
        IdentityExactArityAccepted(op, c1, args);
      } else {
        GenericExactArityAccepted(op, c0, c1, args);
      }
    case Unary(_, c) =>
      ExactArityAccepted(c, args);
    case UnaryPow(_, c) =>
      ExactArityAccepted(c, args);
    case Square(c) =>
      ExactArityAccepted(c, args);
    case AssertEqual(c) =>
      ExactArityAccepted(c, [args[0]]);
      ExactArityAccepted(c, [args[1]]);
  }

  /** The `Identity`-first composite case of `ExactArityAccepted`. */
  lemma {:induction false} IdentityExactArityAccepted(op: BinaryOp, c1: Functional, args: seq<int>)
    requires WellFormed(c1) && |args| == 1 + Arity(c1)
    ensures Apply(Binary(op, Identity, c1), args) != Err(ArityMismatch)
    decreases Binary(op, Identity, c1), 0
  {
    var rest := args[1..];
    ExactArityAccepted(c1, rest);
    IdentityKeepsFailures(op, c1, args, rest);
  }

  /** The generic composite case of `ExactArityAccepted`. */
  lemma {:induction false} GenericExactArityAccepted(op: BinaryOp, c0: Functional, c1: Functional, args: seq<int>)
    requires !c0.Identity? && WellFormed(c0) && WellFormed(c1) && |args| == Arity(c0) + Arity(c1)
    ensures Apply(Binary(op, c0, c1), args) != Err(ArityMismatch)
    decreases Binary(op, c0, c1), 0
  {
    var a0, a1 := Arity(c0), Arity(c1);
    var first, second := args[..a0], args[a0..a0 + a1];
    ExactArityAccepted(c0, first);
    ExactArityAccepted(c1, second);
    GenericAcceptsWhenPartsDo(op, c0, c1, args, first, second);
  }

  /** A call that compiles is never rejected for its number of arguments,
      whatever the argument values. */
  lemma {:induction false} AcceptedCallCompiles(f: Functional, args: seq<int>)
    requires Accepts(f, |args|)
    ensures Apply(f, args) != Err(ArityMismatch)
    decreases f, 1
  {
    match f
    case Identity =>
    case Literal(_) =>
    case GetArgument(n, i, c) =>
      AcceptedCallCompiles(c, [args[i]]);
    case Binary(op, c0, c1) =>
      if c0.Identity? {
        AcceptedIdentityCallCompiles(op, c1, args);
      } else {
        AcceptedGenericCallCompiles(op, c0, c1, args);
      }
    case Unary(_, c) =>
      AcceptedCallCompiles(c, args);
    case UnaryPow(_, c) =>
      AcceptedCallCompiles(c, args);
    case Square(c) =>
      AcceptedCallCompiles(c, args);
    case AssertEqual(c) =>
      AcceptedCallCompiles(c, [args[0]]);
      AcceptedCallCompiles(c, [args[1]]);
  }

  /** A consistently instantiated function object accepts a call with
      exactly its arity. */
  lemma {:induction false} WellFormedAcceptsItsArity(f: Functional)
    requires WellFormed(f)
    ensures Accepts(f, Arity(f))
  {
    match f
    case Identity =>
    case Literal(_) =>
    case GetArgument(_, _, c) =>
      WellFormedAcceptsItsArity(c);
    case Binary(_, c0, c1) =>
      WellFormedAcceptsItsArity(c0);
      WellFormedAcceptsItsArity(c1);
    case Unary(_, c) =>
      WellFormedAcceptsItsArity(c);
    case UnaryPow(_, c) =>
      WellFormedAcceptsItsArity(c);
    case Square(c) =>
      WellFormedAcceptsItsArity(c);
    case AssertEqual(c) =>
      WellFormedAcceptsItsArity(c);
  }

  /** The `Identity`-first composite case of `AcceptedCallCompiles`. */
  lemma {:induction false} AcceptedIdentityCallCompiles(op: BinaryOp, c1: Functional, args: seq<int>)
    requires |args| >= 1 && Accepts(c1, |args| - 1)
    ensures Apply(Binary(op, Identity, c1), args) != Err(ArityMismatch)
    decreases Binary(op, Identity, c1), 0
  {
    var rest := args[1..];
    AcceptedCallCompiles(c1, rest);
    IdentityKeepsFailures(op, c1, args, rest);
  }

  /** The generic composite case of `AcceptedCallCompiles`. */
  lemma {:induction false} AcceptedGenericCallCompiles(op: BinaryOp, c0: Functional, c1: Functional, args: seq<int>)
    requires !c0.Identity? && |args| >= Arity(c0) + Arity(c1)
    requires Accepts(c0, Arity(c0)) && Accepts(c1, Arity(c1))
    ensures Apply(Binary(op, c0, c1), args) != Err(ArityMismatch)
    decreases Binary(op, c0, c1), 0
  {
    var a0, a1 := Arity(c0), Arity(c1);
    var first, second := args[..a0], args[a0..a0 + a1];
    AcceptedCallCompiles(c0, first);
    AcceptedCallCompiles(c1, second);
    GenericAcceptsWhenPartsDo(op, c0, c1, args, first, second);
  }

  /** A generic composite rejects its arguments only if one of its parts
      rejects its block. */
  lemma GenericAcceptsWhenPartsDo(op: BinaryOp, c0: Functional, c1: Functional, args: seq<int>, first: seq<int>, second: seq<int>)
    requires !c0.Identity? && |args| >= Arity(c0) + Arity(c1)
    requires first == args[..Arity(c0)] && second == args[Arity(c0)..Arity(c0) + Arity(c1)]
    requires Apply(c0, first) != Err(ArityMismatch) && Apply(c1, second) != Err(ArityMismatch)
    ensures Apply(Binary(op, c0, c1), args) != Err(ArityMismatch)
  {
    GenericKeepsFailures(op, c0, c1, args);
    GenericLink(op, c0, c1, args);
  }

  /** An `Identity`-first composite fails only where its second part, or
      the operator, fails. */
  lemma IdentityKeepsFailures(op: BinaryOp, c1: Functional, args: seq<int>, rest: seq<int>)
    requires |args| >= 1 && rest == args[1..]
    ensures Apply(Binary(op, Identity, c1), args).Err? ==>
      Apply(Binary(op, Identity, c1), args) in {Apply(c1, rest), Err(DivisionByZero)}
  {
  }

  /** The generic composite fails only where one of its parts, or the
      operator, fails. */
  lemma GenericKeepsFailures(op: BinaryOp, c0: Functional, c1: Functional, args: seq<int>)
    requires |args| >= Arity(c0) + Arity(c1)
    ensures ApplyGeneric(op, c0, c1, args).Err? ==>
      ApplyGeneric(op, c0, c1, args) in
        {Apply(c0, args[..Arity(c0)]), Apply(c1, args[Arity(c0)..Arity(c0) + Arity(c1)]), Err(DivisionByZero)}
  {
  }

  /** The `Identity` specialisations agree with the generic form on a call
      with exactly the composite's arity. */
  lemma IdentitySpecialisationAgrees(op: BinaryOp, c1: Functional, args: seq<int>)
    requires |args| == 1 + Arity(c1)
    ensures Apply(Binary(op, Identity, c1), args) == ApplyGeneric(op, Identity, c1, args)
  {
    assert args[..1] == [args[0]];
    assert args[1..1 + Arity(c1)] == args[1..];
  }

  lemma GenericReadsOnlyItsBlocks(op: BinaryOp, c0: Functional, c1: Functional, a: seq<int>, b: seq<int>)
    requires |a| >= Arity(c0) + Arity(c1) && |b| >= Arity(c0) + Arity(c1)
    requires a[..Arity(c0)] == b[..Arity(c0)]
    requires a[Arity(c0)..Arity(c0) + Arity(c1)] == b[Arity(c0)..Arity(c0) + Arity(c1)]
    ensures ApplyGeneric(op, c0, c1, a) == ApplyGeneric(op, c0, c1, b)
  {
  }

  lemma GenericIgnoresSurplus(op: BinaryOp, c0: Functional, c1: Functional, args: seq<int>)
    requires !c0.Identity?
    requires |args| >= Arity(c0) + Arity(c1)
    ensures Apply(Binary(op, c0, c1), args)
         == Apply(Binary(op, c0, c1), args[..Arity(c0) + Arity(c1)])
  {
    var cut := args[..Arity(c0) + Arity(c1)];
    PrefixKeepsBlocks(args, Arity(c0), Arity(c1));
    GenericReadsOnlyItsBlocks(op, c0, c1, args, cut);
    GenericLink(op, c0, c1, args);
    GenericLink(op, c0, c1, cut);
  }

  /** Cutting an argument list after two blocks keeps both blocks. */
  lemma PrefixKeepsBlocks(args: seq<int>, a0: nat, a1: nat)
    requires |args| >= a0 + a1
    ensures args[..a0 + a1][..a0] == args[..a0]
    ensures args[..a0 + a1][a0..a0 + a1] == args[a0..a0 + a1]
  {
  }

  lemma GenericLink(op: BinaryOp, c0: Functional, c1: Functional, a: seq<int>)
    requires !c0.Identity?
    ensures Apply(Binary(op, c0, c1), a) == ApplyGeneric(op, c0, c1, a)
  {
  }

  /** `Square<C>` is `Multiplies<C, C>` called with its arguments twice. */
  lemma SquareIsSelfProduct(c: Functional, args: seq<int>)
    requires |args| == Arity(c)
    ensures Apply(Square(c), args) == Apply(Binary(Multiplies, c, c), args + args)
  {
    var both := args + args;
    if c.Identity? {
      assert both[1..] == [args[0]];
    } else {
      assert both[..Arity(c)] == args;
      assert both[Arity(c)..Arity(c) + Arity(c)] == args;
      SquareOfGeneric(c, args, both);
      GenericLink(Multiplies, c, c, both);
    }
  }

  lemma SquareOfGeneric(c: Functional, args: seq<int>, both: seq<int>)
    requires !c.Identity? && |both| == Arity(c) + Arity(c)
    requires both[..Arity(c)] == args && both[Arity(c)..Arity(c) + Arity(c)] == args
    ensures ApplyGeneric(Multiplies, c, c, both) == Apply(Square(c), args)
  {
    GenericOnBlocks(Multiplies, c, c, both);
    SquareOnResult(c, args);
    var r := Apply(c, args);
    assert ApplyGeneric(Multiplies, c, c, both) == CombineResults(Multiplies, r, r);
  }

  /** The generic composite combines the results of its parts on their
      blocks. */
  lemma GenericOnBlocks(op: BinaryOp, c0: Functional, c1: Functional, args: seq<int>)
    requires |args| >= Arity(c0) + Arity(c1)
    ensures ApplyGeneric(op, c0, c1, args)
         == CombineResults(op, Apply(c0, args[..Arity(c0)]), Apply(c1, args[Arity(c0)..Arity(c0) + Arity(c1)]))
  {
  }

  /** `Square<C>` squares the result of `C`. */
  lemma SquareOnResult(c: Functional, args: seq<int>)
    ensures Apply(Square(c), args) == CombineResults(Multiplies, Apply(c, args), Apply(c, args))
  {
    match Apply(c, args)
    case Err(_) =>
    case Ok(x) => assert Combine(Multiplies, x, x) == Ok(x * x);
  }



  /** `GetArgument<Arity, I, C>` looks only at argument `I`: replacing any
      other argument does not change the result. */
  lemma GetArgumentIgnoresOthers(n: nat, i: nat, c: Functional, args: seq<int>, j: nat, v: int)
    requires |args| == n && i < n && j < n && j != i
    ensures Apply(GetArgument(n, i, c), args) == Apply(c, [args[i]])
    ensures Apply(GetArgument(n, i, c), args[j := v]) == Apply(GetArgument(n, i, c), args)
  {
  }

  /** `AssertEqual<C>` returns a value only when `C` agrees on both
      arguments, and that value is `C` of the first. */
  lemma AssertEqualReturnsCommonValue(c: Functional, x: int, y: int)
    ensures Apply(AssertEqual(c), [x, y]).Ok? ==>
      Arity(c) == 1 && Apply(c, [x]) == Apply(c, [y]) == Apply(AssertEqual(c), [x, y])
    ensures Arity(c) == 1 && Apply(c, [x]).Ok? && Apply(c, [y]).Ok? && Apply(c, [x]) != Apply(c, [y]) ==>
      Apply(AssertEqual(c), [x, y]) == Err(NotEqual)
  {
  }

  /** An lvalue: the first argument of the in-place function objects. */
  class Cell {
    var value: int

    constructor (v: int)
      ensures value == v
    {
      value := v;
    }
  }

  function AssignedOperator(op: AssignOp): BinaryOp {
    match op
    case PlusAssign => Plus
    case MinusAssign => Minus
    case MultAssign => Multiplies
    case DivAssign => Divides
  }

  /**
   * `PlusAssign<Identity, C1>` and its siblings: `t0 OP= C1(ts...)`. The
   * first argument is updated to what the non-assigning operator computes,
   * and the call returns that same argument.
   */
  method ApplyAssign(op: AssignOp, c1: Functional, t0: Cell, ts: seq<int>) returns (r: Result<Cell, Failure>)
    modifies t0
    ensures match Apply(Binary(AssignedOperator(op), Identity, c1), [old(t0.value)] + ts)
      case Ok(v) => r == Ok(t0) && t0.value == v
      case Err(e) => r == Err(e) && t0.value == old(t0.value)
  {
    assert ([t0.value] + ts)[1..] == ts;
    match Apply(c1, ts) {
      case Err(e) =>
        r := Err(e);
      case Ok(y) =>
        match Combine(AssignedOperator(op), t0.value, y) {
          case Err(e) =>
            r := Err(e);
          case Ok(v) =>
            t0.value := v;
            r := Ok(t0);
        }
    }
  }

  /** An operand of `ElementWise`: a single value or a container. */
  datatype Operand = Scalar(x: int) | Vector(xs: seq<int>)

  /** `get_size`: a single value has size one. */
  function OperandSize(o: Operand): nat {
    match o
    case Scalar(_) => 1
    case Vector(xs) => |xs|
  }

  /** The size check of `ElementWise` as written: every further operand
      has the first operand's size or size one. */
  predicate SizesAgreeAsWritten(n: nat, ts: seq<Operand>) {
    forall k :: 0 <= k < |ts| ==> OperandSize(ts[k]) == n || OperandSize(ts[k]) == 1
  }

  /** Every element that the loop of `ElementWise` reads, `get_element(ts, i)`
      for `i < n`, lies inside its container. */
  predicate ReadsInBounds(n: nat, ts: seq<Operand>) {
    forall k :: 0 <= k < |ts| && ts[k].Vector? ==> n <= |ts[k].xs|
  }

  /** The size check that the documented intent needs: only single values
      are broadcast, and every container has the first operand's size. */
  predicate SizesAgree(n: nat, ts: seq<Operand>) {
    forall k :: 0 <= k < |ts| ==> ts[k].Scalar? || |ts[k].xs| == n
  }

  /** The check as written lets a one-element container through for a
      two-element first operand, and the loop then reads its element 1. */
  lemma ElementWiseCheckAdmitsShortVector()
    ensures SizesAgreeAsWritten(2, [Vector([5])])
    ensures !ReadsInBounds(2, [Vector([5])])
  {
    var ts := [Vector([5])];
    assert ts[0].Vector? && !(2 <= |ts[0].xs|);
  }

  /** The corrected check is at least as strict as the written one and
      keeps every read in bounds. */
  lemma SizesAgreeIsSafe(n: nat, ts: seq<Operand>)
    requires SizesAgree(n, ts)
    ensures ReadsInBounds(n, ts)
    ensures SizesAgreeAsWritten(n, ts)
  {
  }

  /** `get_element(t, i)`: a single value is broadcast to every index. */
  function ElementAt(o: Operand, i: nat): int
    requires o.Scalar? || i < |o.xs|
  {
    match o
    case Scalar(x) => x
    case Vector(xs) => xs[i]
  }

  /** The further arguments handed to `C` at index `i`. */
  function Elements(ts: seq<Operand>, i: nat): (es: seq<int>)
    requires forall k :: 0 <= k < |ts| ==> ts[k].Scalar? || i < |ts[k].xs|
    ensures |es| == |ts|
  {
    seq(|ts|, k requires 0 <= k < |ts| => ElementAt(ts[k], i))
  }

  /**
   * `ElementWise<C>`: the result has the first operand's size, and its
   * element `i` is `C` applied to element `i` of every operand, single
   * values broadcast. A call of `C` that does not compile is rejected
   * whatever the sizes; a size disagreement or a failing call is an error.
   */
  method ElementWise(c: Functional, t0: seq<int>, ts: seq<Operand>) returns (r: Result<seq<int>, Failure>)
    ensures r == Err(ArityMismatch) <==> !Accepts(c, 1 + |ts|)
    ensures Accepts(c, 1 + |ts|) && !SizesAgree(|t0|, ts) ==> r == Err(SizeMismatch)
    ensures Accepts(c, 1 + |ts|) && SizesAgree(|t0|, ts) ==>
      (r.Ok? <==> forall i :: 0 <= i < |t0| ==> Apply(c, [t0[i]] + Elements(ts, i)).Ok?)
    ensures r.Ok? ==> SizesAgree(|t0|, ts) && |r.value| == |t0| &&
                      forall i :: 0 <= i < |t0| ==> Apply(c, [t0[i]] + Elements(ts, i)) == Ok(r.value[i])
  {
    if !Accepts(c, 1 + |ts|) {
      return Err(ArityMismatch);
    }
    var size := |t0|;
    if !SizesAgree(size, ts) {
      return Err(SizeMismatch);
    }
    var result := new int[size];
    var i := 0;
    while i < size
      invariant 0 <= i <= size
      invariant forall j :: 0 <= j < i ==> Apply(c, [t0[j]] + Elements(ts, j)) == Ok(result[j])
    {
      match Apply(c, [t0[i]] + Elements(ts, i)) {
        case Err(e) =>
          AcceptedCallCompiles(c, [t0[i]] + Elements(ts, i));
          return Err(e);
        case Ok(v) =>
          result[i] := v;
      }
      i := i + 1;
    }
    r := Ok(result[..]);
  }

  /**
   * `Merge<C0, C1>`: `C0(t0)` merged with `C1(t1)` by `std::map::merge`.
   * The result holds every key of both; a key present in both keeps the
   * value from the first container.
   */
  function Merge<K, V>(c0: map<K, V> -> map<K, V>, c1: map<K, V> -> map<K, V>,
                       t0: map<K, V>, t1: map<K, V>): (r: map<K, V>)
    ensures r.Keys == c0(t0).Keys + c1(t1).Keys
    ensures forall k :: k in c0(t0) ==> r[k] == c0(t0)[k]
    ensures forall k :: k in c1(t1) && k !in c0(t0) ==> r[k] == c1(t1)[k]
  {
    var result, toMerge := c0(t0), c1(t1);
    toMerge + result
  }

  /** Merging containers with disjoint keys does not depend on their order. */
  lemma MergeDisjointCommutes<K, V>(t0: map<K, V>, t1: map<K, V>)
    requires t0.Keys !! t1.Keys
    ensures Merge(m => m, m => m, t0, t1) == Merge(m => m, m => m, t1, t0)
  {
    var a := Merge(m => m, m => m, t0, t1);
    var b := Merge(m => m, m => m, t1, t0);
    assert a.Keys == b.Keys;
    forall k | k in a
      ensures a[k] == b[k]
    {
    }
  }
}
