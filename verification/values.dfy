/** Runtime values and the interpreter's value-level helpers: truthiness,
    equality, the callable protocol and `stringify`. */
module Values {
  import opened Wrappers
  import opened Tokens
  import opened Ast
  import Scanner

  /** A Lox value. JavaScript's `null` and `undefined` both appear as `Nil`:
      every helper the evaluator uses treats them alike. Numbers are exact
      reals. A `Function` is one `LoxFunction` object: `id` tells apart
      objects created by different executions of a declaration, and
      `closure` is the arena index of the frame it captured. `Clock` is the
      native `clock` object defined in the global frame. */
  datatype Value =
    | Nil
    | Bool(b: bool)
    | Num(n: real)
    | Str(s: string)
    | Function(id: nat, decl: FunDecl, closure: nat)
    | Clock

  /** Why evaluation stopped early. A `RuntimeError` is the language's own
      error, with its token and message. A `HostError` is a JavaScript error
      raised by the host (such as calling a property of `null`). `Unsupported`
      marks behaviour outside the model (floating-point corner cases, JS
      coercions, classes, the wall clock). `OutOfFuel` marks a run cut short
      by the evaluator's step bound. */
  datatype Signal =
    | RuntimeError(token: Token, message: string)
    | HostError(message: string)
    | Unsupported(reason: string)
    | OutOfFuel

  /** `isTruthy`: only nil and false are falsy. */
  predicate IsTruthy(v: Value) {
    match v
    case Nil => false
    case Bool(b) => b
    case _ => true
  }

  /** JavaScript's `===` on the modelled values: same type and same
      primitive value, and the same object for functions and the clock. */
  predicate StrictEquals(a: Value, b: Value) {
    match (a, b)
    case (Nil, Nil) => true
    case (Bool(x), Bool(y)) => x == y
    case (Num(x), Num(y)) => x == y
    case (Str(x), Str(y)) => x == y
    case (Function(i, _, _), Function(j, _, _)) => i == j
    case (Clock, Clock) => true
    case _ => false
  }

  /** `isEqual`: nil equals only nil; otherwise strict equality. */
  predicate IsEqual(a: Value, b: Value) {
    if a.Nil? && b.Nil? then true
    else if a.Nil? then false
    else StrictEquals(a, b)
  }

  /** Whether a value answers `call`: functions and the clock. */
  predicate IsCallable(v: Value) {
    v.Function? || v.Clock?
  }

  /** `arity`: the number of declared parameters; the clock takes none. */
  function Arity(f: Value): nat
    requires IsCallable(f)
  {
    if f.Function? then |f.decl.params| else 0
  }

  /** The lexical value of a literal node: a decimal literal is the exact
      rational it denotes. */
  function LiteralValueOf(lit: LiteralValue): (v: Value)
    ensures lit.NumberLit? ==> v.Num? && v.n * Pow10(lit.number.scale) as real == lit.number.digits as real
  {
    match lit
    case NilLit => Nil
    case BoolLit(b) => Bool(b)
    case NumberLit(d) => Num(d.digits as real / Pow10(d.scale) as real)
    case StringLit(s) => Str(s)
  }

  function Pow10(k: nat): (p: nat)
    ensures p > 0
  {
    if k == 0 then 1 else 10 * Pow10(k - 1)
  }

  /** The digit character for `d`. */
  function Digit(d: nat): (c: char)
    requires d < 10
    ensures Scanner.IsDigit(c) && (c as int) - ('0' as int) == d
  {
    (('0' as int) + d) as char
  }

  /** The decimal text of a natural number, as JavaScript prints it. */
  function NatToString(n: nat): (s: string)
    ensures |s| > 0 && forall k :: 0 <= k < |s| ==> Scanner.IsDigit(s[k])
    decreases n
  {
    if n < 10 then [Digit(n)] else NatToString(n / 10) + [Digit(n % 10)]
  }

  /** The decimal text of an integer: a minus sign, then the digits. */
  function IntToString(i: int): string {
    if i < 0 then "-" + NatToString(-i) else NatToString(i)
  }

  /** The largest magnitude JavaScript prints as a plain integer. */
  const PlainIntegerLimit: real := 1000000000000000000000.0

  /** `stringify`, the text `print` writes: `nil`, `true`/`false`, the
      text of a string, `<fn name>` for a function (its `toString`) and
      `<native fn>` for the clock. Numbers that are not integers of
      magnitude below 10^21 are printed by JavaScript's floating-point
      formatting, which is not modelled: they give None. */
  function Stringify(v: Value): (s: Option<string>)
    ensures v.Nil? ==> s == Some("nil")
    ensures v.Bool? ==> s == Some(if v.b then "true" else "false")
    ensures v.Str? ==> s == Some(v.s)
    ensures v.Function? ==> s == Some("<fn " + v.decl.name.lexeme + ">")
    ensures v.Clock? ==> s == Some("<native fn>")
    ensures v.Num? && s.Some? ==> s.value == IntToString(v.n.Floor)
    ensures s.None? <==> v.Num? && (v.n != v.n.Floor as real || v.n <= -PlainIntegerLimit || PlainIntegerLimit <= v.n)
  {
    match v
    case Nil => Some("nil")
    case Bool(b) => Some(if b then "true" else "false")
    case Num(x) =>
      if x == x.Floor as real && -PlainIntegerLimit < x < PlainIntegerLimit then Some(IntToString(x.Floor)) else None
    case Str(s) => Some(s)
    case Function(_, decl, _) => Some("<fn " + decl.name.lexeme + ">")
    case Clock => Some("<native fn>")
  }

  /** `isEqual` is JavaScript's strict equality: `nil == nil` is the only
      case its first test adds, and `===` already decides it. */
  lemma IsEqualIsStrictEquals(a: Value, b: Value)
    ensures IsEqual(a, b) <==> StrictEquals(a, b)
  {
  }

  /** Nil equals nil and nothing else, on either side. */
  lemma NilEqualsOnlyNil(v: Value)
    ensures IsEqual(Nil, v) <==> v == Nil
    ensures IsEqual(v, Nil) <==> v == Nil
  {
  }

  /** On every value but functions, `isEqual` is value equality; functions
      are equal exactly when they are the same object. */
  lemma IsEqualIsIdentity(a: Value, b: Value)
    ensures !a.Function? ==> (IsEqual(a, b) <==> a == b)
    ensures a.Function? ==> (IsEqual(a, b) <==> b.Function? && a.id == b.id)
  {
  }

  /** `isEqual` is an equivalence relation. */
  lemma IsEqualEquivalence(a: Value, b: Value, c: Value)
    ensures IsEqual(a, a)
    ensures IsEqual(a, b) ==> IsEqual(b, a)
    ensures IsEqual(a, b) && IsEqual(b, c) ==> IsEqual(a, c)
  {
  }

  /** Printing a natural number and scanning the digits back gives the
      number again. */
  lemma {:induction false} NatToStringRoundTrip(n: nat)
    ensures Scanner.DigitsValue(NatToString(n)) == n
    decreases n
  {
    var s := NatToString(n);
    if n < 10 {
      assert s[..0] == [];
    } else {
      var prefix := NatToString(n / 10);
      NatToStringRoundTrip(n / 10);
      assert s[..|s| - 1] == prefix;
    }
  }
}
