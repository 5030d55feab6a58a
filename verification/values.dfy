/**
 * The runtime value union. The C# interpreter passes `object`s around; the
 * values it can meet are null, boxed doubles, strings, booleans, the boxed
 * `int` 1 that `^` returns for a zero exponent, and references to runtime
 * objects (functions, classes, instances), which are compared by identity.
 */
module Values {

  datatype Value =
    | Nil                 // C# null, printed as the empty string
    | Num(n: real)        // a boxed double
    | Str(s: string)      // a string
    | Bool(b: bool)       // a boxed bool
    | Int(i: int)         // a boxed int
    | Ref(addr: nat)      // a reference object, equal only to itself

  /**
   * How the host formats what the model does not: doubles (C#'s
   * culture-dependent number formatting) and reference objects (their
   * `ToString` overrides, which need the heap).
   */
  datatype Printer = Printer(number: real -> string, reference: nat -> string)

  /** Decimal digits of a natural number. */
  function NatText(n: nat): (r: string)
    ensures |r| > 0
    ensures forall k :: 0 <= k < |r| ==> '0' <= r[k] <= '9'
  {
    var d := [(n % 10) as char + '0' as char] ;
    if n < 10 then d else NatText(n / 10) + d
  }

  /** The text C# string interpolation produces for a value. */
  function Show(v: Value, p: Printer): string {
    match v
    case Nil => ""
    case Num(n) => p.number(n)
    case Str(s) => s
    case Bool(b) => if b then "True" else "False"
    case Int(i) => if i < 0 then "-" + NatText(-i) else NatText(i)
    case Ref(a) => p.reference(a)
  }
}
