/**
 * Classes and their instances (Runtime/VowelClass.cs, Runtime/Instance.cs).
 * A class is known by the token of its declaration; calling it makes an
 * instance with no fields; an instance's fields are a dictionary that
 * refuses a second `Set` of the same name.
 */
module Classes {
  import opened Wrappers
  import opened Values
  import opened Tokens
  import opened Errors

  /** The part of a class statement a class reads: its name token. */
  datatype ClassDeclaration = ClassDeclaration(token: Token)

  datatype VowelClass = VowelClass(declaration: ClassDeclaration)

  datatype VowelInstance = VowelInstance(vowelClass: VowelClass, fields: map<string, Value>)

  /** A class takes no arguments. */
  function Arity(c: VowelClass): (r: nat)
    ensures r == 0
  {
    0
  }

  /**
   * Calling a class makes a fresh instance of it with no fields. The
   * arguments are not read, and the arity is not checked here.
   */
  function Call(c: VowelClass, arguments: seq<Value>): (r: VowelInstance)
    ensures r.vowelClass == c && |r.fields| == 0
  {
    VowelInstance(c, map[])
  }

  /** A class prints as its name. */
  function ClassText(c: VowelClass): (r: string)
    ensures r == c.declaration.token.lexeme
  {
    c.declaration.token.lexeme
  }

  /** The field `lexeme`, or "Undefined property". */
  function Get(i: VowelInstance, lexeme: string): (r: Result<Value, Fault>)
    ensures r.Success? <==> lexeme in i.fields
    ensures r.Success? ==> r.value == i.fields[lexeme]
    ensures r.Failure? ==> r.error == RuntimeError("Undefined property " + lexeme)
  {
    if lexeme in i.fields then Success(i.fields[lexeme])
    else Failure(RuntimeError("Undefined property " + lexeme))
  }

  /** Adds the field `lexeme`; `Dictionary.Add` throws when it is already there. */
  function Set(i: VowelInstance, lexeme: string, obj: Value): (r: Result<VowelInstance, Fault>)
    ensures r.Success? <==> lexeme !in i.fields
    ensures r.Failure? ==> r.error == SystemFault(DuplicateKey)
    ensures r.Success? ==> r.value.vowelClass == i.vowelClass
    ensures r.Success? ==> r.value.fields.Keys == i.fields.Keys + {lexeme}
    ensures r.Success? ==> forall k :: k in i.fields ==> r.value.fields[k] == i.fields[k]
  {
    if lexeme in i.fields then Failure(SystemFault(DuplicateKey))
    else Success(i.(fields := i.fields[lexeme := obj]))
  }

  /** An instance prints as its class's name followed by " instance". */
  function InstanceText(i: VowelInstance): (r: string)
    ensures |r| == |i.vowelClass.declaration.token.lexeme| + 9
    ensures r[..|ClassText(i.vowelClass)|] == ClassText(i.vowelClass)
    ensures r[|ClassText(i.vowelClass)|..] == " instance"
  {
    ClassText(i.vowelClass) + " instance"
  }

  /** A field reads back what `Set` stored, and a second `Set` of it fails. */
  lemma {:induction false} GetAfterSet(i: VowelInstance, lexeme: string, obj: Value, other: string)
    requires lexeme !in i.fields
    ensures var j := Set(i, lexeme, obj).value;
            && Get(j, lexeme) == Success(obj)
            && (other != lexeme ==> Get(j, other) == Get(i, other))
            && Set(j, lexeme, obj).Failure?
  {
  }

  /** A new instance has no properties: every `Get` fails, and every first `Set` succeeds. */
  lemma {:induction false} NewInstanceIsEmpty(c: VowelClass, arguments: seq<Value>, lexeme: string, obj: Value)
    ensures Get(Call(c, arguments), lexeme) == Failure(RuntimeError("Undefined property " + lexeme))
    ensures Set(Call(c, arguments), lexeme, obj).Success?
  {
  }

  /** The arguments of a class call make no difference to the instance. */
  lemma {:induction false} CallIgnoresArguments(c: VowelClass, a: seq<Value>, b: seq<Value>)
    ensures Call(c, a) == Call(c, b)
    ensures InstanceText(Call(c, a)) == ClassText(c) + " instance"
  {
  }
}
