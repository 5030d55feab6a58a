/**
 * The faults that stop a pass: the language's two error classes and the .NET
 * exceptions the C# code can raise without meaning to.
 */
module Errors {
  import opened Tokens

  datatype SystemFaultKind =
    | IndexOutOfRange     // a string, list or array index outside its bounds
    | DuplicateKey        // Dictionary.Add of a key already present
    | NullReference       // a member access through null
    | EmptyStack          // Stack.Peek or Stack.Pop on an empty stack
    | StackOverflow       // recursion that never reaches its base case
    | BadNumberFormat     // double.Parse of text it does not accept

  datatype Fault =
    | VowelError(token: Token, message: string)
    | RuntimeError(message: string)
    | SystemFault(kind: SystemFaultKind)
}
