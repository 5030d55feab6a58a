/**
 * Snapshots of variable values (Runtime/Snapshot.cs): a stack of frames,
 * each a dictionary from names to values. The stack is a sequence whose
 * index 0 is its top. A new snapshot copies the top frame with one binding
 * added or replaced; mutation changes the top frame in place.
 */
module Snapshots {
  import opened Wrappers
  import opened Values
  import opened Errors

  type Frame = map<string, Value>

  datatype Snapshot = Snapshot(frames: seq<Frame>)

  datatype Reading = AsWritten | Intended

  /**
   * Pushes a frame: a copy of the top frame (or an empty one when there is
   * none) in which `lexeme` is bound to `obj`.
   */
  function TakeSnapshot(s: Snapshot, lexeme: string, obj: Value): (r: Snapshot)
    ensures |r.frames| == |s.frames| + 1 && r.frames[1..] == s.frames
    ensures lexeme in r.frames[0] && r.frames[0][lexeme] == obj
    ensures |s.frames| == 0 ==> r.frames[0].Keys == {lexeme}
    ensures |s.frames| > 0 ==> r.frames[0].Keys == s.frames[0].Keys + {lexeme}
    ensures |s.frames| > 0 ==>
              forall k :: k in s.frames[0] && k != lexeme ==> r.frames[0][k] == s.frames[0][k]
  {
    if |s.frames| == 0 then Snapshot([map[lexeme := obj]])
    else
      // `TryAdd` for a new name and the indexer for an existing one both
      // leave the copy binding `lexeme` to `obj`
      Snapshot([s.frames[0][lexeme := obj]] + s.frames)
  }

  /** The top frame; `Stack.Peek` throws on an empty stack. */
  function GetFrame(s: Snapshot): (r: Result<Frame, Fault>)
    ensures r.Success? <==> |s.frames| > 0
    ensures r.Success? ==> r.value == s.frames[0]
    ensures r.Failure? ==> r.error == SystemFault(EmptyStack)
  {
    if |s.frames| == 0 then Failure(SystemFault(EmptyStack)) else Success(s.frames[0])
  }

  /** The value of `lexeme` in the top frame, or "Undefined variable". */
  function GetValue(s: Snapshot, lexeme: string): (r: Result<Value, Fault>)
    ensures |s.frames| == 0 ==> r == Failure(SystemFault(EmptyStack))
    ensures |s.frames| > 0 ==> (r.Success? <==> lexeme in s.frames[0])
    ensures r.Success? ==> r.value == s.frames[0][lexeme]
    ensures |s.frames| > 0 && r.Failure? ==> r.error == RuntimeError("Undefined variable " + lexeme)
  {
    match GetFrame(s)
    case Failure(f) => Failure(f)
    case Success(frame) =>
      if lexeme in frame then Success(frame[lexeme])
      else Failure(RuntimeError("Undefined variable " + lexeme))
  }

  /**
   * Rebinds `lexeme` in the top frame. A name the top frame lacks raises
   * `GetValue`'s error. As written, a name bound to null is also refused,
   * with "Assignment to undefined variable"; as intended, only an absent
   * name is.
   */
  function MutateValue(s: Snapshot, lexeme: string, value: Value, reading: Reading): (r: Result<Snapshot, Fault>)
    ensures |s.frames| == 0 ==> r == Failure(SystemFault(EmptyStack))
    ensures |s.frames| > 0 && lexeme !in s.frames[0] ==> r == Failure(RuntimeError("Undefined variable " + lexeme))
    ensures reading == AsWritten && |s.frames| > 0 && lexeme in s.frames[0] && s.frames[0][lexeme] == Nil ==>
              r == Failure(RuntimeError("Assignment to undefined variable " + lexeme))
    ensures r.Success? ==> |r.value.frames| == |s.frames| && r.value.frames[1..] == s.frames[1..]
    ensures r.Success? ==> r.value.frames[0].Keys == s.frames[0].Keys && r.value.frames[0][lexeme] == value
    ensures r.Success? ==> forall k :: k in s.frames[0] && k != lexeme ==> r.value.frames[0][k] == s.frames[0][k]
    ensures reading == Intended ==> (r.Success? <==> |s.frames| > 0 && lexeme in s.frames[0])
    ensures reading == AsWritten ==>
              (r.Success? <==> |s.frames| > 0 && lexeme in s.frames[0] && s.frames[0][lexeme] != Nil)
  {
    match GetFrame(s)
    case Failure(f) => Failure(f)
    case Success(frame) =>
      match GetValue(s, lexeme)
      case Failure(f) => Failure(f)
      case Success(current) =>
        if reading == AsWritten && current == Nil then Failure(RuntimeError("Assignment to undefined variable " + lexeme))
        else Success(Snapshot([frame[lexeme := value]] + s.frames[1..]))
  }

  /** Pops the top frame; `Stack.Pop` throws on an empty stack. */
  function PopFrame(s: Snapshot): (r: Result<Snapshot, Fault>)
    ensures r.Success? <==> |s.frames| > 0
    ensures r.Success? ==> [s.frames[0]] + r.value.frames == s.frames
    ensures r.Failure? ==> r.error == SystemFault(EmptyStack)
  {
    if |s.frames| == 0 then Failure(SystemFault(EmptyStack)) else Success(Snapshot(s.frames[1..]))
  }

  /** Popping the frame a snapshot pushed restores the stack. */
  lemma {:induction false} PopUndoesTake(s: Snapshot, lexeme: string, obj: Value)
    ensures PopFrame(TakeSnapshot(s, lexeme, obj)) == Success(s)
  {
  }

  /**
   * After a snapshot the name reads back the value given, and every other
   * name reads as it did in the old top frame.
   */
  lemma {:induction false} GetAfterTake(s: Snapshot, lexeme: string, obj: Value, other: string)
    ensures GetValue(TakeSnapshot(s, lexeme, obj), lexeme) == Success(obj)
    ensures other != lexeme && |s.frames| > 0 ==>
              GetValue(TakeSnapshot(s, lexeme, obj), other) == GetValue(s, other)
    ensures other != lexeme && |s.frames| == 0 ==>
              GetValue(TakeSnapshot(s, lexeme, obj), other).Failure?
  {
  }

  /**
   * After a mutation the name reads back the new value; other names read
   * as before; and the frames below the top are untouched, so popping
   * discards the mutation.
   */
  lemma {:induction false} GetAfterMutate(s: Snapshot, lexeme: string, value: Value, other: string, reading: Reading)
    requires MutateValue(s, lexeme, value, reading).Success?
    ensures var t := MutateValue(s, lexeme, value, reading).value;
            && GetValue(t, lexeme) == Success(value)
            && (other != lexeme ==> GetValue(t, other) == GetValue(s, other))
            && PopFrame(t) == PopFrame(s)
  {
  }

  /**
   * As written, a name bound to null cannot be reassigned: a snapshot of
   * null followed by a mutation fails, although the name is defined.
   */
  lemma {:induction false} NullBoundCannotBeAssigned(lexeme: string, value: Value)
    ensures var s := TakeSnapshot(Snapshot([]), lexeme, Nil);
            && GetValue(s, lexeme) == Success(Nil)
            && MutateValue(s, lexeme, value, AsWritten) == Failure(RuntimeError("Assignment to undefined variable " + lexeme))
  {
  }

  /** As intended, every defined name can be reassigned, and reads back what it was given. */
  lemma {:induction false} IntendedMutateDefined(s: Snapshot, lexeme: string, value: Value)
    requires GetValue(s, lexeme).Success?
    ensures MutateValue(s, lexeme, value, Intended).Success?
    ensures GetValue(MutateValue(s, lexeme, value, Intended).value, lexeme) == Success(value)
  {
  }
}
