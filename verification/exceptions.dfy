/**
  The part of .NET exception semantics the Taproot address relies on: exception
  classes form a single-inheritance chain, and a `try` statement's `catch` clauses
  are tried in textual order, the first clause whose class is the thrown
  exception's class or one of its base classes handling it.
 */
module Exceptions {
  import opened Wrappers

  /** An exception class: its full name and its base class (`None` only for System.Exception). */
  datatype ExcClass = ExcClass(name: string, base: Option<ExcClass>)

  const ExceptionClass := ExcClass("System.Exception", None)
  const SystemExceptionClass := ExcClass("System.SystemException", Some(ExceptionClass))
  const FormatExceptionClass := ExcClass("System.FormatException", Some(SystemExceptionClass))
  const Bech32FormatExceptionClass :=
    ExcClass("NBitcoin.DataEncoders.Bech32FormatException", Some(FormatExceptionClass))
  const ArgumentExceptionClass := ExcClass("System.ArgumentException", Some(SystemExceptionClass))
  const ArgumentNullExceptionClass :=
    ExcClass("System.ArgumentNullException", Some(ArgumentExceptionClass))
  const NotSupportedExceptionClass :=
    ExcClass("System.NotSupportedException", Some(SystemExceptionClass))

  /** A thrown exception: its class and its message (the parameter name for ArgumentNullException). */
  datatype Exc = Exc(cls: ExcClass, message: string)

  /** `c` is `d` or derives from it, so `catch (d)` catches an exception of class `c`. */
  predicate IsA(c: ExcClass, d: ExcClass)
    decreases c
  {
    c == d || (c.base.Some? && IsA(c.base.value, d))
  }

  lemma {:induction false} IsATransitive(a: ExcClass, b: ExcClass, c: ExcClass)
    requires IsA(a, b) && IsA(b, c)
    ensures IsA(a, c)
    decreases a
  {
    if a != b {
      IsATransitive(a.base.value, b, c);
    }
  }

  /** What a catch clause's block does with the exception it caught. */
  datatype Handler =
    | Rethrow   // `catch (T) { throw; }`
    | Swallow   // `catch (T) { }`: execution continues after the try statement

  datatype CatchClause = Catch(cls: ExcClass, handler: Handler)

  /** How a try block completes: by `return`, by running off its end, or by throwing. */
  datatype Completion = Returned(value: string) | FellThrough | Threw(exc: Exc)

  /** Clause `i` is the first of `clauses` that catches class `c`. */
  predicate CatchesFirst(clauses: seq<CatchClause>, i: nat, c: ExcClass)
    requires i < |clauses|
  {
    IsA(c, clauses[i].cls) && forall j | 0 <= j < i :: !IsA(c, clauses[j].cls)
  }

  /** The clause that handles an exception of class `c`, if any does. */
  function SelectClause(clauses: seq<CatchClause>, c: ExcClass): (r: Option<nat>)
    ensures r.Some? ==> r.value < |clauses| && CatchesFirst(clauses, r.value, c)
    ensures r.None? ==> forall i | 0 <= i < |clauses| :: !IsA(c, clauses[i].cls)
  {
    if |clauses| == 0 then None
    else if IsA(c, clauses[0].cls) then Some(0)
    else match SelectClause(clauses[1..], c)
      case None => None
      case Some(i) => Some(i + 1)
  }

  /** The completion of `try { … } catch …` whose try block completed as `body`. */
  function RunCatchClauses(body: Completion, clauses: seq<CatchClause>): Completion
  {
    if !body.Threw? then body
    else match SelectClause(clauses, body.exc.cls)
      case None => body
      case Some(i) => if clauses[i].handler == Rethrow then body else FellThrough
  }

  /**
    No clause is made unreachable by an earlier one catching a base class of its
    class; the C# compiler rejects a try statement that breaks this (error CS0160).
   */
  predicate NoShadowing(clauses: seq<CatchClause>)
  {
    forall i, j | 0 <= i < j < |clauses| :: !IsA(clauses[j].cls, clauses[i].cls)
  }
}
