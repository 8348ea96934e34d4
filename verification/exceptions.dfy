/**
 * The failures the engine can end in. PHP throws; the model returns a
 * `Res` whose failure side names the exception.
 */
module Exceptions {
  import opened Names

  /** `MissingArgumentException`: the missing parameter, the owning function, the message and code 500. */
  datatype MissingArgumentException = MissingArgumentException(arg: string, functionName: string, message: string, code: int)

  /** The message prefix shared by both message forms. */
  function MissingPrefix(arg: string): string {
    "Missing argument $" + arg
  }

  /**
   * The MissingArgumentException constructor: stores `arg` and `function`
   * unchanged, picks the short message when `function` is PHP-empty
   * (`""` or `"0"`) and the long one otherwise; the code is always 500.
   */
  function NewMissingArgument(arg: string, functionName: string): (e: MissingArgumentException)
    ensures e.arg == arg && e.functionName == functionName
    ensures e.code == 500
    ensures EmptyString(functionName) ==> e.message == "Missing argument $" + arg + "."
    ensures !EmptyString(functionName) ==> e.message == "Missing argument $" + arg + " for " + functionName + "."
  {
    var message :=
      if EmptyString(functionName) then MissingPrefix(arg) + "."
      else MissingPrefix(arg) + " for " + functionName + ".";
    MissingArgumentException(arg, functionName, message, 500)
  }

  /**
   * For a fixed function, the message names the parameter unambiguously:
   * two different parameters never produce the same message.
   */
  lemma {:induction false} MessageIdentifiesArgument(a1: string, a2: string, functionName: string)
    requires NewMissingArgument(a1, functionName).message == NewMissingArgument(a2, functionName).message
    ensures a1 == a2
  {
    var m := NewMissingArgument(a1, functionName).message;
    var p := |"Missing argument $"|;
    var tail := if EmptyString(functionName) then "." else " for " + functionName + ".";
    assert m == "Missing argument $" + a1 + tail;
    assert m == "Missing argument $" + a2 + tail;
    assert |a1| == |a2|;
    assert a1 == m[p..p + |a1|];
    assert a2 == m[p..p + |a2|];
  }

  /** `NotFoundException`: thrown with "Class X does not exist." and code 404. */
  datatype NotFoundException = NotFoundException(message: string, code: int)

  function ClassNotFound(className: string): (e: NotFoundException)
    ensures e.code == 404
    ensures e.message == "Class " + className + " does not exist."
  {
    NotFoundException("Class " + className + " does not exist.", 404)
  }

  datatype Error =
    /** NotFoundException (a ContainerException): the class to build does not exist. */
    | NotFound(notFound: NotFoundException)
    /** MissingArgumentException (a ContainerException): a RequiredParameter was resolved. */
    | MissingArgument(missing: MissingArgumentException)
    /** ReflectionException from `getMethod`: a configured call names no method of the class. */
    | NoSuchMethod(className: string, methodName: string)
    /** TypeError: the effective rule has no `constructorArgs`, so null reaches an `array` parameter. */
    | TypeError
    /** Error: a Reference chain calls `get` on a value that is not a container. */
    | NotAContainer
    /** The resolution depth bound ran out (PHP would recurse without bound). */
    | OutOfFuel

  /** Success with a value, or the exception that ended the operation. */
  datatype Res<+T> = Ok(value: T) | Fail(error: Error)
}
