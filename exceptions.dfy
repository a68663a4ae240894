/** Python exceptions as values: an exception is an instance of its class and
    of every class in that class's method resolution order; a block of code
    either returns a value or raises one. */
module Exceptions {
  import opened PyValues

  /** An exception object: its class first, then its ancestors; and its
      arguments. */
  datatype Exc = Exc(mro: seq<string>, args: seq<Value>)

  predicate IsInstance(e: Exc, cls: string)
  {
    cls in e.mro
  }

  /** The name a class is known by: `IOError` and `EnvironmentError` are
      aliases of `OSError`. */
  function ClassName(cls: string): string
  {
    if cls == "IOError" || cls == "EnvironmentError" then "OSError" else cls
  }

  /** The ancestors of a built-in exception class, nearest first, as in the
      standard hierarchy; any name not listed here stands for a class derived
      directly from `Exception`, as a user-defined exception usually is. */
  function Ancestors(cls: string): (a: seq<string>)
    ensures cls != "BaseException" ==> |a| > 0 && a[|a| - 1] == "BaseException"
    ensures cls !in a
  {
    var exception := ["Exception", "BaseException"];
    if cls == "BaseException" then []
    else if cls in {"Exception", "KeyboardInterrupt", "SystemExit", "GeneratorExit"} then ["BaseException"]
    else if cls in {"KeyError", "IndexError"} then ["LookupError"] + exception
    else if cls in {"ZeroDivisionError", "OverflowError"} then ["ArithmeticError"] + exception
    else if cls in {"UnicodeDecodeError", "UnicodeEncodeError", "UnicodeTranslateError"} then
      ["UnicodeError", "ValueError"] + exception
    else if cls == "UnicodeError" then ["ValueError"] + exception
    else if cls in {"FileNotFoundError", "FileExistsError", "PermissionError", "TimeoutError",
                    "IsADirectoryError", "NotADirectoryError", "ConnectionError"} then ["OSError"] + exception
    else if cls == "ModuleNotFoundError" then ["ImportError"] + exception
    else if cls in {"NotImplementedError", "RecursionError"} then ["RuntimeError"] + exception
    else if cls == "UnboundLocalError" then ["NameError"] + exception
    else exception
  }

  /** An instance of a built-in exception class, or of a class derived
      directly from `Exception`. */
  function Builtin(cls: string, args: seq<Value>): (e: Exc)
    ensures e.mro == [ClassName(cls)] + Ancestors(ClassName(cls)) && e.args == args
    ensures IsInstance(e, "BaseException")
  {
    Exc([ClassName(cls)] + Ancestors(ClassName(cls)), args)
  }

  /** `KeyError` and `IndexError` are `LookupError`s, and neither is the other. */
  lemma LookupErrors(args: seq<Value>)
    ensures IsInstance(Builtin("KeyError", args), "LookupError")
    ensures IsInstance(Builtin("IndexError", args), "LookupError")
    ensures !IsInstance(Builtin("KeyError", args), "IndexError")
  {
    assert Ancestors("KeyError") == ["LookupError", "Exception", "BaseException"];
    assert Ancestors("IndexError") == ["LookupError", "Exception", "BaseException"];
  }

  /** `KeyboardInterrupt` derives from `BaseException` only, so it is no `Exception`. */
  lemma InterruptIsNoException(args: seq<Value>)
    ensures !IsInstance(Builtin("KeyboardInterrupt", args), "Exception")
  {
    assert Ancestors("KeyboardInterrupt") == ["BaseException"];
  }

  /** How a block ends. */
  datatype Outcome<T> = Returned(value: T) | Raised(exc: Exc)
}
