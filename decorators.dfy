/** The exception translators of hutils/decorators.py, as functions from the
    way the guarded block ended to the way the `with` statement (or the
    decorated call) ends. */
module Decorators {
  import opened Wrappers
  import opened Exceptions
  import opened PyValues

  /** What `catches` raises instead: a fixed exception, or one computed from
      the caught exception, as when an exception class or a factory is given. */
  datatype Raises = Instance(exc: Exc) | Factory(make: Exc -> Exc)

  /** The classes caught: those given, or `Exception` when none are. */
  function Caught(exceptions: seq<string>): (cs: seq<string>)
    ensures exceptions == [] ==> cs == ["Exception"]
    ensures exceptions != [] ==> cs == exceptions
  {
    if exceptions == [] then ["Exception"] else exceptions
  }

  /** `except exceptions` matches `e`. */
  predicate Matches(exceptions: seq<string>, e: Exc)
  {
    exists i :: 0 <= i < |Caught(exceptions)| && IsInstance(e, Caught(exceptions)[i])
  }

  /** The exception `catches` raises for a caught one. */
  function Replacement(raises: Raises, caught: Exc): Exc
  {
    match raises
    case Instance(e) => e
    case Factory(make) => make(caught)
  }

  /** `with catches(*exceptions, raises=raises): <block>`. */
  function Catches<T>(exceptions: seq<string>, raises: Raises, body: Outcome<T>): (r: Outcome<T>)
    ensures body.Returned? ==> r == body
    ensures body.Raised? && !Matches(exceptions, body.exc) ==> r == body
    ensures body.Raised? && Matches(exceptions, body.exc) ==> r == Raised(Replacement(raises, body.exc))
  {
    match body
    case Returned(_) => body
    case Raised(e) => if Matches(exceptions, e) then Raised(Replacement(raises, e)) else body
  }

  /** `with mutes(*exceptions): <block>`, read as a decorated call: a matching
      exception ends the call normally, with no value (the decorated function
      returns None). */
  function Mutes<T>(exceptions: seq<string>, body: Outcome<T>): (r: Outcome<Option<T>>)
    ensures body.Returned? ==> r == Returned(Some(body.value))
    ensures body.Raised? && Matches(exceptions, body.exc) ==> r == Returned(None)
    ensures body.Raised? && !Matches(exceptions, body.exc) ==> r == Raised(body.exc)
  {
    match body
    case Returned(v) => Returned(Some(v))
    case Raised(e) => if Matches(exceptions, e) then Returned(None) else Raised(e)
  }

  /** With no classes given, every `Exception` is caught and nothing else:
      `KeyboardInterrupt` and `SystemExit` pass through both translators. */
  lemma DefaultCatchesExceptionOnly<T>(e: Exc, raises: Raises)
    ensures Matches([], e) <==> IsInstance(e, "Exception")
    ensures Catches<T>([], raises, Raised(Builtin("KeyboardInterrupt", []))) == Raised(Builtin("KeyboardInterrupt", []))
    ensures Mutes<T>([], Raised(Builtin("SystemExit", []))) == Raised(Builtin("SystemExit", []))
  {
    if IsInstance(e, "Exception") {
      assert Caught([])[0] == "Exception";
    }
  }

  /** A matching exception never escapes `mutes`, and whatever escapes
      `catches` is the block's own outcome or the replacement. */
  lemma TranslatorsContain<T>(exceptions: seq<string>, raises: Raises, body: Outcome<T>)
    ensures Mutes(exceptions, body).Raised? ==> !Matches(exceptions, Mutes(exceptions, body).exc)
    ensures Catches(exceptions, raises, body) == body ||
      Catches(exceptions, raises, body) == Raised(Replacement(raises, body.exc))
  {
  }

  /** The docstring example: `catches(ValueError, TypeError, raises=IOError())`
      around `raise ValueError(...)` raises the IOError; a class not listed
      passes through. */
  lemma CatchesDocstringExample<T>(io: Exc, args: seq<Value>)
    ensures Catches<T>(["ValueError", "TypeError"], Instance(io), Raised(Builtin("ValueError", args))) == Raised(io)
    ensures Catches<T>(["TypeError"], Instance(io), Raised(Builtin("ValueError", args))) == Raised(Builtin("ValueError", args))
  {
    var v := Builtin("ValueError", args);
    assert IsInstance(v, Caught(["ValueError", "TypeError"])[0]);
    assert Ancestors("ValueError") == ["Exception", "BaseException"];
  }

  /** The test with a factory: a TypeError, the class listed second, is
      replaced by what the factory makes of it. */
  lemma CatchesSecondListed<T>(make: Exc -> Exc, args: seq<Value>)
    ensures var t := Builtin("TypeError", args);
      Catches<T>(["ValueError", "TypeError"], Factory(make), Raised(t)) == Raised(make(t))
    ensures Catches<T>(["ValueError"], Factory(make), Raised(Builtin("TypeError", args))) == Raised(Builtin("TypeError", args))
  {
    var t := Builtin("TypeError", args);
    assert IsInstance(t, Caught(["ValueError", "TypeError"])[1]);
    assert Ancestors("TypeError") == ["Exception", "BaseException"];
  }

  /** A handler for a base class catches its subclasses: `catches(LookupError)`
      translates a KeyError. */
  lemma CatchesSubclass<T>(io: Exc, args: seq<Value>)
    ensures Catches<T>(["LookupError"], Instance(io), Raised(Builtin("KeyError", args))) == Raised(io)
  {
    LookupErrors(args);
    assert IsInstance(Builtin("KeyError", args), Caught(["LookupError"])[0]);
  }
}
