/** The pieces of hutils/django/apis.py that do not touch the ORM: the payload
    of the validation error, and the message raised when an object is not found. */
module Apis {
  import opened Wrappers
  import opened PyValues

  /** `rest_framework.exceptions.ValidationError(detail)`, by its detail. */
  datatype ValidationError = ValidationError(detail: seq<(string, Value)>)

  /** `get_validation_error(message, data, code)`: None is `Null`. */
  method GetValidationError(message: Value, data: Value, code: Value) returns (e: ValidationError)
    ensures Lookup(e.detail, "message") == Some(message)
    ensures HasKey(e.detail, "data") <==> !data.Null?
    ensures !data.Null? ==> Lookup(e.detail, "data") == Some(data)
    ensures HasKey(e.detail, "code") <==> !code.Null?
    ensures !code.Null? ==> Lookup(e.detail, "code") == Some(code)
    ensures Keys(e.detail) == ["message"] + (if data.Null? then [] else ["data"]) + (if code.Null? then [] else ["code"])
    ensures DistinctKeys(e.detail)
  {
    var error := [("message", message)];
    assert Find(error, "data") == None && Find(error, "code") == None;
    if !data.Null? {
      error := Insert(error, "data", data);
    }
    assert Keys(error) == ["message"] + (if data.Null? then [] else ["data"]);
    assert forall j :: 0 <= j < |error| ==> error[j].0 != "code";
    if !code.Null? {
      error := Insert(error, "code", code);
    }
    e := ValidationError(error);
  }

  /** `_err_msg or '{} 不存在'.format(cls.__name__)`. */
  function NotFoundMessage(errMsg: Value, className: string): (m: Value)
    ensures Truthy(errMsg) ==> m == errMsg
    ensures !Truthy(errMsg) ==> m == Str(className + " 不存在")
  {
    if Truthy(errMsg) then errMsg else Str(className + " 不存在")
  }

  /** An empty or missing custom message falls back to the class name. */
  lemma NotFoundMessageFallback(className: string)
    ensures NotFoundMessage(Null, className) == Str(className + " 不存在")
    ensures NotFoundMessage(Str(""), className) == Str(className + " 不存在")
    ensures NotFoundMessage(Str("没有找到"), className) == Str("没有找到")
  {
  }

  /** What `get_object_or_not_found` raises with the default `_err_func` when
      the lookup fails. */
  method NotFound(errMsg: Value, className: string) returns (e: ValidationError)
    ensures e.detail == [("message", NotFoundMessage(errMsg, className))]
  {
    e := GetValidationError(NotFoundMessage(errMsg, className), Null, Null);
    assert |Keys(e.detail)| == 1;
  }
}
