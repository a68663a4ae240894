/** The assertion helpers of `TestCaseMixin` (hutils/unittest.py): the path
    language of `assert_same`, the sub-structure check of `assert_data`, and
    the status code `ok` expects. A check that passes returns `self`; one that
    fails raises AssertionError, or the error the path lookup raised. */
module TestCaseMixin {
  import opened Wrappers
  import opened PyValues
  import PyInt
  import Text

  datatype Verdict = Pass | AssertionFailed | Raised(error: PyError)

  // ---- assert_same and its path language ----

  /** One step of a path: `length`, `bool`, an integer index (written `N` or
      `_N`), an attribute (`_name`), or a key. */
  datatype Step = Length | Truth | Index(i: int) | Attr(name: string) | Key(name: string)

  const Separator := "__"

  /** How `_get_key` reads one part of the path; `length` and `bool` are
      recognised before anything else. */
  function ParseStep(part: string): (s: Step)
    ensures s == Length <==> part == "length"
    ensures s == Truth <==> part == "bool"
    ensures s.Attr? ==> "_" + s.name == part && PyInt.ParseInt(s.name).None?
    ensures s.Key? ==> s.name == part && PyInt.ParseInt(part).None?
    ensures s.Index? ==>
      || PyInt.ParseInt(part) == Some(s.i)
      || (|part| > 0 && part[0] == '_' && PyInt.ParseInt(part[1..]) == Some(s.i))
  {
    if part == "length" then Length
    else if part == "bool" then Truth
    else if |part| > 0 && part[0] == '_' then
      match PyInt.ParseInt(part[1..])
      case Some(i) => Index(i)
      case None => Attr(part[1..])
    else
      match PyInt.ParseInt(part)
      case Some(i) => Index(i)
      case None => Key(part)
  }

  /** A key step reaches exactly the dict keys that are not `length` or
      `bool`, do not start with "_" and do not parse as an integer. */
  lemma KeyStepReach(part: string)
    ensures ParseStep(part).Key? <==>
      part != "length" && part != "bool" && !(|part| > 0 && part[0] == '_') && PyInt.ParseInt(part).None?
  {
  }

  function ParseSteps(parts: seq<string>): (steps: seq<Step>)
    ensures |steps| == |parts|
    ensures forall i :: 0 <= i < |parts| ==> steps[i] == ParseStep(parts[i])
  {
    if parts == [] then [] else [ParseStep(parts[0])] + ParseSteps(parts[1..])
  }

  /** The steps of a path: its parts between `__` separators. */
  function Steps(path: string): seq<Step>
  {
    ParseSteps(Text.SplitOn(path, Separator))
  }

  /** `len(v)`. */
  function Len(v: Value): (r: Result<int, PyError>)
    ensures r.Success? <==> v.Str? || v.List? || v.Dict?
  {
    match v
    case Str(s) => Success(|s|)
    case List(xs) => Success(|xs|)
    case Dict(es) => Success(|es|)
    case _ => Failure(TypeError)
  }

  /** One step applied to a value, with the error Python raises. */
  function ApplyStep(v: Value, step: Step): (r: Result<Value, PyError>)
    ensures step == Truth ==> r == Success(Bool(Truthy(v)))
    ensures step == Length ==> (r.Success? <==> Len(v).Success?)
    ensures step.Index? && v.List? ==>
      (r.Success? <==> PyIndex(|v.items|, step.i).Some?)
    ensures step.Key? && v.Dict? ==> (r.Success? <==> HasKey(v.entries, step.name))
    ensures step.Key? && v.Dict? && r.Success? ==> Lookup(v.entries, step.name) == Some(r.value)
    ensures step.Attr? ==> (r.Success? <==> v.Obj? && step.name in v.attrs)
  {
    match step
    case Length =>
      (match Len(v)
       case Success(n) => Success(Int(n))
       case Failure(e) => Failure(e))
    case Truth => Success(Bool(Truthy(v)))
    case Index(i) =>
      (match v
       case List(xs) =>
         (match PyIndex(|xs|, i)
          case Some(j) => Success(xs[j])
          case None => Failure(IndexError))
       case Str(s) =>
         (match PyIndex(|s|, i)
          case Some(j) => Success(Str([s[j]]))
          case None => Failure(IndexError))
       case Dict(_) => Failure(KeyError)
       case _ => Failure(TypeError))
    case Attr(name) =>
      if v.Obj? && name in v.attrs then Success(v.attrs[name]) else Failure(AttributeError)
    case Key(name) =>
      (match v
       case Dict(es) =>
         (match Lookup(es, name)
          case Some(x) => Success(x)
          case None => Failure(KeyError))
       case _ => Failure(TypeError))
  }

  /** The steps applied left to right; the first error stops the walk. */
  function Resolve(v: Value, steps: seq<Step>): Result<Value, PyError>
    decreases |steps|
  {
    if steps == [] then Success(v)
    else
      match ApplyStep(v, steps[0])
      case Success(w) => Resolve(w, steps[1..])
      case Failure(e) => Failure(e)
  }

  /** A part starting with "_" is an index or an attribute. */
  lemma UnderscoreStep(part: string)
    requires part != "length" && part != "bool" && |part| > 0 && part[0] == '_'
    ensures ParseStep(part) ==
      if PyInt.ParseInt(part[1..]).Some? then Index(PyInt.ParseInt(part[1..]).value) else Attr(part[1..])
  {
  }

  /** Any other part is an index or a key. */
  lemma PlainStep(part: string)
    requires part != "length" && part != "bool" && !(|part| > 0 && part[0] == '_')
    ensures ParseStep(part) ==
      if PyInt.ParseInt(part).Some? then Index(PyInt.ParseInt(part).value) else Key(part)
  {
  }

  /** `_get_key(data, key)`. */
  method GetKey(data: Value, key: string) returns (r: Result<Value, PyError>)
    ensures r == Resolve(data, Steps(key))
  {
    var parts := Text.SplitOn(key, Separator);
    ghost var steps := Steps(key);
    var value := data;
    for i := 0 to |parts|
      invariant Resolve(data, steps) == Resolve(value, steps[i..])
    {
      assert steps[i..][1..] == steps[i + 1..];
      var part := parts[i];
      var next: Result<Value, PyError>;
      if part == "length" {
        var n := Len(value);
        next := if n.Failure? then Failure(n.error) else Success(Int(n.value));
      } else if part == "bool" {
        next := Success(Bool(Truthy(value)));
      } else if |part| > 0 && part[0] == '_' {
        UnderscoreStep(part);
        var index := PyInt.ParseInt(part[1..]);
        next := if index.Some? then ApplyStep(value, Index(index.value)) else ApplyStep(value, Attr(part[1..]));
      } else {
        PlainStep(part);
        var index := PyInt.ParseInt(part);
        next := if index.Some? then ApplyStep(value, Index(index.value)) else ApplyStep(value, Key(part));
      }
      assert next == ApplyStep(value, steps[i]);
      if next.Failure? {
        return Failure(next.error);
      }
      value := next.value;
    }
    assert steps[|parts|..] == [];
    r := Success(value);
  }

  /** The verdict on one expectation `key=expect`. */
  function CheckOne(data: Value, expectation: (string, Value)): Verdict
  {
    match Resolve(data, Steps(expectation.0))
    case Failure(e) => Raised(e)
    case Success(actual) => if PyEq(expectation.1, actual) then Pass else AssertionFailed
  }

  /** The expectations checked in order; the first one that does not pass decides. */
  function SameVerdict(data: Value, expects: seq<(string, Value)>): Verdict
  {
    if expects == [] then Pass
    else
      var first := CheckOne(data, expects[0]);
      if first == Pass then SameVerdict(data, expects[1..]) else first
  }

  /** `assert_same` passes iff every expectation equals the value its path
      resolves to; otherwise it reports the first expectation that does not. */
  lemma SameVerdictMeaning(data: Value, expects: seq<(string, Value)>)
    ensures SameVerdict(data, expects) == Pass <==>
      forall i :: 0 <= i < |expects| ==> CheckOne(data, expects[i]) == Pass
    ensures SameVerdict(data, expects) != Pass ==>
      exists i :: 0 <= i < |expects| && SameVerdict(data, expects) == CheckOne(data, expects[i]) &&
        (forall j :: 0 <= j < i ==> CheckOne(data, expects[j]) == Pass)
  {
    var vs := Verdicts(data, expects);
    SameVerdictIsFirstNonPass(data, expects);
    FirstNonPassMeaning(vs);
    if SameVerdict(data, expects) != Pass {
      var i :| 0 <= i < |vs| && FirstNonPass(vs) == vs[i] && (forall j :: 0 <= j < i ==> vs[j] == Pass);
      assert vs[i] == CheckOne(data, expects[i]);
      assert forall j :: 0 <= j < i ==> CheckOne(data, expects[j]) == Pass by {
        forall j | 0 <= j < i ensures CheckOne(data, expects[j]) == Pass {
          assert vs[j] == CheckOne(data, expects[j]);
        }
      }
    } else {
      forall i | 0 <= i < |expects| ensures CheckOne(data, expects[i]) == Pass {
        assert vs[i] == CheckOne(data, expects[i]);
      }
    }
  }

  /** The verdict on each expectation, in order. */
  function Verdicts(data: Value, expects: seq<(string, Value)>): (vs: seq<Verdict>)
    ensures |vs| == |expects|
    ensures forall i :: 0 <= i < |expects| ==> vs[i] == CheckOne(data, expects[i])
  {
    if expects == [] then [] else [CheckOne(data, expects[0])] + Verdicts(data, expects[1..])
  }

  /** The first verdict that is not a pass, or a pass. */
  function FirstNonPass(vs: seq<Verdict>): Verdict
  {
    if vs == [] then Pass else if vs[0] == Pass then FirstNonPass(vs[1..]) else vs[0]
  }

  lemma {:induction false} SameVerdictIsFirstNonPass(data: Value, expects: seq<(string, Value)>)
    ensures SameVerdict(data, expects) == FirstNonPass(Verdicts(data, expects))
  {
    if expects != [] {
      SameVerdictIsFirstNonPass(data, expects[1..]);
      assert Verdicts(data, expects)[1..] == Verdicts(data, expects[1..]);
    }
  }

  lemma {:induction false} FirstNonPassMeaning(vs: seq<Verdict>)
    ensures FirstNonPass(vs) == Pass <==> forall i :: 0 <= i < |vs| ==> vs[i] == Pass
    ensures FirstNonPass(vs) != Pass ==>
      exists i :: 0 <= i < |vs| && FirstNonPass(vs) == vs[i] && (forall j :: 0 <= j < i ==> vs[j] == Pass)
  {
    if vs != [] {
      var rest := vs[1..];
      FirstNonPassMeaning(rest);
      assert forall i :: 1 <= i < |vs| ==> vs[i] == rest[i - 1];
      if vs[0] == Pass && FirstNonPass(vs) != Pass {
        var k :| 0 <= k < |rest| && FirstNonPass(rest) == rest[k] && (forall j :: 0 <= j < k ==> rest[j] == Pass);
        assert vs[k + 1] == rest[k];
      }
    }
  }

  /** `assert_same(data, **expects)`. */
  method AssertSame(data: Value, expects: seq<(string, Value)>) returns (r: Verdict)
    ensures r == SameVerdict(data, expects)
  {
    for i := 0 to |expects|
      invariant SameVerdict(data, expects) == SameVerdict(data, expects[i..])
    {
      assert expects[i..][1..] == expects[i + 1..];
      var actual := GetKey(data, expects[i].0);
      if actual.Failure? {
        return Raised(actual.error);
      }
      if !PyEq(expects[i].1, actual.value) {
        return AssertionFailed;
      }
    }
    assert expects[|expects|..] == [];
    r := Pass;
  }

  /** The path `length` on a dict is its size, even when it has a key "length". */
  lemma LengthShadowsKey(entries: seq<(string, Value)>, path: string)
    requires path == "length"
    ensures Resolve(Dict(entries), Steps(path)) == Success(Int(|entries|))
  {
    Text.MissingCharNotSubstring(Separator, path, 0);
    Text.SplitOnWithoutSep(path, Separator);
  }

  /** A part starting with a letter, other than `length` and `bool`, is a key. */
  lemma LetterPartIsKey(part: string)
    requires |part| > 0 && 'a' <= part[0] <= 'z'
    requires part != "length" && part != "bool"
    ensures ParseStep(part) == Key(part)
  {
    PyInt.NonNumericStart(part);
  }

  /** A part `_name`, name starting with a letter, reads the attribute. */
  lemma UnderscoreLetterIsAttr(part: string)
    requires |part| > 1 && part[0] == '_' && 'a' <= part[1] <= 'z'
    ensures ParseStep(part) == Attr(part[1..])
  {
    PyInt.NonNumericStart(part[1..]);
  }

  /** `nested__object___key` is the key `nested`, the key `object`, then the
      attribute `key`: the split takes the leftmost `__`. */
  lemma NestedPathSteps(path: string)
    requires path == "nested__object___key"
    ensures Steps(path) == [Key("nested"), Key("object"), Attr("key")]
  {
    var a, b, c := "nested", "object", "_key";
    assert path == a + Separator + b + Separator + c;
    StepsThree(a, b, c);
    assert c[1..] == "key";
  }

  /** Two keys and an attribute, as a path. */
  lemma StepsThree(a: string, b: string, c: string)
    requires |a| > 0 && 'a' <= a[0] <= 'z' && a != "length" && a != "bool"
    requires |b| > 0 && 'a' <= b[0] <= 'z' && b != "length" && b != "bool"
    requires |c| > 1 && 'a' <= c[1] <= 'z'
    requires forall i :: 0 <= i < |a| ==> a[i] != '_'
    requires forall i :: 0 <= i < |b| ==> b[i] != '_'
    requires c[0] == '_' && forall i :: 1 <= i < |c| ==> c[i] != '_'
    ensures Steps(a + Separator + b + Separator + c) == [Key(a), Key(b), Attr(c[1..])]
  {
    SplitThree(a, b, c);
    LetterPartIsKey(a);
    LetterPartIsKey(b);
    UnderscoreLetterIsAttr(c);
  }

  /** Two parts without `_`, then a part with a single leading `_`, joined by
      `__`, split back into those three parts. */
  lemma SplitThree(a: string, b: string, c: string)
    requires forall i :: 0 <= i < |a| ==> a[i] != '_'
    requires forall i :: 0 <= i < |b| ==> b[i] != '_'
    requires |c| >= 1 && c[0] == '_' && forall i :: 1 <= i < |c| ==> c[i] != '_'
    ensures Text.SplitOn(a + Separator + b + Separator + c, Separator) == [a, b, c]
  {
    SplitThreeBy(a, b, c, Separator);
  }

  lemma SplitThreeBy(a: string, b: string, c: string, sep: string)
    requires sep == Separator
    requires forall i :: 0 <= i < |a| ==> a[i] != '_'
    requires forall i :: 0 <= i < |b| ==> b[i] != '_'
    requires |c| >= 1 && c[0] == '_' && forall i :: 1 <= i < |c| ==> c[i] != '_'
    ensures Text.SplitOn(a + sep + b + sep + c, sep) == [a, b, c]
  {
    var tail := b + sep + c;
    assert a + sep + b + sep + c == a + sep + tail;
    NoSeparatorWithin(a, sep, sep + tail);
    Text.SplitOnHead(a, sep, tail);
    NoSeparatorWithin(b, sep, sep + c);
    Text.SplitOnHead(b, sep, c);
    SingleUnderscoreNoSeparator(c, sep);
    Text.SplitOnWithoutSep(c, sep);
  }

  /** The separator starts nowhere inside a part without `_`. */
  lemma NoSeparatorWithin(a: string, sep: string, rest: string)
    requires sep == Separator
    requires forall i :: 0 <= i < |a| ==> a[i] != '_'
    ensures forall i :: 0 <= i < |a| ==> !Text.OccursAt(sep, a + rest, i)
  {
    assert |sep| == 2 && sep[0] == '_';
    forall i | 0 <= i < |a| ensures !Text.OccursAt(sep, a + rest, i) {
      if i + 2 <= |a + rest| {
        assert (a + rest)[i..i + 2][0] == a[i];
      }
    }
  }

  /** A part with `_` only in front holds no separator. */
  lemma SingleUnderscoreNoSeparator(c: string, sep: string)
    requires sep == Separator
    requires forall i :: 1 <= i < |c| ==> c[i] != '_'
    ensures !Text.IsSubstring(sep, c)
  {
    assert |sep| == 2 && sep[1] == '_';
    forall i ensures !Text.OccursAt(sep, c, i) {
      if 0 <= i <= |c| - 2 {
        assert c[i..i + 2][1] == c[i + 1];
      }
    }
  }

  // ---- assert_data ----

  /** `list(v)`: a list itself, the characters of a string, the keys of a dict. */
  function AsList(v: Value): (r: Result<seq<Value>, PyError>)
    ensures v.List? ==> r == Success(v.items)
    ensures v.Str? ==> r.Success? && |r.value| == |v.s| && forall i :: 0 <= i < |v.s| ==> r.value[i] == Str([v.s[i]])
    ensures v.Dict? ==> r.Success? && |r.value| == |v.entries| && forall i :: 0 <= i < |v.entries| ==> r.value[i] == Str(v.entries[i].0)
    ensures (v.Null? || v.Bool? || v.Int? || v.Obj?) ==> r == Failure(TypeError)
  {
    match v
    case List(xs) => Success(xs)
    case Str(s) => Success(seq(|s|, i requires 0 <= i < |s| => Str([s[i]])))
    case Dict(es) => Success(seq(|es|, i requires 0 <= i < |es| => Str(es[i].0)))
    case _ => Failure(TypeError)
  }

  /** `assert_data(expected, actual)` returns normally: a list must match an
      equally long `list(actual)` element by element; every key of a dict must
      be in `actual` and its value must match `actual[key]` (which only a dict
      answers for a string key); anything else is compared with `==`.
      Where the code raises TypeError (`list()` of a number, `actual[key]` on
      a string or a list) the model reads a plain non-match: the call does not
      return normally either way, but the class of the error is not kept. */
  predicate AssertData(expected: Value, actual: Value)
    decreases expected
  {
    match expected
    case List(es) =>
      var data := AsList(actual);
      && data.Success?
      && |data.value| == |es|
      && forall i :: 0 <= i < |es| ==> AssertData(es[i], data.value[i])
    case Dict(entries) =>
      forall i :: 0 <= i < |entries| ==>
        && PyIn(Str(entries[i].0), actual) == Success(true)
        && actual.Dict?
        && AssertData(entries[i].1, Lookup(actual.entries, entries[i].0).value)
    case _ => PyEq(expected, actual)
  }

  /** Every value is a sub-structure of itself. */
  lemma {:induction false} AssertDataReflexive(v: Value)
    requires WellFormed(v)
    ensures AssertData(v, v)
  {
    match v
    case List(xs) =>
      forall i | 0 <= i < |xs| ensures AssertData(xs[i], xs[i]) { AssertDataReflexive(xs[i]); }
    case Dict(es) =>
      forall i | 0 <= i < |es|
        ensures PyIn(Str(es[i].0), v) == Success(true)
        ensures AssertData(es[i].1, Lookup(es, es[i].0).value)
      {
        FindDistinct(es, i);
        AssertDataReflexive(es[i].1);
      }
    case _ =>
      PyEqReflexive(v);
  }

  /** Keys the actual dict has beyond the expected ones are ignored. */
  lemma AssertDataIgnoresExtraKeys(expected: seq<(string, Value)>, actual: seq<(string, Value)>, extra: seq<(string, Value)>)
    requires AssertData(Dict(expected), Dict(actual))
    ensures AssertData(Dict(expected), Dict(actual + extra))
  {
    forall i | 0 <= i < |expected|
      ensures PyIn(Str(expected[i].0), Dict(actual + extra)) == Success(true)
      ensures Lookup(actual + extra, expected[i].0) == Lookup(actual, expected[i].0)
    {
      FindPrefix(actual, extra, expected[i].0);
    }
  }

  lemma FindPrefix<V>(a: seq<(string, V)>, b: seq<(string, V)>, k: string)
    requires HasKey(a, k)
    ensures Find(a + b, k) == Find(a, k)
  {
    if a[0].0 != k {
      assert (a + b)[1..] == a[1..] + b;
      FindPrefix(a[1..], b, k);
    }
  }

  // ---- ok ----

  /** The status `ok` expects: 201 when `is_201`, else 204 when `is_204`, else 200. */
  function ExpectedStatus(is201: bool, is204: bool): (code: int)
    ensures is201 ==> code == 201
    ensures !is201 && is204 ==> code == 204
    ensures !is201 && !is204 ==> code == 200
  {
    if is201 then 201 else if is204 then 204 else 200
  }

  /** `ok(response, is_201=..., is_204=..., **expects)`. */
  method Ok(statusCode: int, data: Value, is201: bool, is204: bool, expects: seq<(string, Value)>)
    returns (r: Verdict)
    ensures statusCode != ExpectedStatus(is201, is204) ==> r == AssertionFailed
    ensures statusCode == ExpectedStatus(is201, is204) ==> r == SameVerdict(data, expects)
  {
    if ExpectedStatus(is201, is204) != statusCode {
      return AssertionFailed;
    }
    r := Pass;
    if expects != [] {
      r := AssertSame(data, expects);
    }
  }
}
