/** The JSON functions hutils/django/unittest.py registers on SQLite
    connections, on already-decoded column values (`json.loads` is not part of
    this model). */
module SqliteJson {
  import opened Wrappers
  import opened PyValues
  import Text

  /** `path[2:]`: the path without its leading `$.`. */
  function DropRoot(path: string): (r: string)
    ensures |path| >= 2 ==> r == path[2..]
    ensures |path| < 2 ==> r == ""
  {
    if |path| >= 2 then path[2..] else ""
  }

  /** `path[2:].split(".")`. */
  function PathKeys(path: string): (keys: seq<string>)
    ensures |keys| >= 1
  {
    Text.SplitOn(DropRoot(path), ".")
  }

  /** One step: `result.get(key)` on a dict, None on anything else. */
  function Step(v: Value, key: string): (r: Value)
    ensures v.Dict? && HasKey(v.entries, key) ==> Some(r) == Lookup(v.entries, key)
    ensures !(v.Dict? && HasKey(v.entries, key)) ==> r == Null
  {
    if v.Dict? then Lookup(v.entries, key).GetOr(Null) else Null
  }

  /** The keys applied in order. */
  function Extract(v: Value, keys: seq<string>): Value
    decreases |keys|
  {
    if keys == [] then v else Extract(Step(v, keys[0]), keys[1..])
  }

  /** `json_extract(value, path)`. */
  method JsonExtract(data: Value, path: string) returns (result: Value)
    ensures result == Extract(data, PathKeys(path))
  {
    var keys := Text.SplitOn(DropRoot(path), ".");
    result := data;
    for i := 0 to |keys|
      invariant Extract(data, keys) == Extract(result, keys[i..])
    {
      assert keys[i..][1..] == keys[i + 1..];
      if result.Dict? {
        result := Lookup(result.entries, keys[i]).GetOr(Null);
      } else {
        result := Null;
      }
    }
    assert keys[|keys|..] == [];
  }

  /** Once None, the result stays None: a missing key or a step into a
      list, string or number ends the walk. */
  lemma {:induction false} ExtractNullStays(keys: seq<string>)
    ensures Extract(Null, keys) == Null
  {
    if keys != [] {
      ExtractNullStays(keys[1..]);
    }
  }

  /** A path walks its first keys, then the rest from where they led. */
  lemma {:induction false} ExtractConcat(v: Value, a: seq<string>, b: seq<string>)
    ensures Extract(v, a + b) == Extract(Extract(v, a), b)
    decreases |a|
  {
    if a == [] {
      assert a + b == b;
    } else {
      assert (a + b)[1..] == a[1..] + b;
      ExtractConcat(Step(v, a[0]), a[1..], b);
    }
  }

  /** Walking a nested dict by its keys finds the innermost value. */
  lemma ExtractNested(inner: Value)
    ensures Extract(Dict([("a", Dict([("b", inner)]))]), ["a", "b"]) == inner
  {
    var keys := ["a", "b"];
    assert keys[1..] == ["b"] && keys[1..][1..] == [];
    assert Step(Dict([("a", Dict([("b", inner)]))]), "a") == Dict([("b", inner)]);
  }

  /** A path with no keys after `$.` still takes one step, with the key "". */
  lemma RootPathTakesEmptyKey(path: string)
    requires |path| <= 2
    ensures PathKeys(path) == [""]
  {
  }

  /** A key into a list does not index it. */
  lemma ExtractDoesNotIndexLists(items: seq<Value>, key: string, rest: seq<string>)
    ensures Extract(List(items), [key] + rest) == Null
  {
    assert ([key] + rest)[1..] == rest;
    ExtractNullStays(rest);
  }

  /** `json_contains(column_value, value)`: `value in column_value`. */
  function JsonContains(column: Value, value: Value): (r: Result<bool, PyError>)
    ensures column.List? ==> r == Success(exists i :: 0 <= i < |column.items| && PyEq(value, column.items[i]))
    ensures column.Dict? && value.Str? ==> r == Success(HasKey(column.entries, value.s))
    ensures column.Dict? && (value.List? || value.Dict?) ==> r == Failure(TypeError)
    ensures column.Dict? && !(value.Str? || value.List? || value.Dict?) ==> r == Success(false)
    ensures column.Str? && value.Str? ==> r == Success(Text.IsSubstring(value.s, column.s))
    ensures column.Str? && !value.Str? ==> r == Failure(TypeError)
    ensures (column.Null? || column.Bool? || column.Int? || column.Obj?) ==> r == Failure(TypeError)
  {
    PyIn(value, column)
  }

  /** Every (well-formed) element of a list column is contained in it, and
      every key of an object column. */
  lemma JsonContainsMembers(column: Value, i: nat)
    requires WellFormed(column)
    requires column.List? ==> i < |column.items|
    requires column.Dict? ==> i < |column.entries|
    requires column.List? || column.Dict?
    ensures column.List? ==> JsonContains(column, column.items[i]) == Success(true)
    ensures column.Dict? ==> JsonContains(column, Str(column.entries[i].0)) == Success(true)
  {
    if column.List? {
      PyEqReflexive(column.items[i]);
    } else {
      FindDistinct(column.entries, i);
    }
  }
}
