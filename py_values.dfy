/** The JSON-like values the library works on, with the parts of Python's
    object model the helpers rely on: truthiness, `==`, `in`, indexing with
    negative positions, and the ordered dict operations. */
module PyValues {
  import opened Wrappers
  import Text

  /** A Python value as the helpers see it. Dicts keep insertion order (as
      Python dicts do) and have string keys. An `Obj` is an arbitrary object
      with attributes; `id` is its identity, which is what `==` compares for
      objects that do not define equality. */
  datatype Value =
    | Null
    | Bool(b: bool)
    | Int(i: int)
    | Str(s: string)
    | List(items: seq<Value>)
    | Dict(entries: seq<(string, Value)>)
    | Obj(id: nat, attrs: map<string, Value>)

  /** The exception classes the modelled code raises or catches. */
  datatype PyError =
    | TypeError
    | ValueError(message: string)
    | KeyError
    | IndexError
    | AttributeError

  /** `bool(v)`. */
  predicate Truthy(v: Value)
  {
    match v
    case Null => false
    case Bool(b) => b
    case Int(i) => i != 0
    case Str(s) => s != ""
    case List(xs) => xs != []
    case Dict(es) => es != []
    case Obj(_, _) => true
  }

  /** The integer a bool or an int stands for (`True == 1` in Python). */
  function Numeric(v: Value): Option<int>
  {
    match v
    case Bool(b) => Some(if b then 1 else 0)
    case Int(i) => Some(i)
    case _ => None
  }

  /** Python `a == b`: numbers compare by value across bool and int, lists
      element-wise, dicts by key regardless of order, objects by identity. */
  predicate PyEq(a: Value, b: Value)
  {
    match (a, b)
    case (Null, Null) => true
    case (Str(x), Str(y)) => x == y
    case (List(xs), List(ys)) =>
      |xs| == |ys| && forall i :: 0 <= i < |xs| ==> PyEq(xs[i], ys[i])
    case (Dict(xs), Dict(ys)) =>
      |xs| == |ys| &&
      forall i :: 0 <= i < |xs| ==>
        var at := Find(ys, xs[i].0);
        at.Some? && PyEq(xs[i].1, ys[at.value].1)
    case (Obj(x, _), Obj(y, _)) => x == y
    case _ => Numeric(a).Some? && Numeric(a) == Numeric(b)
  }

  /** Every dict inside v, at any depth, has distinct keys: the values a
      Python program can build. */
  predicate WellFormed(v: Value)
  {
    match v
    case List(xs) => forall i :: 0 <= i < |xs| ==> WellFormed(xs[i])
    case Dict(es) => DistinctKeys(es) && forall i :: 0 <= i < |es| ==> WellFormed(es[i].1)
    case Obj(_, attrs) => forall k :: k in attrs ==> WellFormed(attrs[k])
    case _ => true
  }

  /** Every value equals itself. */
  lemma {:induction false} PyEqReflexive(v: Value)
    requires WellFormed(v)
    ensures PyEq(v, v)
  {
    match v
    case List(xs) =>
      forall i | 0 <= i < |xs| ensures PyEq(xs[i], xs[i]) { PyEqReflexive(xs[i]); }
    case Dict(es) =>
      forall i | 0 <= i < |es|
        ensures Find(es, es[i].0).Some? && PyEq(es[i].1, es[Find(es, es[i].0).value].1)
      {
        FindDistinct(es, i);
        PyEqReflexive(es[i].1);
      }
    case _ =>
  }

  /** In a dict with distinct keys, the key at position i is found at i. */
  lemma FindDistinct<V>(entries: seq<(string, V)>, i: nat)
    requires DistinctKeys(entries)
    requires i < |entries|
    ensures Find(entries, entries[i].0) == Some(i)
  {
  }

  /** Python's index normalisation: `xs[i]` with `-len <= i < len`. */
  function PyIndex(length: nat, i: int): (r: Option<nat>)
    ensures r.Some? <==> -(length as int) <= i < length
    ensures r.Some? ==> r.value < length && (r.value == i || r.value == length + i)
  {
    if 0 <= i < length then Some(i)
    else if -(length as int) <= i < 0 then Some(length + i)
    else None
  }

  // ---- ordered dicts, as sequences of (key, value) pairs ----

  predicate DistinctKeys<V>(entries: seq<(string, V)>)
  {
    forall i, j :: 0 <= i < j < |entries| ==> entries[i].0 != entries[j].0
  }

  function Keys<V>(entries: seq<(string, V)>): (ks: seq<string>)
    ensures |ks| == |entries|
    ensures forall i :: 0 <= i < |entries| ==> ks[i] == entries[i].0
  {
    if entries == [] then [] else [entries[0].0] + Keys(entries[1..])
  }

  /** The position of key k, if present. */
  function Find<V>(entries: seq<(string, V)>, k: string): (r: Option<nat>)
    ensures r.Some? ==> r.value < |entries| && entries[r.value].0 == k
    ensures r.Some? ==> forall j :: 0 <= j < r.value ==> entries[j].0 != k
    ensures r.None? <==> forall j :: 0 <= j < |entries| ==> entries[j].0 != k
  {
    if entries == [] then None
    else if entries[0].0 == k then Some(0)
    else match Find(entries[1..], k)
      case None => None
      case Some(j) => Some(j + 1)
  }

  predicate HasKey<V>(entries: seq<(string, V)>, k: string)
  {
    Find(entries, k).Some?
  }

  /** `d.get(k)`, as an option. */
  function Lookup<V>(entries: seq<(string, V)>, k: string): Option<V>
  {
    match Find(entries, k)
    case None => None
    case Some(i) => Some(entries[i].1)
  }

  /** `d[k] = v`: an existing key keeps its place, a new key goes last. */
  function Insert<V>(entries: seq<(string, V)>, k: string, v: V): (r: seq<(string, V)>)
    ensures Lookup(r, k) == Some(v)
    ensures forall k' :: k' != k ==> Lookup(r, k') == Lookup(entries, k')
    ensures HasKey(entries, k) ==> Keys(r) == Keys(entries)
    ensures !HasKey(entries, k) ==> Keys(r) == Keys(entries) + [k]
    ensures DistinctKeys(entries) ==> DistinctKeys(r)
  {
    match Find(entries, k)
    case Some(i) =>
      InsertExisting(entries, i, k, v);
      entries[i := (k, v)]
    case None =>
      InsertNew(entries, k, v);
      entries + [(k, v)]
  }

  /** Overwriting the entry of a present key. */
  lemma InsertExisting<V>(entries: seq<(string, V)>, i: nat, k: string, v: V)
    requires Find(entries, k) == Some(i)
    ensures var r := entries[i := (k, v)];
      && Lookup(r, k) == Some(v)
      && (forall k' :: k' != k ==> Lookup(r, k') == Lookup(entries, k'))
      && Keys(r) == Keys(entries)
      && (DistinctKeys(entries) ==> DistinctKeys(r))
  {
    var r := entries[i := (k, v)];
    forall k' ensures Find(r, k') == Find(entries, k') {
      FindSameKeys(r, entries, k');
    }
    assert Keys(r) == Keys(entries);
  }

  /** Appending the entry of an absent key. */
  lemma InsertNew<V>(entries: seq<(string, V)>, k: string, v: V)
    requires Find(entries, k).None?
    ensures var r := entries + [(k, v)];
      && Lookup(r, k) == Some(v)
      && (forall k' :: k' != k ==> Lookup(r, k') == Lookup(entries, k'))
      && Keys(r) == Keys(entries) + [k]
      && (DistinctKeys(entries) ==> DistinctKeys(r))
  {
    var r := entries + [(k, v)];
    FindAppend(entries, k, v);
    assert Keys(r) == Keys(entries) + [k];
  }

  /** `d.setdefault(k, v)` (its effect on d). */
  function SetDefault<V>(entries: seq<(string, V)>, k: string, v: V): (r: seq<(string, V)>)
    ensures HasKey(entries, k) ==> r == entries
    ensures !HasKey(entries, k) ==> r == entries + [(k, v)]
  {
    if HasKey(entries, k) then entries else entries + [(k, v)]
  }

  lemma {:induction false} FindSameKeys<V>(a: seq<(string, V)>, b: seq<(string, V)>, k: string)
    requires |a| == |b|
    requires forall i :: 0 <= i < |a| ==> a[i].0 == b[i].0
    ensures Find(a, k) == Find(b, k)
  {
    if a != [] { FindSameKeys(a[1..], b[1..], k); }
  }

  lemma {:induction false} FindAppend<V>(entries: seq<(string, V)>, k: string, v: V)
    ensures Find(entries + [(k, v)], k) == Some(if HasKey(entries, k) then Find(entries, k).value else |entries|)
    ensures forall k' :: k' != k ==> Find(entries + [(k, v)], k') == Find(entries, k')
  {
    if entries != [] {
      assert (entries + [(k, v)])[1..] == entries[1..] + [(k, v)];
      FindAppend(entries[1..], k, v);
    }
  }

  /** Python `needle in haystack` on values: element membership for a list,
      key membership for a dict (unhashable needles raise), substring for a
      string; other values are not containers. */
  function PyIn(needle: Value, haystack: Value): (r: Result<bool, PyError>)
    ensures haystack.List? ==> r == Success(exists i :: 0 <= i < |haystack.items| && PyEq(needle, haystack.items[i]))
    ensures haystack.Dict? && needle.Str? ==> r == Success(HasKey(haystack.entries, needle.s))
    ensures haystack.Dict? && (needle.List? || needle.Dict?) ==> r == Failure(TypeError)
    ensures haystack.Dict? && !(needle.Str? || needle.List? || needle.Dict?) ==> r == Success(false)
    ensures haystack.Str? && needle.Str? ==> r == Success(Text.IsSubstring(needle.s, haystack.s))
    ensures haystack.Str? && !needle.Str? ==> r == Failure(TypeError)
    ensures (haystack.Null? || haystack.Bool? || haystack.Int? || haystack.Obj?) ==> r == Failure(TypeError)
  {
    match haystack
    case List(xs) => Success(exists i :: 0 <= i < |xs| && PyEq(needle, xs[i]))
    case Dict(es) =>
      if needle.List? || needle.Dict? then Failure(TypeError)
      else if needle.Str? then Success(HasKey(es, needle.s))
      else Success(false)
    case Str(s) =>
      if needle.Str? then Success(Text.IsSubstring(needle.s, s)) else Failure(TypeError)
    case _ => Failure(TypeError)
  }
}
