/** hutils/classes.py: `TupleEnum`, an enumeration whose members are defined
    by tuples (the first element is the member's value, all of them its
    `values`), and `EmptyContextManager`, a context manager that does nothing. */
module Classes {
  import opened Wrappers
  import opened PyValues
  import opened Exceptions

  // ---- TupleEnum ----

  /** A member: its name, `value` (`_value_`) and `values`. */
  datatype Member = Member(name: string, value: Value, values: seq<Value>)

  /** `TupleEnum.__new__(cls, *definition)`: the first element is required. */
  function NewMember(name: string, definition: seq<Value>): (r: Result<Member, PyError>)
    ensures r.Success? <==> |definition| > 0
    ensures r.Success? ==> r.value.name == name && r.value.value == definition[0] && r.value.values == definition
    ensures r.Failure? ==> r.error == TypeError
  {
    if definition == [] then Failure(TypeError)
    else Success(Member(name, definition[0], definition))
  }

  /** `member.get_value_at(index)`: `values[index]`, negative indices from the end. */
  function GetValueAt(m: Member, index: int): (r: Result<Value, PyError>)
    ensures 0 <= index < |m.values| ==> r == Success(m.values[index])
    ensures -|m.values| <= index < 0 ==> r == Success(m.values[|m.values| + index])
    ensures r.Failure? <==> !(-|m.values| <= index < |m.values|)
    ensures r.Failure? ==> r.error == IndexError
  {
    match PyIndex(|m.values|, index)
    case Some(j) => Success(m.values[j])
    case None => Failure(IndexError)
  }

  /** `member.chinese`: the second element of the definition. */
  function Chinese(m: Member): (r: Result<Value, PyError>)
    ensures r.Success? <==> |m.values| >= 2
    ensures r.Success? ==> r.value == m.values[1]
  {
    GetValueAt(m, 1)
  }

  /** An enumeration class: its canonical members in definition order, and
      every name defined with the position of the member it stands for (an
      alias stands for the earlier member with an equal value). */
  datatype EnumClass = EnumClass(members: seq<Member>, names: seq<(string, nat)>)

  /** Members built by `NewMember`, no two with equal values, every name
      defined once and bound to a member. */
  predicate Good(c: EnumClass)
  {
    GoodMembers(c.members) && GoodNames(c.names, |c.members|)
  }

  predicate GoodMembers(members: seq<Member>)
  {
    && (forall i :: 0 <= i < |members| ==>
          |members[i].values| > 0 && members[i].value == members[i].values[0])
    && (forall i, j :: 0 <= i < j < |members| ==> !PyEq(members[i].value, members[j].value))
  }

  predicate GoodNames(names: seq<(string, nat)>, count: nat)
  {
    DistinctKeys(names) && forall i :: 0 <= i < |names| ==> names[i].1 < count
  }

  /** The first member whose value equals `v`. */
  function FirstEqual(members: seq<Member>, v: Value): (r: Option<nat>)
    ensures r.Some? ==> r.value < |members| && PyEq(members[r.value].value, v)
    ensures r.Some? ==> forall k :: 0 <= k < r.value ==> !PyEq(members[k].value, v)
    ensures r.None? ==> forall k :: 0 <= k < |members| ==> !PyEq(members[k].value, v)
  {
    if members == [] then None
    else if PyEq(members[0].value, v) then Some(0)
    else match FirstEqual(members[1..], v)
      case Some(k) => Some(k + 1)
      case None => None
  }

  /** One assignment `NAME = definition` in the class body. */
  function AddMember(c: EnumClass, name: string, definition: seq<Value>): (r: Result<EnumClass, PyError>)
  {
    if HasKey(c.names, name) then Failure(TypeError)
    else
      var m :- NewMember(name, definition);
      match FirstEqual(c.members, m.value)
      case Some(j) => Success(EnumClass(c.members, c.names + [(name, j)]))
      case None => Success(EnumClass(c.members + [m], c.names + [(name, |c.members|)]))
  }

  /** The class statement: the assignments taken in order. */
  function Define(definitions: seq<(string, seq<Value>)>): Result<EnumClass, PyError>
  {
    if definitions == [] then Success(EnumClass([], []))
    else
      var c :- Define(definitions[..|definitions| - 1]);
      var last := definitions[|definitions| - 1];
      AddMember(c, last.0, last.1)
  }

  /** One assignment keeps the class `Good`, appends its name, and binds it
      to a member whose value equals the definition's first element; earlier
      members and bindings stay. */
  lemma AddMemberShape(c: EnumClass, name: string, definition: seq<Value>)
    requires Good(c) && AddMember(c, name, definition).Success?
    ensures var r := AddMember(c, name, definition).value;
      && Good(r)
      && |definition| > 0
      && |r.names| == |c.names| + 1 && r.names[..|c.names|] == c.names && r.names[|c.names|].0 == name
      && |c.members| <= |r.members| && r.members[..|c.members|] == c.members
      && r.names[|c.names|].1 < |r.members|
      && Stands(r.members[r.names[|c.names|].1].value, definition[0])
  {
    var r := AddMember(c, name, definition).value;
    match FirstEqual(c.members, definition[0])
    case Some(j) =>
      AddMemberAlias(c, name, definition, j);
      GoodNamesAppend(c.names, (name, j), |c.members|, |c.members|);
      assert r.names[..|c.names|] == c.names;
    case None =>
      AddMemberNew(c, name, definition);
      var m := Member(name, definition[0], definition);
      GoodMembersAppend(c.members, m);
      GoodNamesAppend(c.names, (name, |c.members|), |c.members|, |c.members| + 1);
      assert r.members[..|c.members|] == c.members;
      assert r.names[..|c.names|] == c.names;
  }

  lemma GoodMembersAppend(members: seq<Member>, m: Member)
    requires GoodMembers(members)
    requires |m.values| > 0 && m.value == m.values[0]
    requires forall k :: 0 <= k < |members| ==> !PyEq(members[k].value, m.value)
    ensures GoodMembers(members + [m])
  {
    var all := members + [m];
    assert forall i :: 0 <= i < |members| ==> all[i] == members[i];
  }

  lemma GoodNamesAppend(names: seq<(string, nat)>, e: (string, nat), count: nat, count': nat)
    requires GoodNames(names, count) && count <= count'
    requires !HasKey(names, e.0) && e.1 < count'
    ensures GoodNames(names + [e], count')
  {
    DistinctKeysAppend(names, e);
    var all := names + [e];
    assert forall i :: 0 <= i < |names| ==> all[i] == names[i];
  }

  /** A successful assignment appends its name to the names. */
  lemma AddMemberAppendsName(c: EnumClass, name: string, definition: seq<Value>)
    requires AddMember(c, name, definition).Success?
    ensures var r := AddMember(c, name, definition).value;
      |r.names| == |c.names| + 1 && r.names[..|c.names|] == c.names && r.names[|c.names|].0 == name
  {
    var r := AddMember(c, name, definition).value;
    assert r.names[..|c.names|] == c.names;
  }

  /** A member's value stands for a defined value when it is that value (a
      new member) or equals it (an alias). */
  predicate Stands(memberValue: Value, defined: Value)
  {
    memberValue == defined || PyEq(memberValue, defined)
  }

  /** The assignment fails exactly on a name already assigned or an empty
      definition. */
  lemma AddMemberSucceeds(c: EnumClass, name: string, definition: seq<Value>)
    ensures AddMember(c, name, definition).Success? <==> !HasKey(c.names, name) && |definition| > 0
  {
  }

  /** The class statement with its last assignment split off. */
  lemma DefineStep(definitions: seq<(string, seq<Value>)>)
    requires definitions != [] && Define(definitions).Success?
    ensures var init := definitions[..|definitions| - 1];
      var last := definitions[|definitions| - 1];
      && Define(init).Success?
      && AddMember(Define(init).value, last.0, last.1) == Define(definitions)
  {
  }

  /** A defined class is `Good`. */
  lemma {:induction false} DefineShape(definitions: seq<(string, seq<Value>)>)
    requires Define(definitions).Success?
    ensures Good(Define(definitions).value)
  {
    if definitions != [] {
      var init := definitions[..|definitions| - 1];
      var last := definitions[|definitions| - 1];
      DefineStep(definitions);
      DefineShape(init);
      AddMemberShape(Define(init).value, last.0, last.1);
    }
  }

  /** The names of a defined class are the names assigned, in order. */
  lemma {:induction false} DefineNames(definitions: seq<(string, seq<Value>)>)
    requires Define(definitions).Success?
    ensures SameNames(Define(definitions).value.names, definitions)
  {
    if definitions != [] {
      var init := definitions[..|definitions| - 1];
      var last := definitions[|definitions| - 1];
      DefineStep(definitions);
      DefineNames(init);
      var c := Define(init).value;
      var r := Define(definitions).value;
      AddMemberAppendsName(c, last.0, last.1);
      assert definitions == init + [last];
      SameNamesAppend(c.names, r.names, init, last);
    }
  }

  lemma SameNamesAppend<U, V>(names: seq<(string, U)>, longer: seq<(string, U)>, init: seq<(string, V)>, last: (string, V))
    requires SameNames(names, init)
    requires |longer| == |names| + 1 && longer[..|names|] == names && longer[|names|].0 == last.0
    ensures SameNames(longer, init + [last])
  {
    forall i | 0 <= i < |init| ensures longer[i].0 == (init + [last])[i].0 {
      assert longer[i] == longer[..|names|][i];
    }
  }

  /** Two entry lists with the same keys at the same positions. */
  predicate SameNames<U, V>(a: seq<(string, U)>, b: seq<(string, V)>)
  {
    |a| == |b| && forall i :: 0 <= i < |a| ==> a[i].0 == b[i].0
  }

  /** Lists with the same names hold the same names. */
  lemma SameNamesHasKey<U, V>(a: seq<(string, U)>, b: seq<(string, V)>, k: string)
    requires SameNames(a, b)
    ensures HasKey(a, k) <==> HasKey(b, k)
  {
    if HasKey(a, k) {
      var i := Find(a, k).value;
      assert b[i].0 == k;
    }
    if HasKey(b, k) {
      var i := Find(b, k).value;
      assert a[i].0 == k;
    }
  }

  /** Each name of a defined class stands for a member whose value is or
      equals the first element of that name's definition. */
  lemma {:induction false} DefineBinds(definitions: seq<(string, seq<Value>)>)
    requires Define(definitions).Success?
    ensures forall i :: 0 <= i < |definitions| ==> Binds(Define(definitions).value, i, definitions[i].1)
  {
    if definitions != [] {
      var init := definitions[..|definitions| - 1];
      var last := definitions[|definitions| - 1];
      DefineStep(definitions);
      DefineShape(init);
      DefineNames(init);
      DefineBinds(init);
      var c := Define(init).value;
      var r := Define(definitions).value;
      AddMemberShape(c, last.0, last.1);
      forall i | 0 <= i < |definitions| ensures Binds(r, i, definitions[i].1) {
        if i < |init| {
          assert definitions[i] == init[i];
          BindsKept(c, r, i, init[i].1);
        } else {
          assert i == |c.names| && definitions[i] == last;
        }
      }
    }
  }

  /** Name number i is bound to a member standing for its definition. */
  predicate Binds(c: EnumClass, i: nat, definition: seq<Value>)
  {
    && |definition| > 0
    && i < |c.names|
    && c.names[i].1 < |c.members|
    && Stands(c.members[c.names[i].1].value, definition[0])
  }

  lemma BindsKept(c: EnumClass, r: EnumClass, i: nat, definition: seq<Value>)
    requires Binds(c, i, definition)
    requires |c.names| <= |r.names| && r.names[..|c.names|] == c.names
    requires |c.members| <= |r.members| && r.members[..|c.members|] == c.members
    ensures Binds(r, i, definition)
  {
    assert r.names[i] == c.names[i];
    assert r.members[c.names[i].1] == c.members[c.names[i].1];
  }

  lemma KeysHasKey<V>(entries: seq<(string, V)>, k: string)
    ensures HasKey(entries, k) <==> k in Keys(entries)
  {
  }

  lemma DistinctKeysAppend<V>(entries: seq<(string, V)>, e: (string, V))
    ensures DistinctKeys(entries + [e]) <==> DistinctKeys(entries) && !HasKey(entries, e.0)
  {
    var all := entries + [e];
    assert forall i :: 0 <= i < |entries| ==> all[i] == entries[i];
    KeysHasKey(entries, e.0);
    if DistinctKeys(all) {
      assert forall i, j :: 0 <= i < j < |entries| ==> all[i].0 != all[j].0;
      assert forall i :: 0 <= i < |entries| ==> all[i].0 != all[|entries|].0;
    }
  }

  /** Names assigned once each, and no definition the empty tuple. */
  predicate Definable(definitions: seq<(string, seq<Value>)>)
  {
    DistinctKeys(definitions) && forall i :: 0 <= i < |definitions| ==> |definitions[i].1| > 0
  }

  /** The class statement fails exactly when a name is assigned twice or a
      definition is the empty tuple. */
  lemma {:induction false} DefineSucceeds(definitions: seq<(string, seq<Value>)>)
    ensures Define(definitions).Success? <==> Definable(definitions)
  {
    if definitions != [] {
      var init := definitions[..|definitions| - 1];
      var last := definitions[|definitions| - 1];
      DefineSucceeds(init);
      DefinableAppend(init, last);
      assert definitions == init + [last];
      if Define(init).Success? {
        DefineNames(init);
        var c := Define(init).value;
        AddMemberSucceeds(c, last.0, last.1);
        SameNamesHasKey(c.names, init, last.0);
      }
    }
  }

  /** One more assignment keeps the definitions definable exactly when its
      name is new and its tuple is not empty. */
  lemma DefinableAppend(init: seq<(string, seq<Value>)>, last: (string, seq<Value>))
    ensures Definable(init + [last]) <==> Definable(init) && !HasKey(init, last.0) && |last.1| > 0
  {
    var all := init + [last];
    DistinctKeysAppend(init, last);
    assert forall i :: 0 <= i < |init| ==> all[i] == init[i];
    assert all[|init|] == last;
  }

  /** `cls.chinese_choices()`: `(value, chinese)` of every member, aliases left out. */
  function ChineseChoices(c: EnumClass): (r: Result<seq<(Value, Value)>, PyError>)
    ensures r.Success? <==> forall i :: 0 <= i < |c.members| ==> |c.members[i].values| >= 2
    ensures r.Failure? ==> r.error == IndexError
    ensures r.Success? ==> |r.value| == |c.members|
    ensures r.Success? ==> forall i :: 0 <= i < |c.members| ==>
      r.value[i] == (c.members[i].value, c.members[i].values[1])
  {
    Choices(c.members)
  }

  function Choices(members: seq<Member>): (r: Result<seq<(Value, Value)>, PyError>)
    ensures r.Success? <==> forall i :: 0 <= i < |members| ==> |members[i].values| >= 2
    ensures r.Failure? ==> r.error == IndexError
    ensures r.Success? ==> |r.value| == |members|
    ensures r.Success? ==> forall i :: 0 <= i < |members| ==>
      r.value[i] == (members[i].value, members[i].values[1])
  {
    if members == [] then Success([])
    else
      var first :- Chinese(members[0]);
      var rest :- Choices(members[1..]);
      Success([(members[0].value, first)] + rest)
  }

  /** The member a name stands for (`cls.NAME`). */
  function MemberNamed(c: EnumClass, name: string): (r: Option<Member>)
    ensures Good(c) ==> (r.Some? <==> HasKey(c.names, name))
  {
    match Lookup(c.names, name)
    case Some(j) => if j < |c.members| then Some(c.members[j]) else None
    case None => None
  }

  /** The members a class body defines when no value repeats: one per
      assignment, in order. */
  function Canonical(definitions: seq<(string, seq<Value>)>): (ms: seq<Member>)
    requires forall i :: 0 <= i < |definitions| ==> |definitions[i].1| > 0
    ensures |ms| == |definitions|
  {
    seq(|definitions|, i requires 0 <= i < |definitions| => Member(definitions[i].0, definitions[i].1[0], definitions[i].1))
  }

  /** Without repeated values every assignment makes a member of its own,
      in definition order, named and valued as assigned; `chinese_choices`
      lists their first two elements in that order. */
  lemma {:induction false} DefineWithoutAliases(definitions: seq<(string, seq<Value>)>)
    requires DistinctKeys(definitions)
    requires forall i :: 0 <= i < |definitions| ==> |definitions[i].1| > 0
    requires forall i, j :: 0 <= i < j < |definitions| ==> !PyEq(definitions[i].1[0], definitions[j].1[0])
    ensures Define(definitions) == Success(EnumClass(Canonical(definitions), Positions(definitions)))
  {
    if definitions != [] {
      var init := definitions[..|definitions| - 1];
      var last := definitions[|definitions| - 1];
      assert definitions == init + [last];
      assert forall i :: 0 <= i < |init| ==> init[i] == definitions[i];
      DefineWithoutAliases(init);
      var c := EnumClass(Canonical(init), Positions(init));
      DistinctKeysAppend(init, last);
      SameNamesHasKey(c.names, init, last.0);
      forall k | 0 <= k < |c.members| ensures !PyEq(c.members[k].value, last.1[0]) {
        assert c.members[k].value == definitions[k].1[0];
      }
      AddMemberNew(c, last.0, last.1);
      DefineSnoc(init, last);
      CanonicalSnoc(init, last);
      PositionsSnoc(init, last);
    }
  }

  lemma CanonicalSnoc(init: seq<(string, seq<Value>)>, last: (string, seq<Value>))
    requires forall i :: 0 <= i < |init| ==> |init[i].1| > 0
    requires |last.1| > 0
    ensures Canonical(init + [last]) == Canonical(init) + [Member(last.0, last.1[0], last.1)]
  {
    var all := init + [last];
    assert forall i :: 0 <= i < |init| ==> all[i] == init[i];
  }

  lemma PositionsSnoc(init: seq<(string, seq<Value>)>, last: (string, seq<Value>))
    ensures Positions(init + [last]) == Positions(init) + [(last.0, |init|)]
  {
    var all := init + [last];
    assert forall i :: 0 <= i < |init| ==> all[i] == init[i];
  }

  /** Every name bound to the member made by its own assignment. */
  function Positions(definitions: seq<(string, seq<Value>)>): (names: seq<(string, nat)>)
    ensures SameNames(names, definitions)
  {
    seq(|definitions|, i requires 0 <= i < |definitions| => (definitions[i].0, i))
  }

  /** An assignment whose value equals an earlier member's adds a name and
      no member: `chinese_choices` is as before. */
  lemma AliasAddsNoMember(c: EnumClass, name: string, definition: seq<Value>, j: nat)
    requires !HasKey(c.names, name) && |definition| > 0
    requires j < |c.members| && PyEq(c.members[j].value, definition[0])
    ensures AddMember(c, name, definition).Success?
    ensures AddMember(c, name, definition).value.members == c.members
    ensures ChineseChoices(AddMember(c, name, definition).value) == ChineseChoices(c)
  {
  }

  /** The docstring's `Genders`: `Genders.FEMALE.value` is 2, its `chinese`
      is '女性', and the choices list the four members in order. */
  lemma GendersExample(body: seq<(string, seq<Value>)>)
    requires body == [("UNKNOWN", [Int(0), Str("未知")]), ("MALE", [Int(1), Str("男性")]),
                      ("FEMALE", [Int(2), Str("女性")]), ("OTHERS", [Int(3), Str("其他")])]
    ensures Define(body).Success?
    ensures var c := Define(body).value;
      && |c.members| == 4
      && c.members[2].name == "FEMALE" && c.members[2].value == Int(2)
      && Chinese(c.members[2]) == Success(Str("女性"))
      && ChineseChoices(c).Success?
      && ChineseChoices(c).value == [(Int(0), Str("未知")), (Int(1), Str("男性")), (Int(2), Str("女性")), (Int(3), Str("其他"))]
  {
    GendersBodyDistinct(body);
    DefineWithoutAliases(body);
    var c := Define(body).value;
    ChoicesOfCanonical(body);
    assert c.members[2] == Member("FEMALE", Int(2), [Int(2), Str("女性")]);
    var expected := [(Int(0), Str("未知")), (Int(1), Str("男性")), (Int(2), Str("女性")), (Int(3), Str("其他"))];
    assert ChineseChoices(c).value == expected by {
      forall i | 0 <= i < 4 ensures ChineseChoices(c).value[i] == expected[i] {
        assert ChineseChoices(c).value[i] == (body[i].1[0], body[i].1[1]);
      }
    }
  }

  lemma GendersBodyDistinct(body: seq<(string, seq<Value>)>)
    requires body == [("UNKNOWN", [Int(0), Str("未知")]), ("MALE", [Int(1), Str("男性")]),
                      ("FEMALE", [Int(2), Str("女性")]), ("OTHERS", [Int(3), Str("其他")])]
    ensures DistinctKeys(body)
    ensures forall i :: 0 <= i < |body| ==> |body[i].1| >= 2 && body[i].1[0] == Int(i)
    ensures forall i, j :: 0 <= i < j < |body| ==> !PyEq(body[i].1[0], body[j].1[0])
  {
    assert body[0].0[0] == 'U' && body[1].0[0] == 'M' && body[2].0[0] == 'F' && body[3].0[0] == 'O';
  }

  /** Without aliases the choices are the first two elements of every definition. */
  lemma ChoicesOfCanonical(definitions: seq<(string, seq<Value>)>)
    requires forall i :: 0 <= i < |definitions| ==> |definitions[i].1| >= 2
    ensures Choices(Canonical(definitions)).Success?
    ensures forall i :: 0 <= i < |definitions| ==>
      Choices(Canonical(definitions)).value[i] == (definitions[i].1[0], definitions[i].1[1])
  {
  }

  /** An assignment of a fresh name whose value equals no member's adds a member. */
  lemma AddMemberNew(c: EnumClass, name: string, definition: seq<Value>)
    requires !HasKey(c.names, name) && |definition| > 0
    requires forall k :: 0 <= k < |c.members| ==> !PyEq(c.members[k].value, definition[0])
    ensures AddMember(c, name, definition) ==
      Success(EnumClass(c.members + [Member(name, definition[0], definition)], c.names + [(name, |c.members|)]))
  {
  }

  /** An assignment of a fresh name whose value equals member j's, and no
      earlier one's, makes an alias of member j. */
  lemma AddMemberAlias(c: EnumClass, name: string, definition: seq<Value>, j: nat)
    requires !HasKey(c.names, name) && |definition| > 0
    requires j < |c.members| && PyEq(c.members[j].value, definition[0])
    requires forall k :: 0 <= k < j ==> !PyEq(c.members[k].value, definition[0])
    ensures AddMember(c, name, definition) == Success(EnumClass(c.members, c.names + [(name, j)]))
  {
    FirstEqualIsFirst(c.members, definition[0], j);
  }

  lemma FirstEqualIsFirst(members: seq<Member>, v: Value, j: nat)
    requires j < |members| && PyEq(members[j].value, v)
    requires forall k :: 0 <= k < j ==> !PyEq(members[k].value, v)
    ensures FirstEqual(members, v) == Some(j)
  {
    var r := FirstEqual(members, v);
    assert r.Some?;
    assert !(r.value < j) && !(j < r.value);
  }

  /** The class statement with one more assignment at the end. */
  lemma DefineSnoc(init: seq<(string, seq<Value>)>, last: (string, seq<Value>))
    ensures Define(init + [last]) ==
      if Define(init).Success? then AddMember(Define(init).value, last.0, last.1) else Failure(Define(init).error)
  {
    assert (init + [last])[..|init|] == init;
  }

  // ---- EmptyContextManager ----

  class EmptyContextManager {
    constructor()
    {
    }

    /** `__enter__` returns the manager itself. */
    method Enter() returns (r: EmptyContextManager)
      ensures r == this
    {
      r := this;
    }

    /** `__exit__` never suppresses the exception, if there is one. */
    function Exit(raised: Option<Exc>): (suppress: bool)
      ensures !suppress
    {
      false
    }

    /** `with EmptyContextManager(): <block>` ends as the block ended: an
        exception propagates unchanged. */
    function With<T>(body: Outcome<T>): (r: Outcome<Option<T>>)
      ensures body.Returned? ==> r == Returned(Some(body.value))
      ensures body.Raised? ==> r == Raised(body.exc)
    {
      match body
      case Returned(v) => Returned(Some(v))
      case Raised(e) => if Exit(Some(e)) then Returned(None) else Raised(e)
    }
  }
}
