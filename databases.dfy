/** The pseudo-JSON field of hutils/django/databases.py: a store that keeps a
    mapping in memory and re-serialises all of it into one text field of a host
    model object on every write; the typed property accessors built on it; and
    the keyword rewriting of `QuerySetMixin.filter_related`. */
module Databases {
  import opened Wrappers
  import opened PyValues

  /** The text a host field holds, seen through the serialiser: nothing (the
      attribute is missing, None or the empty string), the serialisation of a
      mapping in some layout (spacing and key order, which decoding ignores),
      or any other text. The last case covers text that is not JSON, which
      `json.loads` rejects, and also valid JSON of another kind (a list, a
      number, a string, null), which `json.loads` accepts; the model treats
      both as unreadable. */
  datatype FieldText =
    | Blank
    | Serialized(mapping: map<string, Value>, layout: nat)
    | Unreadable(raw: string)

  /** What `json.dumps` can write with hutils' encoder: everything but an
      object, at any depth. The encoder's `default` handles only decimals and
      dates, which are not values here, and passes anything else to
      `json.JSONEncoder.default`, which raises TypeError. */
  predicate Serializable(v: Value)
  {
    match v
    case Obj(_, _) => false
    case List(xs) => forall i :: 0 <= i < |xs| ==> Serializable(xs[i])
    case Dict(es) => forall i :: 0 <= i < |es| ==> Serializable(es[i].1)
    case _ => true
  }

  /** The text `format_json` writes for the empty mapping. */
  const EmptyText := Serialized(map[], 0)

  /** `format_json(mapping)`; layout 0 stands for the one the serialiser
      writes. A value the encoder does not know raises TypeError. */
  function Encode(m: map<string, Value>): (r: Result<FieldText, PyError>)
    ensures r.Success? <==> forall k :: k in m ==> Serializable(m[k])
    ensures r.Success? ==> r.value.Serialized? && r.value.mapping == m
    ensures r.Failure? ==> r.error == TypeError
  {
    if forall k :: k in m ==> Serializable(m[k]) then Success(Serialized(m, 0)) else Failure(TypeError)
  }

  /** The empty mapping always encodes, to `EmptyText`. */
  lemma EncodeEmpty()
    ensures Encode(map[]) == Success(EmptyText)
  {
  }

  /** A mapping holding an object anywhere cannot be written. */
  lemma EncodeRejectsObject(m: map<string, Value>, key: string, id: nat, attrs: map<string, Value>)
    ensures Encode(m[key := List([Obj(id, attrs)])]).Failure?
  {
    var v := List([Obj(id, attrs)]);
    assert !Serializable(v.items[0]);
    assert key in m[key := v] && !Serializable(m[key := v][key]);
  }

  /** `json.loads(text)` where a mapping is expected. */
  function Decode(t: FieldText): (r: Result<map<string, Value>, PyError>)
    ensures r.Success? <==> t.Serialized?
    ensures r.Success? ==> r.value == t.mapping
  {
    match t
    case Serialized(m, _) => Success(m)
    case _ => Failure(ValueError(DecodeErrorMessage))
  }

  const DecodeErrorMessage := "Expecting value"

  /** Decoding undoes encoding. */
  lemma DecodeEncode(m: map<string, Value>)
    requires Encode(m).Success?
    ensures Decode(Encode(m).value) == Success(m)
  {
  }

  /** No "_"-prefixed name reaches the mapping. */
  predicate IsPrivate(name: string)
  {
    |name| > 0 && name[0] == '_'
  }

  /** A host field that counts as empty: missing, None or "". */
  predicate BlankField(fields: map<string, FieldText>, field: string)
  {
    field !in fields || fields[field] == Blank
  }

  /** The text a store bound to `field` starts from. */
  function BoundText(fields: map<string, FieldText>, field: string): (t: FieldText)
    ensures BlankField(fields, field) ==> t == EmptyText && Decode(t) == Success(map[])
    ensures !BlankField(fields, field) ==> t == fields[field]
  {
    if BlankField(fields, field) then EmptyText else fields[field]
  }

  /** The host's fields once a store is bound to `field`: a blank field now
      holds the empty mapping's text, and nothing else changes. */
  function Bootstrapped(fields: map<string, FieldText>, field: string): (r: map<string, FieldText>)
    ensures field in r && r[field] == BoundText(fields, field)
    ensures forall f :: f != field ==> (f in r <==> f in fields)
    ensures forall f :: f != field && f in fields ==> r[f] == fields[f]
  {
    if BlankField(fields, field) then fields[field := EmptyText] else fields
  }

  /** The mapping after `store.key = value` for a public key: None deletes
      the key (deleting an absent key is no error), anything else sets it. */
  function Assigned(m: map<string, Value>, key: string, value: Value): (r: map<string, Value>)
    ensures value == Null ==> key !in r
    ensures value != Null ==> key in r && r[key] == value
    ensures forall k :: k != key ==> (k in r <==> k in m)
    ensures forall k :: k != key && k in m ==> r[k] == m[k]
  {
    if value == Null then m - {key} else m[key := value]
  }

  /** The value a public key reads as: its value, or None when absent. */
  function Read(m: map<string, Value>, key: string): (v: Value)
    ensures key in m ==> v == m[key]
    ensures key !in m ==> v == Null
  {
    if key in m then m[key] else Null
  }

  /** A write is visible to the next read of the same key, None included. */
  lemma ReadAssigned(m: map<string, Value>, key: string, value: Value, other: string)
    ensures Read(Assigned(m, key, value), key) == value
    ensures other != key ==> Read(Assigned(m, key, value), other) == Read(m, other)
  {
  }

  /** A model object: its text fields, and the attribute `_field_name`, the one
      slot every `make_field` property on the object memoises its store in. */
  class Host {
    var fields: map<string, FieldText>
    var fieldNameSlot: DynamicField?

    constructor (fields: map<string, FieldText>)
      ensures this.fields == fields && fieldNameSlot == null
    {
      this.fields := fields;
      fieldNameSlot := null;
    }
  }

  /** The memo slot holds nothing, or a store bound to this host. (Its
      mapping may be ahead of its text after a write that could not be
      encoded, so `Valid()` is not part of this.) */
  ghost predicate MemoIsBound(model: Host)
    reads model
  {
    model.fieldNameSlot != null ==> model.fieldNameSlot.model == model
  }

  class DynamicField {
    const model: Host
    const field: string
    /** `_memory_data`: the decoded mapping. */
    var memoryData: map<string, Value>
    /** `_field_value`: the text last read from or written to the host. */
    var fieldValue: FieldText
    /** Attributes set on the store under "_"-prefixed names. */
    var privateAttrs: map<string, Value>

    /** The mapping in memory is what the last text decodes to. */
    ghost predicate Valid()
      reads this
    {
      Decode(fieldValue) == Success(memoryData)
    }

    constructor Init(model: Host, field: string, text: FieldText, data: map<string, Value>)
      requires Decode(text) == Success(data)
      ensures Valid()
      ensures this.model == model && this.field == field
      ensures fieldValue == text && memoryData == data && privateAttrs == map[]
    {
      this.model := model;
      this.field := field;
      fieldValue := text;
      memoryData := data;
      privateAttrs := map[];
    }

    /** `DynamicField(model, field)`: an empty host field is first set to the
        encoding of the empty mapping; then the field's text is decoded, which
        fails, leaving the host otherwise untouched, when the text is
        `Unreadable`. For valid JSON that is not an object this failure is the
        model's, not Python's (see `FieldText`). */
    static method Bind(model: Host, field: string) returns (r: Result<DynamicField, PyError>)
      modifies model
      ensures model.fieldNameSlot == old(model.fieldNameSlot)
      ensures model.fields == Bootstrapped(old(model.fields), field)
      ensures r.Success? <==> Decode(BoundText(old(model.fields), field)).Success?
      ensures r.Failure? ==> r.error == Decode(BoundText(old(model.fields), field)).error
      ensures r.Success? ==>
        && fresh(r.value) && r.value.Valid()
        && r.value.model == model && r.value.field == field
        && r.value.fieldValue == BoundText(old(model.fields), field)
        && r.value.memoryData == Decode(BoundText(old(model.fields), field)).value
        && r.value.privateAttrs == map[]
    {
      var text := if field in model.fields then model.fields[field] else Blank;
      if text == Blank {
        EncodeEmpty();
        text := EmptyText;
        model.fields := model.fields[field := text];
      }
      var decoded := Decode(text);
      if decoded.Failure? {
        return Failure(decoded.error);
      }
      var store := new DynamicField.Init(model, field, text, decoded.value);
      r := Success(store);
    }

    /** `store.key = value` (also `store[key] = value`). A public key changes
        the mapping first and then writes it to the host; when the mapping
        cannot be encoded the write raises TypeError and the mapping stays
        ahead of the host's text. */
    method SetAttr(key: string, value: Value) returns (r: Result<(), PyError>)
      modifies this, model
      ensures model.fieldNameSlot == old(model.fieldNameSlot)
      ensures IsPrivate(key) ==>
        && r.Success?
        && privateAttrs == old(privateAttrs)[key := value]
        && memoryData == old(memoryData) && fieldValue == old(fieldValue)
        && model.fields == old(model.fields)
      ensures !IsPrivate(key) ==>
        && memoryData == Assigned(old(memoryData), key, value)
        && privateAttrs == old(privateAttrs)
        && (r.Success? <==> Encode(memoryData).Success?)
        && (r.Success? ==> Valid() && fieldValue == Encode(memoryData).value
                           && model.fields == old(model.fields)[field := fieldValue])
        && (r.Failure? ==> r.error == TypeError && fieldValue == old(fieldValue)
                           && model.fields == old(model.fields))
    {
      if IsPrivate(key) {
        privateAttrs := privateAttrs[key := value];
        return Success(());
      }
      if value == Null {
        memoryData := memoryData - {key};
      } else {
        memoryData := memoryData[key := value];
      }
      r := SetModelField();
    }

    /** `_set_model_field`: re-serialise the whole mapping into the host; an
        encoding error leaves the text and the host alone. */
    method SetModelField() returns (r: Result<(), PyError>)
      modifies this`fieldValue, model`fields
      ensures r.Success? <==> Encode(memoryData).Success?
      ensures r.Success? ==> fieldValue == Encode(memoryData).value && Valid()
      ensures r.Success? ==> model.fields == old(model.fields)[field := fieldValue]
      ensures r.Failure? ==> r.error == TypeError && fieldValue == old(fieldValue)
      ensures r.Failure? ==> model.fields == old(model.fields)
    {
      var text := Encode(memoryData);
      if text.Failure? {
        return Failure(text.error);
      }
      fieldValue := text.value;
      model.fields := model.fields[field := fieldValue];
      r := Success(());
    }

    method SetItem(key: string, value: Value) returns (r: Result<(), PyError>)
      modifies this, model
      ensures model.fieldNameSlot == old(model.fieldNameSlot)
      ensures IsPrivate(key) ==>
        && r.Success?
        && privateAttrs == old(privateAttrs)[key := value]
        && memoryData == old(memoryData) && fieldValue == old(fieldValue)
        && model.fields == old(model.fields)
      ensures !IsPrivate(key) ==>
        && memoryData == Assigned(old(memoryData), key, value)
        && privateAttrs == old(privateAttrs)
        && (r.Success? <==> Encode(memoryData).Success?)
        && (r.Success? ==> Valid() && fieldValue == Encode(memoryData).value
                           && model.fields == old(model.fields)[field := fieldValue])
        && (r.Failure? ==> r.error == TypeError && fieldValue == old(fieldValue)
                           && model.fields == old(model.fields))
    {
      r := SetAttr(key, value);
    }

    /** `store.key`: a public key reads as its value or None and never fails;
        a "_"-prefixed name is an ordinary attribute lookup, which raises
        AttributeError when the attribute was never set. */
    function GetAttr(key: string): (r: Result<Value, PyError>)
      reads this
      ensures !IsPrivate(key) ==> r == Success(Read(memoryData, key))
      ensures IsPrivate(key) ==> (r.Success? <==> key in privateAttrs)
      ensures IsPrivate(key) && r.Success? ==> r.value == privateAttrs[key]
      ensures r.Failure? ==> r.error == AttributeError
    {
      if IsPrivate(key) then
        if key in privateAttrs then Success(privateAttrs[key]) else Failure(AttributeError)
      else Success(Read(memoryData, key))
    }

    /** `store[key]`: the same as `store.key`. */
    function GetItem(key: string): (r: Result<Value, PyError>)
      reads this
      ensures r == GetAttr(key)
    {
      GetAttr(key)
    }

    /** The `make_field` property: the store memoised in `_field_name`, created
        and memoised on first access. The slot name is fixed, so every field
        name on one host gets the store of whichever field was accessed first. */
    static method MakeField(model: Host, fieldName: string) returns (r: Result<DynamicField, PyError>)
      requires MemoIsBound(model)
      modifies model
      ensures MemoIsBound(model)
      ensures old(model.fieldNameSlot) != null ==>
        && r == Success(old(model.fieldNameSlot))
        && model.fieldNameSlot == old(model.fieldNameSlot)
        && model.fields == old(model.fields)
      ensures old(model.fieldNameSlot) == null ==>
        && (r.Success? <==> Decode(BoundText(old(model.fields), fieldName)).Success?)
        && (r.Failure? ==> model.fieldNameSlot == null)
        && (r.Failure? ==> r.error == Decode(BoundText(old(model.fields), fieldName)).error)
        && (r.Success? ==>
             && model.fieldNameSlot == r.value && fresh(r.value) && r.value.Valid()
             && r.value.field == fieldName && r.value.privateAttrs == map[]
             && r.value.fieldValue == BoundText(old(model.fields), fieldName)
             && r.value.memoryData == Decode(BoundText(old(model.fields), fieldName)).value)
        && model.fields == Bootstrapped(old(model.fields), fieldName)
    {
      if model.fieldNameSlot == null {
        r := Bind(model, fieldName);
        if r.Success? {
          model.fieldNameSlot := r.value;
        }
      } else {
        r := Success(model.fieldNameSlot);
      }
    }
  }

  /** A `type_wrapper` callable: its value when called with no argument and
      its conversion of one argument; either may raise. */
  datatype TypeWrapper = TypeWrapper(zero: Result<Value, PyError>, convert: Value -> Result<Value, PyError>)

  /** `make_property`'s `_wrap`: without a wrapper the value passes unchanged;
      with one, None becomes `type_wrapper()` and v becomes `type_wrapper(v)`. */
  function Wrap(wrapper: Option<TypeWrapper>, v: Value): (r: Result<Value, PyError>)
    ensures wrapper.None? ==> r == Success(v)
    ensures wrapper.Some? && v == Null ==> r == wrapper.value.zero
    ensures wrapper.Some? && v != Null ==> r == wrapper.value.convert(v)
  {
    match wrapper
    case None => Success(v)
    case Some(w) => if v == Null then w.zero else w.convert(v)
  }

  /** The property getter on a store attribute: `getattr(store, name, default)`
      falls back to `default` only on AttributeError, then the result is wrapped. */
  function ReadThrough(attr: Result<Value, PyError>, wrapper: Option<TypeWrapper>, default: Value): (r: Result<Value, PyError>)
    ensures attr.Success? ==> r == Wrap(wrapper, attr.value)
    ensures attr == Failure(AttributeError) ==> r == Wrap(wrapper, default)
    ensures attr.Failure? && attr.error != AttributeError ==> r == Failure(attr.error)
  {
    match attr
    case Success(v) => Wrap(wrapper, v)
    case Failure(e) => if e == AttributeError then Wrap(wrapper, default) else Failure(e)
  }

  /** For a public property the declared default is never used: the store
      answers None instead of raising, and the wrapper then sees None. */
  lemma DefaultUnreachable(m: map<string, Value>, name: string, wrapper: Option<TypeWrapper>, d1: Value, d2: Value)
    requires !IsPrivate(name)
    ensures ReadThrough(Success(Read(m, name)), wrapper, d1) == ReadThrough(Success(Read(m, name)), wrapper, d2)
    ensures name !in m && wrapper.Some? ==> ReadThrough(Success(Read(m, name)), wrapper, d1) == wrapper.value.zero
    ensures name !in m && wrapper.None? ==> ReadThrough(Success(Read(m, name)), wrapper, d1) == Success(Null)
  {
  }

  /** With a wrapper whose zero value is not None, assigning None stores the
      zero value instead of deleting the key. */
  lemma WrappedNoneIsStored(m: map<string, Value>, name: string, w: TypeWrapper)
    requires w.zero.Success? && w.zero.value != Null
    ensures Wrap(Some(w), Null) == w.zero
    ensures name in Assigned(m, name, Wrap(Some(w), Null).value)
  {
  }

  /** Reading a property of the host through the store in `_field_name`. */
  method PropertyGet(model: Host, jsonField: string, name: string, wrapper: Option<TypeWrapper>, default: Value)
    returns (r: Result<Value, PyError>)
    requires MemoIsBound(model)
    modifies model
    ensures MemoIsBound(model)
    ensures old(model.fieldNameSlot) != null ==>
      && model.fieldNameSlot == old(model.fieldNameSlot) && model.fields == old(model.fields)
      && r == ReadThrough(model.fieldNameSlot.GetAttr(name), wrapper, default)
    ensures old(model.fieldNameSlot) == null ==>
      var text := BoundText(old(model.fields), jsonField);
      && model.fields == Bootstrapped(old(model.fields), jsonField)
      && (model.fieldNameSlot == null <==> Decode(text).Failure?)
      && (Decode(text).Failure? ==> r == Failure(Decode(text).error))
      && (Decode(text).Success? ==>
           && model.fieldNameSlot.field == jsonField
           && model.fieldNameSlot.memoryData == Decode(text).value
           && model.fieldNameSlot.privateAttrs == map[]
           && r == ReadThrough(model.fieldNameSlot.GetAttr(name), wrapper, default))
  {
    var store := DynamicField.MakeField(model, jsonField);
    if store.Failure? {
      return Failure(store.error);
    }
    r := ReadThrough(store.value.GetAttr(name), wrapper, default);
  }

  /** On first access a public property reads what the host's text holds. */
  lemma FirstReadIsText(fields: map<string, FieldText>, jsonField: string, name: string,
                        wrapper: Option<TypeWrapper>, default: Value)
    requires Decode(BoundText(fields, jsonField)).Success? && !IsPrivate(name)
    ensures var m := Decode(BoundText(fields, jsonField)).value;
      ReadThrough(Success(Read(m, name)), wrapper, default) == Wrap(wrapper, Read(m, name))
  {
  }

  /** Writing a property of the host through the store in `_field_name`: the
      store is obtained first, then the value is wrapped, then it is set. */
  method PropertySet(model: Host, jsonField: string, name: string, wrapper: Option<TypeWrapper>, v: Value)
    returns (r: Result<(), PyError>)
    requires MemoIsBound(model)
    modifies model, model.fieldNameSlot
    ensures MemoIsBound(model)
    ensures old(model.fieldNameSlot) != null ==> model.fieldNameSlot == old(model.fieldNameSlot)
    ensures model.fieldNameSlot == null ==>
      && old(model.fieldNameSlot) == null
      && Decode(BoundText(old(model.fields), jsonField)).Failure?
      && r == Failure(Decode(BoundText(old(model.fields), jsonField)).error)
      && model.fields == old(model.fields)
    ensures old(model.fieldNameSlot) == null && model.fieldNameSlot != null ==>
      model.fieldNameSlot.field == jsonField
    ensures model.fieldNameSlot != null ==>
      var s := model.fieldNameSlot;
      var first := old(model.fieldNameSlot) == null;
      var before := if first then Decode(BoundText(old(model.fields), jsonField)).GetOr(map[])
                    else old(model.fieldNameSlot.memoryData);
      var attrsBefore := if first then map[] else old(model.fieldNameSlot.privateAttrs);
      var fieldsBefore := if first then Bootstrapped(old(model.fields), jsonField) else old(model.fields);
      var textBefore := if first then BoundText(old(model.fields), jsonField) else old(model.fieldNameSlot.fieldValue);
      var w := Wrap(wrapper, v);
      && (w.Failure? ==>
           && r == Failure(w.error)
           && s.memoryData == before && s.privateAttrs == attrsBefore
           && s.fieldValue == textBefore && model.fields == fieldsBefore)
      && (w.Success? && IsPrivate(name) ==>
           && r.Success?
           && s.memoryData == before && s.privateAttrs == attrsBefore[name := w.value]
           && s.fieldValue == textBefore && model.fields == fieldsBefore)
      && (w.Success? && !IsPrivate(name) ==>
           var after := Assigned(before, name, w.value);
           && s.memoryData == after && s.privateAttrs == attrsBefore
           && (r.Success? <==> Encode(after).Success?)
           && (r.Success? ==> s.Valid() && s.fieldValue == Encode(after).value
                              && model.fields == fieldsBefore[s.field := Encode(after).value])
           && (r.Failure? ==> r == Failure(TypeError)
                              && s.fieldValue == textBefore && model.fields == fieldsBefore))
  {
    var store := DynamicField.MakeField(model, jsonField);
    if store.Failure? {
      return Failure(store.error);
    }
    var s := store.value;
    var wrapped := Wrap(wrapper, v);
    if wrapped.Failure? {
      return Failure(wrapped.error);
    }
    r := s.SetAttr(name, wrapped.value);
  }

  /** The two queries `filter_related` issues: the annotation name with the
      conditions of the filtered relation, and the outer filter. */
  datatype FilteredQuery = FilteredQuery(
    annotation: string,
    relationConditions: seq<(string, Value)>,
    outerCondition: (string, Value))

  const DeactivatedKey := "deactivated_at__isnull"

  /** `{f'{prefix}{k}': v for k, v in entries}`. */
  function PrefixKeys(prefix: string, entries: seq<(string, Value)>): (r: seq<(string, Value)>)
    ensures |r| == |entries|
    ensures forall i :: 0 <= i < |entries| ==> r[i] == (prefix + entries[i].0, entries[i].1)
  {
    if entries == [] then [] else [(prefix + entries[0].0, entries[0].1)] + PrefixKeys(prefix, entries[1..])
  }

  /** `filter_related(name, include_all=..., **conditions)`, keyword rewriting
      only: the last keyword becomes the outer filter on `filtered_<name>`; unless
      `include_all`, `deactivated_at__isnull=True` is added when the remaining
      keywords lack it; the remaining keywords get the prefix `<name>__`. With no
      keyword, `popitem` raises KeyError. */
  method FilterRelated(name: string, includeAll: bool, conditions: seq<(string, Value)>)
    returns (r: Result<FilteredQuery, PyError>)
    ensures conditions == [] <==> r == Failure(KeyError)
    ensures r.Success? ==>
      var last := conditions[|conditions| - 1];
      var rest := conditions[..|conditions| - 1];
      var kept := if includeAll || HasKey(rest, DeactivatedKey) then rest
                  else rest + [(DeactivatedKey, Bool(true))];
      && r.value.annotation == "filtered_" + name
      && r.value.outerCondition == ("filtered_" + name + "__" + last.0, last.1)
      && |r.value.relationConditions| == |kept|
      && forall i :: 0 <= i < |kept| ==>
           r.value.relationConditions[i] == (name + "__" + kept[i].0, kept[i].1)
  {
    if conditions == [] {
      return Failure(KeyError);
    }
    var remaining := conditions;
    var filteredName := "filtered_" + name;
    var key, value := remaining[|remaining| - 1].0, remaining[|remaining| - 1].1;
    remaining := remaining[..|remaining| - 1];
    var condition := (filteredName + "__" + key, value);
    if !includeAll {
      remaining := SetDefault(remaining, DeactivatedKey, Bool(true));
    }
    var relation := PrefixKeys(name + "__", remaining);
    r := Success(FilteredQuery(filteredName, relation, condition));
  }

  /** Two `make_field` properties on one host share one store: the second
      returns the store bound to the first field, and a write through it goes
      to the first field's column, leaving the second field's text alone. */
  method SharedMemoExample() returns (boundTo: string, first: FieldText, second: FieldText)
    ensures boundTo == "json_a"
    ensures first == Serialized(map["k" := Str("v")], 0)
    ensures second == Serialized(map["k" := Int(1)], 3)
  {
    var host := new Host(map["json_a" := Blank, "json_b" := Serialized(map["k" := Int(1)], 3)]);
    var a := DynamicField.MakeField(host, "json_a");
    var b := DynamicField.MakeField(host, "json_b");
    assert a.Success? && b == a;
    assert b.value.memoryData == map[];
    var written := b.value.SetAttr("k", Str("v"));
    assert Serializable(Str("v"));
    assert written.Success?;
    boundTo, first, second := b.value.field, host.fields["json_a"], host.fields["json_b"];
  }

  /** Writing an object raises TypeError after the mapping already holds it:
      the store reads the object while the host's text is still the old one. */
  method UnencodableWriteExample() returns (written: Result<(), PyError>, read: Result<Value, PyError>, text: FieldText)
    ensures written == Failure(TypeError)
    ensures read == Success(Obj(1, map[]))
    ensures text == EmptyText
  {
    var host := new Host(map["json_data" := Blank]);
    var store := DynamicField.MakeField(host, "json_data");
    assert store.Success?;
    var s := store.value;
    var obj := Obj(1, map[]);
    written := s.SetAttr("editor", obj);
    assert !Serializable(s.memoryData["editor"]);
    read := s.GetAttr("editor");
    text := host.fields["json_data"];
  }
}
