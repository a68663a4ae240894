# hutils in Dafny

A model of the core of `hutils`, a small Python helper library for Django and
Django REST framework services. The model covers:

- `DynamicField`, a JSON store kept in a text column of a model object. It
  comes with its `make_field` / `make_property` descriptors and the
  `filter_related` keyword rewriting.
- The `TestCaseMixin` helpers `assert_same` (with its `__` key path language),
  `assert_data` and `ok`.
- The data helpers `bytes_to_str`, `get_data`, `merge_dicts`, `normalize` and
  `quantize`.
- The request schema helpers `get_offset_and_limit` and
  `get_start_and_end_time`.
- `TupleEnum` and `EmptyContextManager`.
- The validators `is_uuid`, `is_int` and `is_chinese_phone`.
- The SQLite functions `json_extract` and `json_contains`.
- The REST helpers `get_validation_error` and the not-found message of
  `get_object_or_not_found`.
- The context managers `catches` and `mutes`.

## Python values

Python values are modelled as one datatype, `PyValues.Value`:

- None, bool, int, str, list, an insertion-ordered dict (a sequence of
  key/value pairs) and an opaque object with attributes.
- `PyEq` is Python's `==`, including `True == 1`. `Truthy` is `bool()`.
- A raised exception becomes the `Failure` of a `Result`, carrying a
  `PyError`.

The helpers are modelled in their own modules:

- `PyInt` models the `int()` parsing of strings and rendering of ints.
- `Text` models `str.split`, `"".join`, `str.replace` and the `strip` family.
- `Exceptions` and `Decorators` model exceptions by their class hierarchy
  (`mro`), so that `except` clauses match subclasses.

Module layout follows the source. `DynamicField` and the model object it
writes to (`Host`) are classes with mutable fields. The test helpers'
`_get_key` loop, `assert_same`'s loop over its expectations, `merge_dicts`'s
loop and `json_extract`'s loop are methods with loops. Each of these methods
is proved against a function that specifies it. The rest is pure functions
and lemmas.

## Behaviour the model keeps as the code has it

- `DynamicField.make_field` memoises its store under the attribute
  `'_{}'.format('field_name')`, which is the fixed name `_field_name`. So two
  `make_field` properties on one object share the store of whichever was
  read first. The model keeps that one slot (`Host.fieldNameSlot`).
  `Databases.SharedMemoExample` shows that the second field then reads and
  writes the first field's column.
- `TupleEnum.get_value_at` has no default: an index outside the values raises
  IndexError.
- Documentation of this library mentions `from_normalized_name`,
  `lowercase_name` and `all_primary_values` on `TupleEnum`. They are not part
  of `hutils/classes.py`, so they are not modelled.
- The `TupleEnum` docstring asserts `Genders.FEMALE.value == 3`. The code
  gives 2, and `Classes.GendersExample` proves 2.
- The `catches` docstring uses a keyword `log=True`, but the parameter is
  `logger`.
- `__setattr__` changes `_memory_data` before `_set_model_field` serialises
  it. When a value cannot be serialised (an object anywhere inside it),
  `format_json` raises TypeError and the store's mapping is left ahead of the
  column. The model keeps that state (`Databases.UnencodableWriteExample`),
  so `Valid()` is promised only after a write that succeeded.
- `make_property`'s default is only reachable for a property name starting
  with `_`. A public name read from a `DynamicField` answers None instead of
  raising AttributeError (`Databases.DefaultUnreachable`).

## Model

| member | source | states |
|---|---|---|
| `Databases.Encode` | hutils/data_types.py:37-61 | writing succeeds exactly when no value holds an object at any depth, and the text then carries exactly the mapping; an object raises TypeError |
| `Databases.EncodeEmpty` | hutils/django/databases.py:32-34 | the empty mapping a blank column is given always encodes |
| `Databases.EncodeRejectsObject` | hutils/data_types.py:46 | a mapping holding an object cannot be written |
| `Databases.Decode` | hutils/django/databases.py:35 | decoding succeeds exactly on serialized text and yields its mapping |
| `Databases.DecodeEncode` | hutils/django/databases.py:35-40 | reading back what `_set_model_field` wrote, when it could write, gives the same mapping |
| `Databases.BoundText` | hutils/django/databases.py:32-34 | a missing or falsy column is replaced by the serialized empty mapping; otherwise the column's text is used |
| `Databases.Bootstrapped` | hutils/django/databases.py:32-34 | binding a store gives a blank column the empty mapping's text and changes no other column |
| `Databases.Assigned` | hutils/django/databases.py:45-48 | assigning None deletes the key, another value sets it, every other key is unchanged |
| `Databases.Read` | hutils/django/databases.py:57 | `_memory_data.get(attr, None)`: the stored value, or None when absent |
| `Databases.ReadAssigned` | hutils/django/databases.py:42-57 | after a public assignment the key reads back the value (None when deleted) and other keys read as before |
| `Databases.Host.constructor` | hutils/django/databases.py:24 | a model object with the given columns and no memoised store |
| `Databases.DynamicField.Init` | hutils/django/databases.py:24-35 | a store whose mapping is what its text decodes to |
| `Databases.DynamicField.Bind` | hutils/django/databases.py:24-35 | binding writes the empty mapping into a blank column, fails with the decode error on unreadable text, and otherwise yields a fresh valid store holding the decoded mapping |
| `Databases.DynamicField.SetAttr` | hutils/django/databases.py:37-49 | a private name sets a plain attribute and leaves the data and the column alone; a public name updates the mapping as `Assigned`, then writes its serialization to the column, or raises TypeError leaving the column and the store's text as they were |
| `Databases.DynamicField.SetModelField` | hutils/django/databases.py:37-40 | the store's text and the model's column both become the serialization of the mapping; an unencodable mapping raises TypeError and changes neither |
| `Databases.DynamicField.SetItem` | hutils/django/databases.py:51-52 | item assignment has exactly the effect of attribute assignment, the encoding error included |
| `Databases.DynamicField.GetAttr` | hutils/django/databases.py:54-57 | a public name reads the mapping (None when absent); a private name reads a set attribute or raises AttributeError |
| `Databases.DynamicField.GetItem` | hutils/django/databases.py:59-60 | item access is attribute access |
| `Databases.DynamicField.MakeField` | hutils/django/databases.py:62-70 | the first access binds a store and memoises it in the fixed `_field_name` slot; later accesses return the memoised store and change nothing |
| `Databases.Wrap` | hutils/django/databases.py:82-88 | no wrapper passes the value through; None becomes `type_wrapper()`, any other value `type_wrapper(value)` |
| `Databases.ReadThrough` | hutils/django/databases.py:91 | `getattr` with a default: AttributeError falls back to the default, other errors propagate, and the result is wrapped |
| `Databases.DefaultUnreachable` | hutils/django/databases.py:54-57 | for a public property name the declared default never changes the result |
| `Databases.WrappedNoneIsStored` | hutils/django/databases.py:85-92 | with a wrapper whose zero value is not None, assigning None stores that zero value instead of deleting the key |
| `Databases.PropertyGet` | hutils/django/databases.py:62-91 | the getter goes through the memoised store and answers `ReadThrough` of its attribute; on first access the store holds the decoded column text, a blank column is given the empty mapping, and unreadable text raises the decode error |
| `Databases.FirstReadIsText` | hutils/django/databases.py:54-57 | on first access a public property reads, wrapped, the value the column's text holds for it |
| `Databases.PropertySet` | hutils/django/databases.py:42-92 | the setter binds or reuses the store, wraps the value, and assigns it: a failing wrapper changes nothing after binding; a private name sets only the attribute; a public name updates the mapping and writes its serialization to the store's text and column, the other columns unchanged, or raises TypeError leaving the store's text and every column as bound |
| `Databases.PrefixKeys` | hutils/django/databases.py:161 | each keyword is renamed with the prefix, in order, values unchanged |
| `Databases.FilterRelated` | hutils/django/databases.py:137-163 | no keyword raises KeyError; otherwise the last keyword filters `filtered_<name>`, and the rest, plus `deactivated_at__isnull=True` unless `include_all` or already given, become `<name>__` conditions of the relation |
| `Databases.SharedMemoExample` | hutils/django/databases.py:62-70 | the second `make_field` property on a host returns the store bound to the first field, whose column a write then changes, leaving the second column's text alone |
| `Databases.UnencodableWriteExample` | hutils/django/databases.py:37-49 | writing an object raises TypeError while the store already reads the object and the column keeps its old text |
| `PyValues.PyEqReflexive` | hutils/unittest.py:234-240 | Python `==` is reflexive on JSON-like values |
| `PyValues.PyEq` | hutils/unittest.py:234-240 | Python `==`: numbers by value across bool and int, lists element-wise, dicts by key whatever the order, objects by identity |
| `PyValues.Truthy` | hutils/django/apis.py:44 | `bool(v)`: None, False, 0 and empty strings, lists and dicts are falsy, everything else truthy |
| `PyValues.FindDistinct` | hutils/unittest.py:258-259 | in a dict with distinct keys each entry is found at its own position |
| `PyValues.PyIndex` | hutils/unittest.py:221 | list indexing accepts exactly `-len <= i < len`, negative indices counting from the end |
| `PyValues.Keys` | hutils/unittest.py:257 | dict keys in insertion order |
| `PyValues.Find` | hutils/unittest.py:258-259 | the first position holding the key, or none when no entry has it |
| `PyValues.Insert` | hutils/django/apis.py:21-25 | `d[k] = v`: k then maps to v, other keys are unaffected, a new key goes last, distinct keys stay distinct |
| `PyValues.InsertExisting` | hutils/django/apis.py:21-25 | overwriting a present key keeps the key order and changes only that key |
| `PyValues.InsertNew` | hutils/django/apis.py:21-25 | a new key is appended last and changes no other key |
| `PyValues.SetDefault` | hutils/django/databases.py:160 | `setdefault` leaves a dict holding the key alone and appends the pair otherwise |
| `PyValues.FindSameKeys` | hutils/unittest.py:258-259 | lookup positions depend only on the keys |
| `PyValues.FindAppend` | hutils/django/apis.py:21-25 | appending a pair makes its key findable and leaves other keys' positions alone |
| `PyValues.PyIn` | hutils/django/unittest.py:15 | `in` on a list is membership by `==`; on a dict, key membership for a string needle, False for another scalar, TypeError for an unhashable needle; on a string, substring for a string needle and TypeError otherwise; TypeError on a non-container |
| `PyInt.DigitValue` | hutils/validators.py:33 | a digit's value is below ten |
| `PyInt.DigitChar` | hutils/validators.py:33 | the digit character of a value below ten is a digit of that value |
| `PyInt.NonNumericStart` | hutils/validators.py:32-36 | a string starting with a character that is not whitespace, sign or digit is not an int literal |
| `PyInt.RenderNat` | hutils/schemas.py:27 | rendering a natural number gives a nonempty run of digits |
| `PyInt.DigitsValueRenderNat` | hutils/schemas.py:22-23 | the digits of a rendered number read back as that number |
| `PyInt.ParseRender` | hutils/schemas.py:22-23 | `int(str(n)) == n` for every integer |
| `PyInt.ParseNatural` | hutils/schemas.py:22-23 | `int()` parses the decimal digits of a natural number back to it |
| `PyInt.ParseNegative` | hutils/schemas.py:22-23 | `int()` parses `-` and the digits of m back to -m |
| `PyInt.ToInt` | hutils/schemas.py:22-23 | `int()` of an int is itself, of a bool 0 or 1, of a string its parse (ValueError when it is no literal), and TypeError otherwise |
| `PyInt.ParseInt` | hutils/validators.py:33 | `int(s)` of a string: surrounding whitespace stripped (tab to carriage return, space, and the non-ASCII characters `str.isspace()` accepts; not the ASCII separators U+001C–U+001F), an optional sign, ASCII digits with single underscores between them; None where Python raises ValueError |
| `PyInt.SeparatorPaddedRejected` | hutils/validators.py:33 | `int('\x1c1')` raises ValueError: the ASCII separators are not whitespace to `int()` |
| `Text.SplitOn` | hutils/unittest.py:214 | `str.split(sep)` yields at least one part |
| `Text.RStrip` | hutils/data_types.py:110 | the result is a prefix of the input, does not end in a stripped character, and only stripped characters were removed |
| `Text.LStrip` | hutils/validators.py:18 | the result is a suffix of the input, does not start with a stripped character, and only stripped characters were removed |
| `Text.JoinSplitOn` | hutils/unittest.py:214 | joining the parts of a split with the separator gives back the string |
| `Text.SplitOnFirstIsPrefix` | hutils/unittest.py:214 | the first part of a split is a prefix of the string |
| `Text.SplitOnPartsAvoidSep` | hutils/unittest.py:214 | no part of a split contains the separator |
| `Text.SplitOnWithoutSep` | hutils/django/unittest.py:19 | a string without the separator splits into itself alone |
| `Text.SplitOnHead` | hutils/unittest.py:214 | splitting at the first occurrence of the separator yields the head then the split of the tail |
| `Text.RStripConcat` | hutils/data_types.py:110 | right-stripping a concatenation strips the tail first and the head only when the tail vanishes |
| `Text.MissingCharNotSubstring` | hutils/validators.py:18 | a pattern with a character absent from the string does not occur in it |
| `Text.ReplaceAllAbsent` | hutils/validators.py:18 | replacing an absent pattern leaves the string unchanged |
| `Text.StripUntouched` | hutils/validators.py:18 | stripping a string that neither starts nor ends in a stripped character leaves it unchanged |
| `TestCaseMixin.ParseStep` | hutils/unittest.py:215-228 | `length` and `bool` parts are exactly the length and truth steps; an `_` part is an index when its rest is an int literal and an attribute otherwise; any other part is an index when it is an int literal and a key otherwise |
| `TestCaseMixin.KeyStepReach` | hutils/unittest.py:215-228 | a part is a dictionary key step exactly when it is not `length`, not `bool`, does not start with `_`, and is not an int literal |
| `TestCaseMixin.ParseSteps` | hutils/unittest.py:214 | every part of the key path becomes its step, in order |
| `TestCaseMixin.Steps` | hutils/unittest.py:214 | the steps of a path are its `__`-separated parts, each read as `ParseStep` reads it |
| `TestCaseMixin.Resolve` | hutils/unittest.py:213-229 | the steps applied to the value left to right, the first error ending the walk |
| `TestCaseMixin.UnderscoreStep` | hutils/unittest.py:219-223 | a part starting with `_` is an index when the rest parses as an int and an attribute otherwise |
| `TestCaseMixin.PlainStep` | hutils/unittest.py:224-228 | any other part is an index when it parses as an int and a key otherwise |
| `TestCaseMixin.Len` | hutils/unittest.py:216 | `len` is defined on strings, lists and dicts only |
| `TestCaseMixin.ApplyStep` | hutils/unittest.py:215-228 | `bool` gives truthiness; `length` fails exactly where `len` does; an index step on a list fails exactly off its bounds; a key step on a dict fails exactly on a missing key and otherwise reads it; an attribute step succeeds exactly on an object having that attribute |
| `TestCaseMixin.GetKey` | hutils/unittest.py:211-229 | `_get_key` applies the steps of the split key path one after another, stopping at the first error |
| `TestCaseMixin.CheckOne` | hutils/unittest.py:231-240 | one expectation: its path resolved on the data, then compared with `==`; a resolution error is raised |
| `TestCaseMixin.SameVerdict` | hutils/unittest.py:231-246 | the expectations checked in order, the first that does not pass deciding |
| `TestCaseMixin.SameVerdictMeaning` | hutils/unittest.py:231-246 | `assert_same` passes exactly when every expectation holds, and otherwise reports the first failing one |
| `TestCaseMixin.FirstNonPassMeaning` | hutils/unittest.py:231-246 | the first verdict that is not a pass is a pass only when all are, otherwise it is the first failure |
| `TestCaseMixin.AssertSame` | hutils/unittest.py:231-246 | the loop over the expectations gives the verdict `SameVerdict` specifies |
| `TestCaseMixin.LengthShadowsKey` | hutils/unittest.py:215-216 | the path `length` on a dict is its size, even when the dict has a key `length` |
| `TestCaseMixin.LetterPartIsKey` | hutils/unittest.py:224-228 | a part starting with a lower-case letter, other than `length` and `bool`, is a key step |
| `TestCaseMixin.UnderscoreLetterIsAttr` | hutils/unittest.py:219-223 | `_` followed by a lower-case letter is an attribute step |
| `TestCaseMixin.NestedPathSteps` | hutils/unittest.py:214-228 | `nested__object___key` is the key steps `nested` and `object`, then the attribute `key` |
| `TestCaseMixin.StepsThree` | hutils/unittest.py:214-228 | `a__b___c` is the key steps a and b, then the attribute c |
| `TestCaseMixin.SplitThree` | hutils/unittest.py:214 | splitting `a__b___c` on `__` gives `a`, `b` and `_c` |
| `TestCaseMixin.AsList` | hutils/unittest.py:252 | `list()` of a list is its items, of a string its characters, of a dict its keys, and TypeError otherwise |
| `TestCaseMixin.AssertData` | hutils/unittest.py:248-262 | `assert_data` returns normally: a list against an equally long `list(actual)` item by item, a dict key by key against a dict holding every key, anything else by `==`; a TypeError the code raises reads as a non-match |
| `TestCaseMixin.AssertDataReflexive` | hutils/unittest.py:248-262 | every JSON-like value matches itself |
| `TestCaseMixin.AssertDataIgnoresExtraKeys` | hutils/unittest.py:256-259 | the expected dict may be a subset: extra actual keys never break a match |
| `TestCaseMixin.FindPrefix` | hutils/unittest.py:258-259 | appending entries does not change where a present key is found |
| `TestCaseMixin.ExpectedStatus` | hutils/unittest.py:149 | 201 when `is_201`, else 204 when `is_204`, else 200 |
| `TestCaseMixin.Ok` | hutils/unittest.py:147-157 | a status other than the expected one fails the assertion; otherwise the verdict is `assert_same` on the data |
| `DataTypes.BytesToStr` | hutils/data_types.py:25-31 | None stays None, bytes are decoded (failing as the decoder does), a string stays, an iterable is converted item by item, failing when an item fails, and anything else is not iterable |
| `DataTypes.BytesToStrAll` | hutils/data_types.py:31 | the list comprehension converts every item, in order, and fails exactly when an item fails |
| `DataTypes.BytesToStrIdempotent` | hutils/data_types.py:25-31 | converting an already converted value gives it back unchanged |
| `DataTypes.GetData` | hutils/data_types.py:64-77 | the values of the keys in order; optional gives None for missing keys, otherwise a missing key raises KeyError |
| `DataTypes.GetDataOptionalAgrees` | hutils/data_types.py:75-77 | when every key is present, optional and strict lookup agree |
| `DataTypes.MergeDicts` | hutils/data_types.py:80-92 | the `update` loop yields the left-to-right merge |
| `DataTypes.Merged` | hutils/data_types.py:89-92 | the mappings applied one after another, a later one overriding an earlier one's keys |
| `DataTypes.MergedKeys` | hutils/data_types.py:80-92 | the merge holds exactly the keys of the inputs |
| `DataTypes.MergedLastWins` | hutils/data_types.py:80-92 | a key takes its value from the last dict that holds it |
| `DataTypes.Normalize` | hutils/data_types.py:109-110 | text without a point is unchanged, and the result is always a prefix of the text |
| `DataTypes.NormalizeDecimal` | hutils/data_types.py:110 | for `whole.fraction` the trailing zeros of the fraction go, and the point goes with an all-zero fraction |
| `DataTypes.NormalizeExamples` | hutils/data_types.py:100-105 | `80.00` gives `80`, `12.30` gives `12.3`, `6.66` stays |
| `DataTypes.Pow10` | hutils/data_types.py:123 | powers of ten are positive |
| `DataTypes.DivMod` | hutils/data_types.py:123 | quotient and remainder of the division by the quantum |
| `DataTypes.RoundMagnitude` | hutils/data_types.py:113-123 | rounding keeps the quotient or adds one to it, and an exact division is kept |
| `DataTypes.Quantize` | hutils/data_types.py:113-123 | a success has exponent -2 and the rounded coefficient; it fails with InvalidOperation exactly when the coefficient needs more than 28 digits |
| `DataTypes.Hundredths` | hutils/data_types.py:123 | the coefficient at two decimal places: rescaled when exact, otherwise the magnitude divided by the quantum and rounded in the mode, with the sign kept |
| `DataTypes.QuantizeDefault` | hutils/data_types.py:113 | `quantize` rounds half up unless told otherwise |
| `DataTypes.QuantizeExact` | hutils/data_types.py:123 | values with at most two decimals are rescaled without rounding |
| `DataTypes.QuantizeIdempotent` | hutils/data_types.py:123 | quantizing a quantized value changes nothing |
| `DataTypes.QuantizeHalfUpNearest` | hutils/data_types.py:113 | under ROUND_HALF_UP the result is the nearest hundredth, ties away from zero, with the sign of the input |
| `DataTypes.HalfUpMagnitude` | hutils/data_types.py:113 | half-up rounding of a magnitude is within half a quantum, ties going up |
| `DataTypes.QuantizeDownTruncates` | hutils/data_types.py:123 | ROUND_DOWN truncates the magnitude toward zero |
| `DataTypes.QuantizeExamples` | hutils/data_types.py:113-123 | 17.4825 gives 17.48, 21.9172 gives 21.92, 0.125 gives 0.13 and -0.125 gives -0.13 |
| `DataTypes.QuantizeOverflow` | hutils/data_types.py:123 | a value of 27 integer digits cannot be quantized at 28 digits of precision |
| `Schemas.GetOffsetAndLimit` | hutils/schemas.py:9-28 | `int()` failures propagate; a negative offset or a limit below the offset raises the range error; a limit above a truthy `max_limit` raises the cap error; otherwise the pair is returned, with `0 <= offset <= limit <= max_limit` |
| `Schemas.OffsetAndLimitDefaults` | hutils/schemas.py:9 | empty data gives the defaults `(0, 20)` |
| `Schemas.OffsetAndLimitFromStrings` | hutils/schemas.py:22-28 | offset and limit sent as decimal strings are read back as the numbers |
| `Schemas.OffsetAndLimitBoundaries` | hutils/schemas.py:24-27 | a limit equal to the cap is accepted, one past it raises the cap error, and an offset past the limit raises the range error |
| `Schemas.GetStartAndEndTime` | hutils/schemas.py:31-55 | an end before the start raises the order error, a span beyond `max_delta_days` raises the span error, and otherwise both dates are returned, as the start and end of their days when `is_datetime` |
| `Schemas.StartAndEndOrdered` | hutils/schemas.py:46-55 | a returned pair is ordered, and as datetimes spans less than `max_delta_days + 1` days |
| `Schemas.StartAndEndBoundaries` | hutils/schemas.py:44-54 | a span of exactly `max_delta_days` is accepted, one day more is refused, and the prefix selects the keys |
| `Classes.NewMember` | hutils/classes.py:36-40 | a member's value is the first element of its definition and its values the whole definition |
| `Classes.GetValueAt` | hutils/classes.py:42-43 | `values[index]`, with negative indices from the end and IndexError outside |
| `Classes.Chinese` | hutils/classes.py:45-47 | the second value, or IndexError for a one-element definition |
| `Classes.FirstEqual` | hutils/classes.py:36-40 | finds the first earlier member whose value equals the new one, which makes the new name an alias. `__new__` only sets `_value_` to the first element; making an equal value an alias is the rule of `enum`'s metaclass, which the model applies |
| `Classes.AddMemberShape` | hutils/classes.py:36-40 | adding a name keeps the earlier members and names and binds the new name to a member standing for its value |
| `Classes.AddMemberSucceeds` | hutils/classes.py:36-40 | adding succeeds exactly for a fresh name with a nonempty definition |
| `Classes.AddMember` | hutils/classes.py:23-40 | one assignment in the class body: a name assigned twice or an empty tuple raises; a value == an earlier member's binds the name as an alias; any other value adds a member |
| `Classes.Define` | hutils/classes.py:23-40 | the class body: its assignments applied in order to an empty enum, the first error ending it |
| `Classes.DefineShape` | hutils/classes.py:23-40 | a defined enum is well formed |
| `Classes.DefineNames` | hutils/classes.py:23-40 | the enum's names are the definition names, position by position |
| `Classes.DefineBinds` | hutils/classes.py:23-40 | every name is bound to a member whose value stands for its definition's first value |
| `Classes.BindsKept` | hutils/classes.py:23-40 | later definitions keep earlier bindings |
| `Classes.KeysHasKey` | hutils/classes.py:23-40 | a name is defined exactly when it is among the names |
| `Classes.DistinctKeysAppend` | hutils/classes.py:23-40 | appending keeps names distinct exactly when the new name is fresh |
| `Classes.DefineSucceeds` | hutils/classes.py:23-40 | defining succeeds exactly with distinct names and nonempty definitions (`Definable`) |
| `Classes.DefinableAppend` | hutils/classes.py:23-40 | one more assignment stays definable exactly when its name is new and its tuple nonempty |
| `Classes.DefineStep` | hutils/classes.py:23-40 | a successful class statement is the one before it plus its last assignment |
| `Classes.ChineseChoices` | hutils/classes.py:49-51 | the `(value, chinese)` pair of every canonical member in order, or IndexError when one has no second value |
| `Classes.Choices` | hutils/classes.py:51 | the comprehension pairs each member's value with its second value |
| `Classes.MemberNamed` | hutils/classes.py:23-40 | a name resolves to a member exactly when it is defined |
| `Classes.Canonical` | hutils/classes.py:36-40 | one member per definition |
| `Classes.Positions` | hutils/classes.py:36-40 | each name bound to its own position, in definition order |
| `Classes.DefineWithoutAliases` | hutils/classes.py:23-40 | without equal values the class is one member per definition, each name bound to its own position |
| `Classes.AliasAddsNoMember` | hutils/classes.py:23-51 | an alias adds no member and does not change the choices |
| `Classes.GendersExample` | hutils/classes.py:26-33 | the `Genders` example: four members, FEMALE has value 2 and chinese 女性, and the choices list |
| `Classes.AddMemberNew` | hutils/classes.py:36-40 | a fresh value becomes a new member at the end |
| `Classes.AddMemberAlias` | hutils/classes.py:36-40 | an equal value binds the name to the first equal member (`enum`'s metaclass rule applied to the `_value_` that `__new__` sets) |
| `Classes.FirstEqualIsFirst` | hutils/classes.py:36-40 | the first member with an equal value is the one found, as `enum`'s metaclass picks the alias target for the `_value_` set by `__new__` |
| `Classes.DefineSnoc` | hutils/classes.py:23-40 | the class body is processed one definition after another |
| `Classes.EmptyContextManager.Enter` | hutils/classes.py:15-16 | `__enter__` returns the manager itself |
| `Classes.EmptyContextManager.Exit` | hutils/classes.py:18-20 | `__exit__` never suppresses an exception |
| `Classes.EmptyContextManager.With` | hutils/classes.py:9-20 | a `with` block returns what its body returns, and an exception raised in it propagates unchanged |
| `Validators.Lower` | hutils/validators.py:18 | lower-casing makes a hex digit lower-case and leaves lower-case ones alone |
| `Validators.UuidHex` | hutils/validators.py:18 | a UUID's hex form is 32 lower-case hex digits |
| `Validators.IsUuid` | hutils/validators.py:8-20 | a falsy value is no UUID, another non-string raises AttributeError, and a string always gets an answer |
| `Validators.IsUuidExact` | hutils/validators.py:17-20 | a string is accepted exactly when it is 32 lower-case hex digits |
| `Validators.CanonicalUuidIsOwnHex` | hutils/validators.py:18 | 32 lower-case hex digits parse to a UUID whose hex is the string itself |
| `Validators.CanonicalHexDigits` | hutils/validators.py:18 | 32 lower-case hex digits are their own lower-cased hex |
| `Validators.CanonicalUuidUntouched` | hutils/validators.py:18 | the prefix removal, brace stripping and dash removal leave 32 hex digits alone |
| `Validators.IsUuidRejectsProse` | tests/test_validators.py:18-19 | the test's prose string `php is the best...` is no UUID |
| `Validators.IsInt` | hutils/validators.py:23-36 | a string is an int exactly when `int()` parses it; ints and bools are; other values raise TypeError |
| `Validators.IsIntSeparatorPadded` | hutils/validators.py:23-36 | a number padded with an ASCII separator is not an int: `is_int('\x1c1')` is False |
| `Validators.IsIntExamples` | hutils/validators.py:23-36 | the letter `a` is not an integer and None raises TypeError |
| `Validators.IsIntRendered` | hutils/validators.py:23-36 | every rendered integer is accepted |
| `Validators.MatchesFixedWidth` | hutils/validators.py:39 | a fixed-width anchored pattern matches exactly the strings of that width whose characters fall in the ranges, optionally followed by one newline |
| `Validators.PhonePattern` | hutils/validators.py:39 | the phone pattern is eleven characters wide |
| `Validators.Matches` | hutils/validators.py:39-51 | `re.match` of an anchored pattern of character ranges: one character per range, then `$` at the end or before one final newline |
| `Validators.IsChinesePhone` | hutils/validators.py:42-51 | strings get an answer; other values raise TypeError |
| `Validators.ChinesePhoneShape` | hutils/validators.py:39-51 | a phone number is `1`, a digit from 3 to 9, then nine digits, optionally followed by a newline |
| `Validators.ChinesePhoneExamples` | hutils/validators.py:39-51 | `17600001234` is accepted, also with a trailing newline, and `91234567` is not |
| `SqliteJson.DropRoot` | hutils/django/unittest.py:19 | `path[2:]` drops the `$.` root |
| `SqliteJson.PathKeys` | hutils/django/unittest.py:19 | a path has at least one key |
| `SqliteJson.Step` | hutils/django/unittest.py:22-25 | a dict with the key gives its value; anything else gives None |
| `SqliteJson.JsonExtract` | hutils/django/unittest.py:17-26 | the loop applies the path keys one after another |
| `SqliteJson.Extract` | hutils/django/unittest.py:19-26 | the path keys applied in turn, a dict answering `get(key)` and anything else None |
| `SqliteJson.ExtractNullStays` | hutils/django/unittest.py:21-25 | once None, the result stays None |
| `SqliteJson.ExtractConcat` | hutils/django/unittest.py:21-25 | extracting along a concatenated path is extracting along each part in turn |
| `SqliteJson.ExtractNested` | hutils/django/unittest.py:17-26 | `$.a.b` reaches a nested value |
| `SqliteJson.RootPathTakesEmptyKey` | hutils/django/unittest.py:19 | the root path `$` looks up the empty key |
| `SqliteJson.ExtractDoesNotIndexLists` | hutils/django/unittest.py:22-25 | lists are never indexed: a key into a list gives None |
| `SqliteJson.JsonContains` | hutils/django/unittest.py:14-15 | list containment by `==`; key containment for a dict column, False for another scalar, TypeError for a list or dict value; substring for a string column and a string value, TypeError for another value; TypeError for a null, boolean or number column |
| `SqliteJson.JsonContainsMembers` | hutils/django/unittest.py:14-15 | every list item, and every key of a dict, is contained |
| `Apis.GetValidationError` | hutils/django/apis.py:6-26 | the detail always has `message`, has `data` and `code` exactly when they are not None, in that key order, and with distinct keys |
| `Apis.NotFoundMessage` | hutils/django/apis.py:44 | a truthy custom message is used; otherwise `<class name> 不存在` |
| `Apis.NotFoundMessageFallback` | hutils/django/apis.py:44 | None and the empty string fall back to the default message; a custom message is kept |
| `Apis.NotFound` | hutils/django/apis.py:43-44 | the raised error carries just the not-found message |
| `Decorators.Caught` | hutils/decorators.py:21 | no exception classes means `(Exception,)` |
| `Decorators.Matches` | hutils/decorators.py:21-24 | `except exceptions` matches an exception that is an instance of one of the classes caught |
| `Decorators.Catches` | hutils/decorators.py:9-29 | a normal return passes; an exception outside the classes propagates; one inside is replaced by the given exception or by the factory's result for it |
| `Decorators.Mutes` | hutils/decorators.py:33-50 | a normal return passes; an exception of the classes is swallowed and the block yields nothing; others propagate |
| `Decorators.DefaultCatchesExceptionOnly` | hutils/decorators.py:21 | by default exactly `Exception` subclasses are caught, so KeyboardInterrupt and SystemExit pass through |
| `Decorators.TranslatorsContain` | hutils/decorators.py:21-29 | an escaping exception is one `mutes` does not match, and `catches` either passes the outcome or raises the replacement |
| `Decorators.CatchesSecondListed` | tests/test_decorator.py:36-37 | the test with a factory: a TypeError, listed second, is replaced by what the factory makes of it, and a class not listed passes through |
| `Decorators.CatchesDocstringExample` | hutils/decorators.py:14-15 | the docstring example: a ValueError under `catches(ValueError, TypeError, raises=IOError())` becomes the IOError, and a class not listed passes through |
| `Decorators.CatchesSubclass` | hutils/decorators.py:21-24 | `catches(LookupError)` translates a KeyError, as `except` matches subclasses |
| `Exceptions.Ancestors` | hutils/decorators.py:21-24 | the ancestors of a built-in exception class end in BaseException and never include the class itself |
| `Exceptions.Builtin` | hutils/decorators.py:21-24 | an instance of a built-in exception class has that class (aliases resolved) and its ancestors as its method resolution order |
| `Exceptions.LookupErrors` | hutils/decorators.py:21-24 | KeyError and IndexError are LookupErrors and neither is the other |
| `Exceptions.InterruptIsNoException` | hutils/decorators.py:21 | KeyboardInterrupt is no Exception, so the default `(Exception,)` does not catch it |

## Left out

- The Django ORM: `annotate`, `FilteredRelation`, `Q` and the query `filter`.
  `filter_related` is modelled down to the keyword arguments it builds
  (`FilteredQuery`); what the database does with them is not modelled.
- `ModelMixin`, `filter_if_in`, `annotate_sum` and the managers of
  `hutils/django/databases.py`. They only forward to the ORM.
- JSON text. `json.loads` / `format_json` are abstract: the stored text is
  `Blank`, `Serialized(mapping, layout)` or unreadable. `JSONEncoder`'s
  date and decimal formatting is not modelled, as dates and decimals are not
  values here. Of the encoder's errors only the TypeError for an object is
  modelled; circular references are not.
- The Python attribute protocol of `DynamicField` is not modelled. The
  `_memory_data`, `_model` and `_field` attributes are fields of the class.
  Other `_`-prefixed attributes are a map.
- Logging in `catches` and `mutes` (`log_error` is abstract I/O).
- Decorators.Mutes: the `returns` value is not modelled. The generator-based
  context manager cannot deliver it, so the block yields nothing (`None`)
  however `returns` is set.
- Decorators.Catches: exception chaining (`raise ... from ex`) is not
  modelled. A factory that itself raises, or returns something that is not an
  exception, is not modelled either.
- DataTypes.GetData: the result is a list, where the code returns a lazy
  `map`. The model therefore raises KeyError at the call, not when the map
  is iterated.
- PyInt.ToInt: only ASCII digits are modelled. Unicode digits and `int()` of
  floats are not.
- Validators.UuidHex: only what is left as 32 hex digits gets its hex. The
  other strings `int(hex, 16)` accepts (a `0x` prefix, a sign, underscores,
  surrounding whitespace) are None here, where `uuid.UUID` would give their
  hex. Such a string is never its own hex, so `is_uuid` is False on it
  either way.
- Validators.IsUuid: `uuid.UUID` is modelled by its hex normalisation
  (prefix removal, brace stripping, dash removal, 32 hex digits). UUID
  version and variant fields are not. The accepted set is proved exact
  (`IsUuidExact`).
- DataTypes.Quantize: these are not modelled:
  - float inputs and their binary expansion;
  - the sign of negative zero;
  - decimal contexts other than the default precision of 28.
  The eight rounding modes are modelled.
- Dicts are insertion-ordered sequences of pairs, except in `merge_dicts`. `json_contains` and
  `assert_data` rely on the distinct keys JSON produces; the lemmas needing
  this say so.
- DataTypes.MergeDicts: the inputs and the result are unordered maps. The
  result's keys and values are modelled, but not its key order (first
  appearance of each key).
- Exceptions.Builtin: only the built-in classes `Ancestors` lists have
  their standard bases. Any other name is taken as a class derived
  directly from `Exception`.
- TestCaseMixin.AssertData: the TypeError `list()` raises on a number, or
  `actual[key]` on a string or list, is a plain non-match in the model. The
  call fails either way, but the class of the error is not kept.
- Databases.DynamicField.Bind: a column holding valid JSON that is not an
  object (a list, a number, a string, null) is treated as unreadable, so
  binding fails with the decode error. Python binds such a column; a later
  public read then raises AttributeError on `.get`, and a public write raises
  TypeError or AttributeError on item assignment or `pop`.
- Databases.PropertyGet: on first access to a column holding valid non-object JSON the
  model raises the decode error. Python binds the store, `.get` raises
  AttributeError, and `getattr(..., default)` gives the property's default
  (wrapped). This follows from the `Bind` line above.
- Databases.PropertySet: on a column holding valid non-object JSON the model raises the
  decode error, where Python raises TypeError or AttributeError from the
  item assignment or `pop` after binding.
- Objects have only the attributes they are given. Built-in attributes,
  `len()` of objects and `__eq__` overrides are not modelled.
- Schemas.GetStartAndEndTime: inputs are dates (day numbers). Datetime
  inputs are not modelled; `datetime.combine` gives a datetime with
  microseconds since midnight. The bounds of the `datetime` module are not
  modelled either: `timedelta(days=max_delta_days)` raises OverflowError
  beyond 999999999 days, and dates exist only in the years 1 to 9999.
- The other SQLite functions (`POW`, `SQRT`, the trigonometry, `MAX`,
  `GREATEST`) operate on floats and are not modelled. The
  `connection_created` signal wiring is not modelled either.
- `bad_request`, `not_found`, `forbidden`, `assert_increases` and
  `assert_model_increases` of `hutils/unittest.py` are not modelled. The
  status helpers follow `ok`'s pattern; the increase helpers count ORM rows.
- The `print` of the failing data in `assert_same` is not modelled (output
  only).
- `get_object_or_not_found`'s query is not modelled; only its error message
  is.
- Validators.IsChinesePhone: the regular expression engine is not modelled.
  The model matches the phone pattern directly, with `$` accepting one
  trailing newline.
