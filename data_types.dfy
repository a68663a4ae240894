/** The data helpers of hutils/data_types.py: recursive decoding of bytes,
    batch lookup in a mapping, merging of mappings, trailing-zero removal and
    quantisation of decimals to two places. */
module DataTypes {
  import opened Wrappers
  import opened PyValues
  import Text

  // ---- bytes_to_str ----

  type Byte = b: int | 0 <= b < 256

  /** What `bytes_to_str` may be given: None, bytes, a string, any other
      iterable (by the items it yields), or a value that is not iterable. */
  datatype Data =
    | NoneData
    | Bytes(bytes: seq<Byte>)
    | Text(s: string)
    | Iterable(items: seq<Data>)
    | NotIterable

  /** What it returns: None, a string, or a list of such results. */
  datatype Decoded = DNone | DStr(s: string) | DList(items: seq<Decoded>)

  datatype ConvertError = UnicodeDecodeError | NotIterableError

  /** `bytes_to_str(data)`, with `bytes.decode()` given as `decode` (None on
      invalid input). */
  function BytesToStr(decode: seq<Byte> -> Option<string>, data: Data): (r: Result<Decoded, ConvertError>)
    ensures data.NoneData? ==> r == Success(DNone)
    ensures data.Text? ==> r == Success(DStr(data.s))
    ensures data.Bytes? ==>
      r == (if decode(data.bytes).Some? then Success(DStr(decode(data.bytes).value)) else Failure(UnicodeDecodeError))
    ensures data.NotIterable? ==> r == Failure(NotIterableError)
    ensures data.Iterable? ==>
      (r.Success? <==> forall i :: 0 <= i < |data.items| ==> BytesToStr(decode, data.items[i]).Success?)
    ensures data.Iterable? && r.Success? ==>
      && r.value.DList?
      && |r.value.items| == |data.items|
      && forall i :: 0 <= i < |data.items| ==> r.value.items[i] == BytesToStr(decode, data.items[i]).value
    decreases data, 1
  {
    match data
    case NoneData => Success(DNone)
    case Bytes(b) =>
      (match decode(b)
       case Some(s) => Success(DStr(s))
       case None => Failure(UnicodeDecodeError))
    case Text(s) => Success(DStr(s))
    case Iterable(items) =>
      (match BytesToStrAll(decode, data, items)
       case Success(xs) => Success(DList(xs))
       case Failure(e) => Failure(e))
    case NotIterable => Failure(NotIterableError)
  }

  /** The list comprehension of `bytes_to_str` over the items of `whole`. */
  function BytesToStrAll(decode: seq<Byte> -> Option<string>, ghost whole: Data, items: seq<Data>)
    : (r: Result<seq<Decoded>, ConvertError>)
    requires forall i :: 0 <= i < |items| ==> items[i] < whole
    ensures r.Success? <==> forall i :: 0 <= i < |items| ==> BytesToStr(decode, items[i]).Success?
    ensures r.Success? ==>
      |r.value| == |items| && forall i :: 0 <= i < |items| ==> r.value[i] == BytesToStr(decode, items[i]).value
    decreases whole, 0, |items|
  {
    if items == [] then Success([])
    else
      match BytesToStr(decode, items[0])
      case Failure(e) => Failure(e)
      case Success(first) =>
        match BytesToStrAll(decode, whole, items[1..])
        case Failure(e) => Failure(e)
        case Success(rest) => Success([first] + rest)
  }

  /** A result of `bytes_to_str` seen as input again: None, strings, lists. */
  function Embed(d: Decoded): Data
  {
    match d
    case DNone => NoneData
    case DStr(s) => Text(s)
    case DList(items) => Iterable(seq(|items|, i requires 0 <= i < |items| => Embed(items[i])))
  }

  /** Data already free of bytes comes back as it was: decoding is idempotent. */
  lemma {:induction false} BytesToStrIdempotent(decode: seq<Byte> -> Option<string>, d: Decoded)
    ensures BytesToStr(decode, Embed(d)) == Success(d)
  {
    match d
    case DNone =>
    case DStr(_) =>
    case DList(items) =>
      var data := Embed(d);
      forall i | 0 <= i < |items| ensures BytesToStr(decode, data.items[i]) == Success(items[i]) {
        BytesToStrIdempotent(decode, items[i]);
      }
      assert BytesToStr(decode, data).value.items == items;
  }

  // ---- get_data ----

  /** `get_data(data, *keys, optional=optional)`, the lazy map taken as the
      list it yields. */
  function GetData(data: map<string, Value>, keys: seq<string>, optional: bool): (r: Result<seq<Value>, PyError>)
    ensures optional ==> r.Success?
    ensures !optional ==> (r.Success? <==> forall i :: 0 <= i < |keys| ==> keys[i] in data)
    ensures !optional && r.Failure? ==> r.error == KeyError
    ensures r.Success? ==> |r.value| == |keys|
    ensures r.Success? ==> forall i :: 0 <= i < |keys| ==>
      r.value[i] == if keys[i] in data then data[keys[i]] else Null
  {
    if keys == [] then Success([])
    else
      var rest := GetData(data, keys[1..], optional);
      if keys[0] in data then
        if rest.Success? then Success([data[keys[0]]] + rest.value) else rest
      else if optional then Success([Null] + rest.value)
      else Failure(KeyError)
  }

  /** Where every key is present the optional lookup yields the same values. */
  lemma GetDataOptionalAgrees(data: map<string, Value>, keys: seq<string>)
    requires forall i :: 0 <= i < |keys| ==> keys[i] in data
    ensures GetData(data, keys, false) == GetData(data, keys, true)
  {
    var a, b := GetData(data, keys, false), GetData(data, keys, true);
    assert a.value == b.value;
  }

  // ---- merge_dicts ----

  /** The mappings applied one after another, later ones taking precedence. */
  function Merged(dicts: seq<map<string, Value>>): map<string, Value>
  {
    if dicts == [] then map[] else Merged(dicts[..|dicts| - 1]) + dicts[|dicts| - 1]
  }

  /** `merge_dicts(*dicts)`: a new mapping, the inputs untouched. */
  method MergeDicts(dicts: seq<map<string, Value>>) returns (merged: map<string, Value>)
    ensures merged == Merged(dicts)
  {
    merged := map[];
    var i := 0;
    while i < |dicts|
      invariant 0 <= i <= |dicts|
      invariant merged == Merged(dicts[..i])
    {
      assert dicts[..i + 1][..i] == dicts[..i];
      merged := merged + dicts[i];
      i := i + 1;
    }
    assert dicts[..|dicts|] == dicts;
  }

  /** The merged keys are the union of the inputs' keys. */
  lemma {:induction false} MergedKeys(dicts: seq<map<string, Value>>, k: string)
    ensures k in Merged(dicts) <==> exists i :: 0 <= i < |dicts| && k in dicts[i]
  {
    if dicts != [] {
      var init := dicts[..|dicts| - 1];
      MergedKeys(init, k);
      assert forall i :: 0 <= i < |init| ==> init[i] == dicts[i];
    }
  }

  /** Each value comes from the last input holding its key. */
  lemma {:induction false} MergedLastWins(dicts: seq<map<string, Value>>, i: nat, k: string)
    requires i < |dicts| && k in dicts[i]
    requires forall j :: i < j < |dicts| ==> k !in dicts[j]
    ensures k in Merged(dicts) && Merged(dicts)[k] == dicts[i][k]
  {
    var init := dicts[..|dicts| - 1];
    if i < |dicts| - 1 {
      assert forall j :: i < j < |init| ==> init[j] == dicts[j];
      MergedLastWins(init, i, k);
    }
  }

  // ---- normalize ----

  /** `normalize(value)` on `str(value)`. */
  function Normalize(s: string): (r: string)
    ensures '.' !in s ==> r == s
    ensures Text.IsPrefix(r, s)
  {
    if '.' in s then Text.RStrip(Text.RStrip(s, {'0'}), {'.'}) else s
  }

  /** On `whole.fraction` the integer part is kept, trailing zeros of the
      fraction go, and the point goes with them when nothing of the fraction
      is left. */
  lemma NormalizeDecimal(whole: string, fraction: string)
    requires '.' !in whole && '.' !in fraction
    ensures Normalize(whole + "." + fraction) ==
      var kept := Text.RStrip(fraction, {'0'});
      if kept == "" then whole else whole + "." + kept
  {
    var point := whole + ".";
    var s := point + fraction;
    assert s[|whole|] == '.';
    var kept := Text.RStrip(fraction, {'0'});
    Text.RStripConcat(point, fraction, {'0'});
    RStripUntouched(point, {'0'});
    if kept == "" {
      RStripPoint(whole);
    } else {
      assert kept[|kept| - 1] != '.' by {
        assert kept[|kept| - 1] == fraction[|kept| - 1];
        assert fraction[|kept| - 1] in fraction;
      }
      RStripUntouched(point + kept, {'.'});
    }
  }

  /** A string whose last character is not stripped comes back whole. */
  lemma RStripUntouched(s: string, chars: set<char>)
    requires |s| > 0 && s[|s| - 1] !in chars
    ensures Text.RStrip(s, chars) == s
  {
  }

  /** Stripping the points of `whole.` leaves `whole` when it holds none. */
  lemma RStripPoint(whole: string)
    requires '.' !in whole
    ensures Text.RStrip(whole + ".", {'.'}) == whole
  {
    assert (whole + ".")[..|whole|] == whole;
    if |whole| > 0 {
      assert whole[|whole| - 1] in whole;
      RStripUntouched(whole, {'.'});
    }
  }

  /** The documented examples. */
  lemma NormalizeExamples(a: string, b: string, c: string)
    requires a == "80.00" && b == "12.30" && c == "6.66"
    ensures Normalize(a) == "80"
    ensures Normalize(b) == "12.3"
    ensures Normalize(c) == "6.66"
  {
    NormalizeEighty(a);
    NormalizeTwelve(b);
    NormalizeSix(c);
  }

  lemma NormalizeEighty(a: string)
    requires a == "80.00"
    ensures Normalize(a) == "80"
  {
    NormalizeExample(a, "80", "00", "");
  }

  lemma NormalizeTwelve(b: string)
    requires b == "12.30"
    ensures Normalize(b) == "12.3"
  {
    NormalizeExample(b, "12", "30", "3");
  }

  lemma NormalizeSix(c: string)
    requires c == "6.66"
    ensures Normalize(c) == "6.66"
  {
    NormalizeExample(c, "6", "66", "66");
  }

  /** One example `whole.fraction`, with what stripping the zeros keeps. */
  lemma NormalizeExample(s: string, whole: string, fraction: string, kept: string)
    requires s == whole + "." + fraction && '.' !in whole && '.' !in fraction
    requires Text.RStrip(fraction, {'0'}) == kept
    ensures Normalize(s) == if kept == "" then whole else whole + "." + kept
  {
    NormalizeDecimal(whole, fraction);
  }

  // ---- quantize ----

  /** A finite decimal, coefficient times ten to the exponent. */
  datatype Decimal = Decimal(coefficient: int, exponent: int)

  /** The rounding modes of the decimal module. */
  datatype Rounding =
    | RoundHalfUp | RoundHalfDown | RoundHalfEven | RoundUp | RoundDown
    | RoundCeiling | RoundFloor | Round05Up

  datatype DecimalError = InvalidOperation

  /** The default context's precision. */
  const Precision: nat := 28

  function Pow10(n: nat): (p: nat)
    ensures p >= 1
  {
    if n == 0 then 1 else 10 * Pow10(n - 1)
  }

  function Abs(x: int): nat
  {
    if x < 0 then -x else x
  }

  function DivMod(a: nat, d: nat): (qr: (nat, nat))
    requires d > 0
    ensures qr.1 < d && a == qr.0 * d + qr.1
  {
    (a / d, a % d)
  }

  /** The magnitude after rounding q + r/d (0 <= r < d) in a mode; `negative`
      is the sign of the number rounded. */
  function RoundMagnitude(mode: Rounding, negative: bool, q: nat, r: nat, d: nat): (m: nat)
    requires 0 <= r < d
    ensures m == q || m == q + 1
    ensures r == 0 ==> m == q
  {
    var away :=
      match mode
      case RoundHalfUp => 2 * r >= d
      case RoundHalfDown => 2 * r > d
      case RoundHalfEven => 2 * r > d || (2 * r == d && q % 2 == 1)
      case RoundUp => r > 0
      case RoundDown => false
      case RoundCeiling => r > 0 && !negative
      case RoundFloor => r > 0 && negative
      case Round05Up => r > 0 && (q % 10 == 0 || q % 10 == 5);
    if away then q + 1 else q
  }

  /** The coefficient of `x` at exponent -2, rounded in `mode`. */
  function Hundredths(x: Decimal, mode: Rounding): int
  {
    if x.exponent >= -2 then x.coefficient * Pow10(x.exponent + 2)
    else
      var d := Pow10(-2 - x.exponent);
      var qr := DivMod(Abs(x.coefficient), d);
      var m := RoundMagnitude(mode, x.coefficient < 0, qr.0, qr.1, d);
      if x.coefficient < 0 then -(m as int) else m
  }

  /** `x.quantize(Decimal('.01'), rounding=mode)` under the default context. */
  function Quantize(x: Decimal, mode: Rounding): (r: Result<Decimal, DecimalError>)
    ensures r.Success? ==> r.value.exponent == -2 && r.value.coefficient == Hundredths(x, mode)
    ensures r.Success? <==> Abs(Hundredths(x, mode)) < Pow10(Precision)
  {
    var c := Hundredths(x, mode);
    if Abs(c) < Pow10(Precision) then Success(Decimal(c, -2)) else Failure(InvalidOperation)
  }

  /** `quantize(value)`, rounding half up by default. */
  function QuantizeDefault(x: Decimal): Result<Decimal, DecimalError>
  {
    Quantize(x, RoundHalfUp)
  }

  /** A value with at most two decimal places keeps its value. */
  lemma QuantizeExact(x: Decimal, mode: Rounding)
    requires x.exponent >= -2 && Quantize(x, mode).Success?
    ensures Quantize(x, mode).value.coefficient == x.coefficient * Pow10(x.exponent + 2)
  {
  }

  /** A value already at two places comes back unchanged; so quantising twice
      is quantising once. */
  lemma QuantizeIdempotent(x: Decimal, mode: Rounding)
    requires Quantize(x, mode).Success?
    ensures Quantize(Quantize(x, mode).value, mode) == Quantize(x, mode)
  {
  }

  /** m units of d are a nearest multiple of d to a, the larger one on a tie. */
  predicate NearestHalfUp(a: nat, m: nat, d: nat)
  {
    2 * Abs(a - m * d) <= d && (2 * Abs(a - m * d) == d ==> m * d > a)
  }

  /** Half-up rounding from more than two places: the coefficient `Quantize`
      returns is a nearest hundredth, a tie goes away from zero, and the sign
      is kept. */
  lemma QuantizeHalfUpNearest(x: Decimal)
    requires x.exponent < -2
    ensures
      var d := Pow10(-2 - x.exponent);
      var c := Hundredths(x, RoundHalfUp);
      && NearestHalfUp(Abs(x.coefficient), Abs(c), d)
      && (x.coefficient >= 0 ==> c >= 0)
      && (x.coefficient <= 0 ==> c <= 0)
  {
    var d := Pow10(-2 - x.exponent);
    HalfUpMagnitude(Abs(x.coefficient), d, x.coefficient < 0);
  }

  /** Half-up rounding of a magnitude a/d lands within half a unit, and above
      a on a tie. */
  lemma HalfUpMagnitude(a: nat, d: nat, negative: bool)
    requires d > 0
    ensures
      var qr := DivMod(a, d);
      var m := RoundMagnitude(RoundHalfUp, negative, qr.0, qr.1, d);
      NearestHalfUp(a, m, d)
  {
    var qr := DivMod(a, d);
    var q, r := qr.0, qr.1;
    var m := RoundMagnitude(RoundHalfUp, negative, q, r, d);
    if 2 * r >= d {
      assert m * d == q * d + d;
    } else {
      assert m * d == q * d;
    }
  }

  /** Rounding down from more than two places truncates toward zero. */
  lemma QuantizeDownTruncates(x: Decimal)
    requires x.exponent < -2 && Quantize(x, RoundDown).Success?
    ensures
      var d := Pow10(-2 - x.exponent);
      var c := Quantize(x, RoundDown).value.coefficient;
      Abs(c) == Abs(x.coefficient) / d && (x.coefficient < 0 ==> c <= 0) && (x.coefficient >= 0 ==> c >= 0)
  {
  }

  /** The documented price example: 5.25 * 3.33 = 17.4825 and 6.98 * 3.14 = 21.9172
      become 17.48 and 21.92; 0.125 and -0.125 round away from zero. */
  lemma QuantizeExamples()
    ensures QuantizeDefault(Decimal(174825, -4)) == Success(Decimal(1748, -2))
    ensures QuantizeDefault(Decimal(219172, -4)) == Success(Decimal(2192, -2))
    ensures QuantizeDefault(Decimal(125, -3)) == Success(Decimal(13, -2))
    ensures QuantizeDefault(Decimal(-125, -3)) == Success(Decimal(-13, -2))
  {
    assert Pow10(2) == 100 && Pow10(1) == 10;
  }

  /** A coefficient that needs more digits than the precision is an error. */
  lemma QuantizeOverflow(x: Decimal)
    requires x.exponent == 0 && x.coefficient == Pow10(26)
    ensures Quantize(x, RoundHalfUp) == Failure(InvalidOperation)
  {
    var p := Pow10(26);
    assert Pow10(28) == 100 * p by {
      assert Pow10(28) == 10 * Pow10(27) && Pow10(27) == 10 * p;
    }
    assert Pow10(2) == 100;
    assert Hundredths(x, RoundHalfUp) == 100 * p;
  }
}
