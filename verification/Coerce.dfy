/** Field types, their SQL casts and the coercion of JSON values (search/coerce.go, search/types.go). */
module Coerce {
  import opened Options
  import opened GoStrings
  import opened Pagination

  datatype SearchError =
    | InvalidField(field: string)
    | UnsupportedOperator(field: string, operator: string)
    | FieldNotSortable(field: string)
    | InvalidValueType(field: string, expected: string)
    | BadTemplate(field: string)

  datatype Result<+T> = Ok(value: T) | Err(error: SearchError) {
    predicate IsFailure() {
      Err?
    }
    function PropagateFailure<U>(): Result<U>
      requires Err?
    {
      Err(error)
    }
    function Extract(): T
      requires Ok?
    {
      value
    }
  }

  datatype FieldType = FieldString | FieldUUID | FieldInt | FieldBool | FieldDate | FieldArray

  datatype Cast = NoCast | CastUuid | CastTimestamptz | CastBigint | CastBoolean

  function CastOf(t: FieldType): Cast {
    match t
    case FieldUUID => CastUuid
    case FieldDate => CastTimestamptz
    case FieldInt => CastBigint
    case FieldBool => CastBoolean
    case FieldString | FieldArray => NoCast
  }

  /** A float64, exactly. */
  datatype Float = NaN | PosInf | NegInf | Finite(r: real)

  /** A decoded JSON value, or a Go value a caller put in its place. */
  datatype Json =
    | JNull
    | JString(s: string)
    | JFloat(f: Float)
    | JInt(i: Int64)
    | JBool(b: bool)
    | JTime(t: int)
    | JList(items: seq<Json>)
    | JObject

  /** A value bound to a placeholder. */
  datatype Arg = Text(s: string) | Int(i: Int64) | Bool(b: bool) | Time(t: int)

  /** `time.Parse(layout, value)` */
  type DateParser = (string, string) -> Option<int>

  const RFC3339 := "2006-01-02T15:04:05Z07:00"
  const DATE_ONLY := "2006-01-02"

  // ---- strconv ----

  predicate IsDigit(c: char) {
    '0' <= c <= '9'
  }

  function DigitsValue(s: string): (n: int)
    requires forall c :: c in s ==> IsDigit(c)
    ensures n >= 0
  {
    if s == [] then 0
    else
      assert s[|s| - 1] in s && IsDigit(s[|s| - 1]);
      DigitsValue(s[..|s| - 1]) * 10 + (s[|s| - 1] as int - '0' as int)
  }

  predicate AllDigits(s: string) {
    s != [] && forall c :: c in s ==> IsDigit(c)
  }

  /** strconv.ParseInt(s, 10, 64) */
  function ParseInt(s: string): Option<Int64> {
    var neg := s != [] && s[0] == '-';
    var digits := if s != [] && (s[0] == '-' || s[0] == '+') then s[1..] else s;
    if !AllDigits(digits) then None
    else
      var n: int := if neg then -DigitsValue(digits) else DigitsValue(digits);
      if FitsInt64(n) then Some(n) else None
  }

  /** strconv.ParseBool */
  function ParseBool(s: string): Option<bool> {
    if s in {"1", "t", "T", "true", "TRUE", "True"} then Some(true)
    else if s in {"0", "f", "F", "false", "FALSE", "False"} then Some(false)
    else None
  }

  /** strconv.FormatInt for non-negative numbers. */
  function Decimal(n: nat): (s: string)
    ensures AllDigits(s)
  {
    var last := ['0' + (n % 10) as char];
    if n < 10 then last else Decimal(n / 10) + last
  }

  function FormatInt(n: int): string {
    if n < 0 then "-" + Decimal(-n) else Decimal(n)
  }

  lemma {:induction false} DecimalValue(n: nat)
    ensures DigitsValue(Decimal(n)) == n
  {
    var s := Decimal(n);
    assert s[|s| - 1] as int - '0' as int == n % 10;
    if n < 10 {
      assert s[..|s| - 1] == [];
    } else {
      assert s[..|s| - 1] == Decimal(n / 10);
      DecimalValue(n / 10);
    }
  }

  /** Every int64 written in decimal is read back exactly; numbers outside are rejected. */
  lemma ParseIntRoundTrip(n: int)
    ensures ParseInt(FormatInt(n)) == if FitsInt64(n) then Some(n) else None
  {
    var d := Decimal(if n < 0 then -n else n);
    DecimalValue(if n < 0 then -n else n);
    assert d[0] in d;
    if n < 0 {
      assert FormatInt(n)[1..] == d;
    }
  }

  // ---- coerceScalar ----

  predicate IsIntegral(r: real) {
    r == r.Floor as real
  }

  function CoerceFloat(field: string, f: Float): Result<Arg> {
    match f
    case NaN => Err(InvalidValueType(field, "integer"))
    case PosInf | NegInf => Err(InvalidValueType(field, "integer within int64 range"))
    case Finite(r) =>
      if !IsIntegral(r) then Err(InvalidValueType(field, "integer"))
      else if !FitsInt64(r.Floor) then Err(InvalidValueType(field, "integer within int64 range"))
      else Ok(Int(r.Floor))
  }

  function CoerceScalar(parse: DateParser, field: string, t: FieldType, value: Json): Result<Arg> {
    if value.JNull? then Err(InvalidValueType(field, TypeName(t)))
    else
      match t
      case FieldString | FieldUUID | FieldArray =>
        if value.JString? then Ok(Text(value.s)) else Err(InvalidValueType(field, TypeName(t)))
      case FieldInt =>
        (match value
         case JFloat(f) => CoerceFloat(field, f)
         case JInt(i) => Ok(Int(i))
         case JString(s) =>
           (match ParseInt(TrimSpace(s))
            case Some(n) => Ok(Int(n))
            case None => Err(InvalidValueType(field, "integer")))
         case _ => Err(InvalidValueType(field, "integer")))
      case FieldBool =>
        (match value
         case JBool(b) => Ok(Bool(b))
         case JString(s) =>
           (match ParseBool(TrimSpace(s))
            case Some(b) => Ok(Bool(b))
            case None => Err(InvalidValueType(field, "boolean")))
         case _ => Err(InvalidValueType(field, "boolean")))
      case FieldDate =>
        (match value
         case JTime(ts) => Ok(Time(ts))
         case JString(s) =>
           if parse(RFC3339, TrimSpace(s)).Some? then Ok(Time(parse(RFC3339, TrimSpace(s)).value))
           else if parse(DATE_ONLY, TrimSpace(s)).Some? then Ok(Time(parse(DATE_ONLY, TrimSpace(s)).value))
           else Err(InvalidValueType(field, "RFC3339 or YYYY-MM-DD date"))
         case _ => Err(InvalidValueType(field, "date")))
  }

  function TypeName(t: FieldType): string {
    match t
    case FieldString => "string"
    case FieldUUID => "uuid string"
    case FieldInt => "integer"
    case FieldBool => "boolean"
    case FieldDate => "date"
    case FieldArray => "array element"
  }

  /** The kind of value the cast expects; `::uuid` is applied to text. */
  predicate FitsCast(c: Cast, a: Arg) {
    match c
    case NoCast | CastUuid => a.Text?
    case CastTimestamptz => a.Time?
    case CastBigint => a.Int?
    case CastBoolean => a.Bool?
  }

  /** A coerced value always suits the cast its placeholder will carry. */
  lemma CoercedFitsCast(parse: DateParser, field: string, t: FieldType, value: Json)
    ensures
      var r := CoerceScalar(parse, field, t, value);
      r.Ok? ==> FitsCast(CastOf(t), r.value)
  {
  }

  /** A JSON number is bound for an integer field iff it is an integer within int64, and then unchanged. */
  lemma FloatCoercionIsExact(parse: DateParser, field: string, f: Float, n: Int64)
    ensures CoerceScalar(parse, field, FieldInt, JFloat(f)) == Ok(Int(n)) <==> f == Finite(n as real)
  {
    assert (n as real).Floor == n;
  }

  // ---- What a JSON value stands for ----

  /** An optional sign and decimal digits. */
  ghost predicate WritesInt(s: string, n: int) {
    exists digits :: AllDigits(digits) && HasSign(s, digits, DigitsValue(digits), n)
  }

  predicate HasSign(s: string, digits: string, size: int, n: int) {
    if n < 0 then n == -size && s == "-" + digits
    else n == size && (s in {digits, "+" + digits} || (n == 0 && s == "-" + digits))
  }

  predicate WritesBool(s: string, b: bool) {
    s in if b then {"true", "True", "TRUE", "t", "T", "1"} else {"false", "False", "FALSE", "f", "F", "0"}
  }

  /** A full timestamp if it is one, otherwise a plain day. */
  predicate WritesTime(parse: DateParser, s: string, ts: int) {
    || parse("2006-01-02T15:04:05Z07:00", s) == Some(ts)
    || (parse("2006-01-02T15:04:05Z07:00", s) == None && parse("2006-01-02", s) == Some(ts))
  }

  /** Filter value `value` of a field of type `t` stands for `a`. */
  ghost predicate Denotes(parse: DateParser, t: FieldType, value: Json, a: Arg) {
    match a
    case Text(s) => t in {FieldString, FieldUUID, FieldArray} && value == JString(s)
    case Int(n) =>
      && t == FieldInt
      && (value in {JInt(n), JFloat(Finite(n as real))} || (value.JString? && WritesInt(TrimSpace(value.s), n)))
    case Bool(b) =>
      t == FieldBool && (value == JBool(b) || (value.JString? && WritesBool(TrimSpace(value.s), b)))
    case Time(ts) =>
      t == FieldDate && (value == JTime(ts) || (value.JString? && WritesTime(parse, TrimSpace(value.s), ts)))
  }

  lemma ParseIntReads(s: string, n: Int64)
    ensures ParseInt(s) == Some(n) <==> WritesInt(s, n)
  {
    var digits := if s != [] && s[0] in {'-', '+'} then s[1..] else s;
    if ParseInt(s) == Some(n) {
      assert AllDigits(digits);
      assert s == [s[0]] + s[1..];
    }
    if WritesInt(s, n) {
      var d :| AllDigits(d) && HasSign(s, d, DigitsValue(d), n);
      assert d[0] in d;
      assert ("+" + d)[1..] == d && ("-" + d)[1..] == d;
      assert digits == d;
    }
  }

  /** A value is bound iff the filter's value stands for it; everything else is refused. */
  lemma CoercionIsExact(parse: DateParser, field: string, t: FieldType, value: Json, a: Arg)
    ensures CoerceScalar(parse, field, t, value) == Ok(a) <==> Denotes(parse, t, value, a)
  {
    hide ParseInt, WritesInt, TrimSpace;
    if a.Int? && value.JString? {
      ParseIntReads(TrimSpace(value.s), a.i);
    }
    if a.Int? && value.JFloat? {
      assert (a.i as real).Floor == a.i;
    }
  }

  /** A value of the field's own kind is bound as it is. */
  lemma NativeValuesAreKept(parse: DateParser, field: string, s: string, n: Int64, b: bool, ts: int)
    ensures forall t :: t in {FieldString, FieldUUID, FieldArray} ==>
      CoerceScalar(parse, field, t, JString(s)) == Ok(Text(s))
    ensures CoerceScalar(parse, field, FieldInt, JInt(n)) == Ok(Int(n))
    ensures CoerceScalar(parse, field, FieldBool, JBool(b)) == Ok(Bool(b))
    ensures CoerceScalar(parse, field, FieldDate, JTime(ts)) == Ok(Time(ts))
  {
  }

  /** White space around a number, a boolean or a date does not matter. */
  lemma PaddingIsTrimmed(parse: DateParser, field: string, t: FieldType, pre: string, s: string, post: string)
    requires AllSpace(pre) && AllSpace(post) && IsTrimmed(s) && t in {FieldInt, FieldBool, FieldDate}
    ensures CoerceScalar(parse, field, t, JString(pre + s + post)) == CoerceScalar(parse, field, t, JString(s))
  {
    hide ParseInt, TrimSpace;
    TrimSpacePadded(pre, s, post);
    TrimSpaceTrims(s);
  }

  /** An integer written out in decimal is bound iff it fits 64 bits. */
  lemma IntegerTextIsBound(parse: DateParser, field: string, pre: string, n: int, post: string)
    requires AllSpace(pre) && AllSpace(post)
    ensures CoerceScalar(parse, field, FieldInt, JString(pre + FormatInt(n) + post)) ==
      if FitsInt64(n) then Ok(Int(n)) else Err(InvalidValueType(field, "integer"))
  {
    var d := Decimal(if n < 0 then -n else n);
    assert d[0] in d && d[|d| - 1] in d;
    TrimSpacePadded(pre, FormatInt(n), post);
    ParseIntRoundTrip(n);
  }

  /** What a refusal names: the field and what was expected of its value. */
  lemma RefusalNamesExpectation(parse: DateParser, field: string, t: FieldType, value: Json)
    requires forall a :: !Denotes(parse, t, value, a)
    ensures CoerceScalar(parse, field, t, value) == Err(InvalidValueType(field,
      match t
      case FieldString => "string"
      case FieldUUID => "uuid string"
      case FieldArray => "array element"
      case FieldBool => "boolean"
      case FieldDate => if value.JString? then "RFC3339 or YYYY-MM-DD date" else "date"
      case FieldInt =>
        if value.JFloat? && (value.f in {PosInf, NegInf} || (value.f.Finite? && IsIntegral(value.f.r)))
        then "integer within int64 range" else "integer"))
  {
    hide ParseInt, TrimSpace, Denotes;
    var r := CoerceScalar(parse, field, t, value);
    if r.Ok? {
      CoercionIsExact(parse, field, t, value, r.value);
    }
  }

  // ---- coerceList ----

  /** Coerces in order, stopping at the first failure. */
  function CoerceAll(parse: DateParser, field: string, t: FieldType, values: seq<Json>): Result<seq<Arg>> {
    if values == [] then Ok([])
    else
      var init :- CoerceAll(parse, field, t, values[..|values| - 1]);
      var last :- CoerceScalar(parse, field, t, values[|values| - 1]);
      Ok(init + [last])
  }

  function Texts(words: seq<string>): seq<Json> {
    seq(|words|, i requires 0 <= i < |words| => JString(words[i]))
  }

  /** The trimmed parts of a comma-separated string, blanks dropped. */
  function CommaParts(parts: seq<string>): seq<Json> {
    Texts(Words(parts))
  }

  function ListItems(field: string, value: Json): Result<seq<Json>> {
    match value
    case JList(items) => Ok(items)
    case JString(s) => Ok(CommaParts(Split(s, ',')))
    case JNull => Err(InvalidValueType(field, "array"))
    case _ => Ok([value])
  }

  function CoerceListSpec(parse: DateParser, field: string, t: FieldType, value: Json): Result<seq<Arg>> {
    var items :- ListItems(field, value);
    CoerceAll(parse, field, t, items)
  }

  lemma {:induction false} FirstFailureDecides(
    parse: DateParser, field: string, t: FieldType, values: seq<Json>, n: nat)
    requires n <= |values| && CoerceAll(parse, field, t, values[..n]).Err?
    ensures CoerceAll(parse, field, t, values) == CoerceAll(parse, field, t, values[..n])
  {
    if n == |values| {
      assert values[..n] == values;
    } else {
      assert values[..|values| - 1][..n] == values[..n];
      FirstFailureDecides(parse, field, t, values[..|values| - 1], n);
    }
  }

  lemma CoerceAllStep(parse: DateParser, field: string, t: FieldType, values: seq<Json>, i: nat)
    requires i < |values| && CoerceAll(parse, field, t, values[..i]).Ok?
    ensures
      CoerceAll(parse, field, t, values[..i + 1]) ==
      match CoerceScalar(parse, field, t, values[i])
      case Err(e) => Err(e)
      case Ok(v) => Ok(CoerceAll(parse, field, t, values[..i]).value + [v])
  {
    assert values[..i + 1][..i] == values[..i];
  }

  /** The element loop; on failure it returns the first element's error. */
  method CoerceEach(parse: DateParser, field: string, t: FieldType, values: seq<Json>) returns (r: Result<seq<Arg>>)
    ensures r == CoerceAll(parse, field, t, values)
  {
    var out: seq<Arg> := [];
    for i := 0 to |values|
      invariant CoerceAll(parse, field, t, values[..i]) == Ok(out)
    {
      CoerceAllStep(parse, field, t, values, i);
      var cv := CoerceScalar(parse, field, t, values[i]);
      if cv.Err? {
        FirstFailureDecides(parse, field, t, values, i + 1);
        return Err(cv.error);
      }
      out := out + [cv.value];
    }
    assert values[..|values|] == values;
    return Ok(out);
  }

  lemma CommaPartsStep(parts: seq<string>, i: nat)
    requires i < |parts|
    ensures
      var p := TrimSpace(parts[i]);
      CommaParts(parts[..i + 1]) == if p == "" then CommaParts(parts[..i]) else CommaParts(parts[..i]) + [JString(p)]
  {
    hide TrimSpace;
    assert parts[..i + 1][..i] == parts[..i];
  }

  lemma CommaCoerceStep(parse: DateParser, field: string, t: FieldType, parts: seq<string>, i: nat)
    requires i < |parts| && CoerceAll(parse, field, t, CommaParts(parts[..i])).Ok? && TrimSpace(parts[i]) != ""
    ensures
      CoerceAll(parse, field, t, CommaParts(parts[..i + 1])) ==
      match CoerceScalar(parse, field, t, JString(TrimSpace(parts[i])))
      case Err(e) => Err(e)
      case Ok(v) => Ok(CoerceAll(parse, field, t, CommaParts(parts[..i])).value + [v])
  {
    hide CoerceScalar;
    CommaPartsStep(parts, i);
    var upTo := CommaParts(parts[..i + 1]);
    assert upTo[..|upTo| - 1] == CommaParts(parts[..i]);
  }

  lemma CommaFailureDecides(parse: DateParser, field: string, t: FieldType, parts: seq<string>, n: nat)
    requires n <= |parts| && CoerceAll(parse, field, t, CommaParts(parts[..n])).Err?
    ensures CoerceAll(parse, field, t, CommaParts(parts)) == CoerceAll(parse, field, t, CommaParts(parts[..n]))
  {
    hide CoerceScalar;
    var upTo := CommaParts(parts[..n]);
    CommaPartsGrow(parts, n);
    assert CommaParts(parts)[..|upTo|] == upTo;
    FirstFailureDecides(parse, field, t, CommaParts(parts), |upTo|);
  }

  /** The comma-separated loop: blank parts are skipped. */
  method CoerceCommaParts(
    parse: DateParser, field: string, t: FieldType, parts: seq<string>)
    returns (r: Result<seq<Arg>>)
    ensures r == CoerceAll(parse, field, t, CommaParts(parts))
  {
    hide CoerceScalar;
    var out: seq<Arg> := [];
    for i := 0 to |parts|
      invariant CoerceAll(parse, field, t, CommaParts(parts[..i])) == Ok(out)
    {
      CommaPartsStep(parts, i);
      var p := TrimSpace(parts[i]);
      if p == "" {
        continue;
      }
      CommaCoerceStep(parse, field, t, parts, i);
      var cv := CoerceScalar(parse, field, t, JString(p));
      if cv.Err? {
        CommaFailureDecides(parse, field, t, parts, i + 1);
        return Err(cv.error);
      }
      out := out + [cv.value];
    }
    assert parts[..|parts|] == parts;
    return Ok(out);
  }

  method CoerceList(parse: DateParser, field: string, t: FieldType, value: Json) returns (r: Result<seq<Arg>>)
    ensures r == CoerceListSpec(parse, field, t, value)
  {
    match value {
      case JList(items) =>
        r := CoerceEach(parse, field, t, items);
      case JString(s) =>
        r := CoerceCommaParts(parse, field, t, Split(s, ','));
      case JNull =>
        return Err(InvalidValueType(field, "array"));
      case _ =>
        r := CoerceEach(parse, field, t, [value]);
    }
  }

  lemma CommaPartsGrow(parts: seq<string>, n: nat)
    requires n <= |parts|
    ensures CommaParts(parts[..n]) <= CommaParts(parts)
  {
    assert parts == parts[..n] + parts[n..];
    WordsConcat(parts[..n], parts[n..]);
  }

  lemma {:induction false} ListErrorNamesField(parse: DateParser, field: string, t: FieldType, values: seq<Json>)
    ensures
      var r := CoerceAll(parse, field, t, values);
      r.Err? ==> r.error.InvalidValueType? && r.error.field == field
  {
    if values == [] {
    } else {
      ListErrorNamesField(parse, field, t, values[..|values| - 1]);
      ScalarErrorNamesField(parse, field, t, values[|values| - 1]);
    }
  }

  lemma ScalarErrorNamesField(parse: DateParser, field: string, t: FieldType, value: Json)
    ensures
      var r := CoerceScalar(parse, field, t, value);
      r.Err? ==> r.error.InvalidValueType? && r.error.field == field
  {
  }

  // ---- What a list stands for ----

  ghost predicate DenotesEach(parse: DateParser, t: FieldType, values: seq<Json>, args: seq<Arg>) {
    |args| == |values| && forall i :: 0 <= i < |values| ==> Denotes(parse, t, values[i], args[i])
  }

  /** A list stands for its items, a text for its comma-separated words, anything else but null for itself. */
  ghost predicate DenotesList(parse: DateParser, t: FieldType, value: Json, args: seq<Arg>) {
    match value
    case JList(items) => DenotesEach(parse, t, items, args)
    case JString(s) => DenotesEach(parse, t, Texts(Words(Split(s, ','))), args)
    case JNull => false
    case _ => |args| == 1 && Denotes(parse, t, value, args[0])
  }

  lemma {:induction false} EachCoercionIsExact(
    parse: DateParser, field: string, t: FieldType, values: seq<Json>, args: seq<Arg>)
    ensures CoerceAll(parse, field, t, values) == Ok(args) <==> DenotesEach(parse, t, values, args)
  {
    hide CoerceScalar, Denotes;
    if values == [] {
    } else if args == [] {
    } else {
      var init, last := values[..|values| - 1], values[|values| - 1];
      var initArgs, lastArg := args[..|args| - 1], args[|args| - 1];
      EachCoercionIsExact(parse, field, t, init, initArgs);
      CoercionIsExact(parse, field, t, last, lastArg);
      assert args == initArgs + [lastArg] && values == init + [last];
    }
  }

  /** A list of values is bound iff the filter's value stands for it. */
  lemma ListCoercionIsExact(parse: DateParser, field: string, t: FieldType, value: Json, args: seq<Arg>)
    ensures CoerceListSpec(parse, field, t, value) == Ok(args) <==> DenotesList(parse, t, value, args)
  {
    hide CoerceAll, Denotes;
    var items := ListItems(field, value);
    if items.Ok? {
      EachCoercionIsExact(parse, field, t, items.value, args);
    }
  }

  /** Words without a comma, joined by commas, are listed one by one. */
  lemma CommaTextListsWords(field: string, words: seq<string>)
    requires forall i :: 0 <= i < |words| ==> IsWord(words[i]) && ',' !in words[i]
    ensures ListItems(field, JString(Join(words, ","))) == Ok(Texts(words))
  {
    hide IsWord;
    if words == [] {
      WordsOne("", "", "");
      assert Split("", ',') == [""] && "" + "" + "" == "";
    } else {
      forall w | w in words
        ensures ',' !in w
      {
        var i :| 0 <= i < |words| && words[i] == w;
        assert IsWord(words[i]) && ',' !in words[i];
      }
      SplitJoin(words, ',');
      WordsOfWords(words);
    }
  }

  lemma {:induction false} CoercedListFits(parse: DateParser, field: string, t: FieldType, values: seq<Json>)
    requires CoerceAll(parse, field, t, values).Ok?
    ensures
      var args := CoerceAll(parse, field, t, values).value;
      |args| == |values| && forall i :: 0 <= i < |args| ==> FitsCast(CastOf(t), args[i])
  {
    if values == [] {
    } else {
      CoercedListFits(parse, field, t, values[..|values| - 1]);
      CoercedFitsCast(parse, field, t, values[|values| - 1]);
    }
  }
}
