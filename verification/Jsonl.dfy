/** The measurement lines of the JSONL log and the loader that reads them back
    (src/observability/jsonl_logger.cpp). Lines are character sequences; how the library prints and parses a
    number is a parameter. */
module Jsonl {
  import opened Basics

  datatype Error =
    | MissingKey(key: string)
    | MalformedKey(key: string)
    | ExpectedString(key: string)
    | UnterminatedString(key: string)
    | ExpectedArray(key: string)
    | UnterminatedArray(key: string)
    | NotANumber(text: string)
    | UnknownSensorType(name: string)
    | UnknownMeasurementType(name: string)

  datatype Result<+T> = Ok(value: T) | Err(error: Error)

  /** The library's numbers: the reals a double holds exactly, their 17-digit text, the decimal text of an id,
      and what stod makes of a text. */
  datatype Codec = Codec(exact: real -> bool, printNumber: real -> string, printId: nat -> string,
                         parse: string -> Option<real>)

  // ---------------------------------------------------------------- names

  function SensorTypeName(t: SensorType): string {
    match t
    case Radar => "Radar"
    case EOIR => "EOIR"
    case ADSB => "ADSB"
  }

  function MeasurementTypeName(t: MeasurementType): string {
    match t
    case RangeBearing2D => "RangeBearing2D"
    case BearingElevation => "BearingElevation"
    case Position3D => "Position3D"
  }

  function SensorTypeOf(name: string): Result<SensorType> {
    if name == "Radar" then Ok(Radar)
    else if name == "EOIR" then Ok(EOIR)
    else if name == "ADSB" then Ok(ADSB)
    else Err(UnknownSensorType(name))
  }

  function MeasurementTypeOf(name: string): Result<MeasurementType> {
    if name == "RangeBearing2D" then Ok(RangeBearing2D)
    else if name == "BearingElevation" then Ok(BearingElevation)
    else if name == "Position3D" then Ok(Position3D)
    else Err(UnknownMeasurementType(name))
  }

  // ---------------------------------------------------------------- scanning

  /** std::string::find: where t first occurs in s. */
  function Find(s: string, t: string): (r: Option<nat>)
    ensures r.Some? ==> r.value + |t| <= |s|
    decreases |s|
  {
    if |s| < |t| then None
    else if t <= s then Some(0)
    else if s == [] then None
    else
      var rest := Find(s[1..], t);
      if rest.None? then None else Some(rest.value + 1)
  }

  predicate IsSpace(c: char) {
    c == ' ' || ('\t' <= c && c <= '\r')
  }

  /** s without its leading white space. */
  function Trimmed(s: string): (r: string)
    ensures |r| <= |s|
  {
    if s != [] && IsSpace(s[0]) then Trimmed(s[1..]) else s
  }

  /** The part of s before the first character among the stops. */
  function UpTo(s: string, stops: set<char>): (r: string)
    ensures |r| <= |s| && r == s[..|r|]
    ensures |r| < |s| ==> s[|r|] in stops
    ensures forall k | 0 <= k < |r| :: r[k] !in stops
  {
    if s == [] || s[0] in stops then [] else [s[0]] + UpTo(s[1..], stops)
  }

  function KeyToken(key: string): (r: string)
    ensures |r| == |key| + 3
  {
    "\"" + key + "\":"
  }

  /** The line from the value of `key` on. */
  function ValueOf(line: string, key: string): (r: Result<string>)
    ensures r.Ok? ==> r.value != []
  {
    var at := Find(line, KeyToken(key));
    if at.None? then Err(MissingKey(key))
    else
      var rest := Trimmed(line[at.value+|key|+3..]);
      if rest == [] then Err(MalformedKey(key)) else Ok(rest)
  }

  function ParseString(line: string, key: string): Result<string> {
    var rest := ValueOf(line, key);
    if rest.Err? then Err(rest.error)
    else if rest.value[0] != '"' then Err(ExpectedString(key))
    else
      var text := UpTo(rest.value[1..], {'"'});
      if |text| == |rest.value| - 1 then Err(UnterminatedString(key)) else Ok(text)
  }

  function Number(codec: Codec, text: string): Result<real> {
    var x := codec.parse(text);
    if x.Some? then Ok(x.value) else Err(NotANumber(text))
  }

  function ParseNumber(codec: Codec, line: string, key: string): Result<real> {
    var rest := ValueOf(line, key);
    if rest.Err? then Err(rest.error) else Number(codec, UpTo(rest.value, {',', '}'}))
  }

  function ParseNumberOptional(codec: Codec, line: string, key: string, default: real): Result<real> {
    if Find(line, KeyToken(key)).None? then Ok(default) else ParseNumber(codec, line, key)
  }

  /** The tokens std::getline takes from s with ',' as delimiter. */
  function Items(s: string): seq<string>
    decreases |s|
  {
    if s == [] then []
    else
      var item := UpTo(s, {','});
      [item] + (if |item| == |s| then [] else Items(s[|item|+1..]))
  }

  /** Parses the non-empty items, first error first. */
  function Numbers(codec: Codec, items: seq<string>): Result<seq<real>> {
    if items == [] then Ok([])
    else
      var n := |items| - 1;
      var before := Numbers(codec, items[..n]);
      if before.Err? || items[n] == [] then before
      else
        var x := Number(codec, items[n]);
        if x.Err? then Err(x.error) else Ok(before.value + [x.value])
  }

  function ParseNumberArray(codec: Codec, line: string, key: string): Result<seq<real>> {
    var rest := ValueOf(line, key);
    if rest.Err? then Err(rest.error)
    else if rest.value[0] != '[' then Err(ExpectedArray(key))
    else
      var inner := UpTo(rest.value[1..], {']'});
      if |inner| == |rest.value| - 1 then Err(UnterminatedArray(key)) else Numbers(codec, Items(inner))
  }

  // ---------------------------------------------------------------- printing

  function Joined(texts: seq<string>): string {
    if texts == [] then ""
    else if |texts| == 1 then texts[0]
    else Joined(texts[..|texts|-1]) + "," + texts[|texts|-1]
  }

  function Printed(codec: Codec, xs: seq<real>): (r: seq<string>)
    ensures |r| == |xs|
  {
    seq(|xs|, i requires 0 <= i < |xs| => codec.printNumber(xs[i]))
  }

  function VectorText(codec: Codec, xs: seq<real>): string {
    "[" + Joined(Printed(codec, xs)) + "]"
  }

  /** A key with a quoted text or with a text of its own. */
  datatype Field = TextField(key: string, text: string) | PlainField(key: string, text: string)

  function FieldValue(f: Field): string {
    if f.TextField? then "\"" + f.text + "\"" else f.text
  }

  function FieldText(f: Field): string {
    KeyToken(f.key) + FieldValue(f)
  }

  /** The fields separated by commas, up to the closing brace. */
  function Body(fs: seq<Field>): string
    decreases |fs|
  {
    if fs == [] then "}"
    else if |fs| == 1 then FieldText(fs[0]) + "}"
    else FieldText(fs[0]) + "," + Body(fs[1..])
  }

  function Effective(id: nat, fallback: nat): nat {
    if id == 0 then fallback else id
  }

  function MeasurementFields(codec: Codec, m: Measurement, traceId: nat, causalParentId: nat): seq<Field> {
    [TextField("type", "measurement"),
     PlainField("t_meas_s", codec.printNumber(m.tMeas)),
     PlainField("t_sent_s", codec.printNumber(m.tSent)),
     PlainField("sensor_id", codec.printId(m.sensorId)),
     TextField("sensor_type", SensorTypeName(m.sensorType)),
     TextField("measurement_type", MeasurementTypeName(m.measurementType)),
     PlainField("z_dim", codec.printId(m.zDim)),
     PlainField("z", VectorText(codec, m.z)),
     PlainField("R", VectorText(codec, m.rRowMajor)),
     PlainField("confidence", codec.printNumber(m.confidence)),
     PlainField("trace_id", codec.printId(Effective(traceId, m.traceId))),
     PlainField("causal_parent_id", codec.printId(Effective(causalParentId, m.causalParentId)))]
  }

  function MeasurementLine(codec: Codec, m: Measurement, traceId: nat, causalParentId: nat): string {
    "{" + Body(MeasurementFields(codec, m, traceId, causalParentId))
  }

  method WriteNumberVector(codec: Codec, values: seq<real>) returns (os: string)
    ensures os == VectorText(codec, values)
  {
    os := "[";
    for i := 0 to |values|
      invariant os == "[" + Joined(Printed(codec, values)[..i])
    {
      if i > 0 {
        os := os + ",";
      }
      os := os + codec.printNumber(values[i]);
      JoinedStep(Printed(codec, values), i);
    }
    assert Printed(codec, values)[..|values|] == Printed(codec, values);
    os := os + "]";
  }

  /** The text of the first i fields, each with its comma. */
  function Front(fs: seq<Field>, i: nat): string
    requires i <= |fs|
  {
    if i == 0 then "" else Front(fs, i - 1) + FieldText(fs[i-1]) + ","
  }

  lemma {:induction false} FrontThenBody(fs: seq<Field>, i: nat)
    requires i < |fs|
    ensures Front(fs, i) + Body(fs[i..]) == Body(fs)
  {
    if i == 0 {
      assert fs[0..] == fs;
    } else {
      FrontThenBody(fs, i - 1);
      assert fs[i-1..][1..] == fs[i..];
      var a, b, c := Front(fs, i - 1), FieldText(fs[i-1]), Body(fs[i..]);
      assert a + (b + "," + c) == (a + b + ",") + c;
    }
  }

  /** Type, times and sensor. */
  method SerializeHeader(codec: Codec, m: Measurement, traceId: nat, causalParentId: nat) returns (out: string)
    ensures out == "{" + Front(MeasurementFields(codec, m, traceId, causalParentId), 4)
  {
    hide Body, FieldText, VectorText, SensorTypeName, MeasurementTypeName, Front, KeyToken;
    ghost var fs := MeasurementFields(codec, m, traceId, causalParentId);
    Tokens();
    NoFront(fs);
    out := "{";
    TextStep(fs, 0, out, "\"type\":\"");
    out := out + "\"type\":\"" + "measurement" + "\",";
    PlainStep(fs, 1, out, "\"t_meas_s\":");
    out := out + "\"t_meas_s\":" + codec.printNumber(m.tMeas) + ",";
    PlainStep(fs, 2, out, "\"t_sent_s\":");
    out := out + "\"t_sent_s\":" + codec.printNumber(m.tSent) + ",";
    PlainStep(fs, 3, out, "\"sensor_id\":");
    out := out + "\"sensor_id\":" + codec.printId(m.sensorId) + ",";
  }

  /** The two names and the dimension. */
  method SerializeKind(before: string, codec: Codec, m: Measurement, traceId: nat, causalParentId: nat)
    returns (out: string)
    requires before == "{" + Front(MeasurementFields(codec, m, traceId, causalParentId), 4)
    ensures out == "{" + Front(MeasurementFields(codec, m, traceId, causalParentId), 7)
  {
    hide Body, FieldText, VectorText, SensorTypeName, MeasurementTypeName, Front, KeyToken;
    ghost var fs := MeasurementFields(codec, m, traceId, causalParentId);
    KindTokens();
    out := before;
    TextStep(fs, 4, out, "\"sensor_type\":\"");
    out := out + "\"sensor_type\":\"" + SensorTypeName(m.sensorType) + "\",";
    TextStep(fs, 5, out, "\"measurement_type\":\"");
    out := out + "\"measurement_type\":\"" + MeasurementTypeName(m.measurementType) + "\",";
    PlainStep(fs, 6, out, "\"z_dim\":");
    out := out + "\"z_dim\":" + codec.printId(m.zDim) + ",";
  }

  /** The vectors and the confidence. */
  method SerializeNumbers(before: string, codec: Codec, m: Measurement, traceId: nat, causalParentId: nat)
    returns (out: string)
    requires before == "{" + Front(MeasurementFields(codec, m, traceId, causalParentId), 7)
    ensures out == "{" + Front(MeasurementFields(codec, m, traceId, causalParentId), 10)
  {
    hide Body, FieldText, VectorText, SensorTypeName, MeasurementTypeName, Front, KeyToken;
    ghost var fs := MeasurementFields(codec, m, traceId, causalParentId);
    NumberTokens();
    out := before;
    var z := WriteNumberVector(codec, m.z);
    PlainStep(fs, 7, out, "\"z\":");
    out := out + "\"z\":" + z + ",";
    var r := WriteNumberVector(codec, m.rRowMajor);
    PlainStep(fs, 8, out, "\"R\":");
    out := out + "\"R\":" + r + ",";
    PlainStep(fs, 9, out, "\"confidence\":");
    out := out + "\"confidence\":" + codec.printNumber(m.confidence) + ",";
  }

  /** The trace fields, under the caller's ids or else the measurement's own. */
  method SerializeCommonTraceFields(before: string, codec: Codec, m: Measurement, traceId: nat, causalParentId: nat)
    returns (out: string)
    requires before == "{" + Front(MeasurementFields(codec, m, traceId, causalParentId), 10)
    ensures out == MeasurementLine(codec, m, traceId, causalParentId)
  {
    hide Body, FieldText, VectorText, SensorTypeName, MeasurementTypeName, Front, KeyToken;
    ghost var fs := MeasurementFields(codec, m, traceId, causalParentId);
    var effectiveTraceId := if traceId == 0 then m.traceId else traceId;
    var effectiveParentId := if causalParentId == 0 then m.causalParentId else causalParentId;
    TraceTokens();
    out := before;
    PlainStep(fs, 10, out, "\"trace_id\":");
    out := out + "\"trace_id\":" + codec.printId(effectiveTraceId) + ",";
    LastStep(fs, 11, out, "\"causal_parent_id\":");
    out := out + "\"causal_parent_id\":" + codec.printId(effectiveParentId) + "}";
  }

  method SerializeMeasurement(codec: Codec, m: Measurement, traceId: nat, causalParentId: nat) returns (out: string)
    ensures out == MeasurementLine(codec, m, traceId, causalParentId)
  {
    hide Front, MeasurementFields, MeasurementLine;
    out := SerializeHeader(codec, m, traceId, causalParentId);
    out := SerializeKind(out, codec, m, traceId, causalParentId);
    out := SerializeNumbers(out, codec, m, traceId, causalParentId);
    out := SerializeCommonTraceFields(out, codec, m, traceId, causalParentId);
  }

  lemma {:induction false} NoFront(fs: seq<Field>)
    ensures "{" == "{" + Front(fs, 0)
  {
  }

  lemma {:induction false} PlainStep(fs: seq<Field>, i: nat, out: string, token: string)
    requires i < |fs| && fs[i].PlainField? && out == "{" + Front(fs, i) && token == KeyToken(fs[i].key)
    ensures out + token + fs[i].text + "," == "{" + Front(fs, i + 1)
  {
  }

  lemma {:induction false} TextStep(fs: seq<Field>, i: nat, out: string, opening: string)
    requires i < |fs| && fs[i].TextField? && out == "{" + Front(fs, i) && opening == KeyToken(fs[i].key) + "\""
    ensures out + opening + fs[i].text + "\"," == "{" + Front(fs, i + 1)
  {
    hide KeyToken;
    var a, k, t := Front(fs, i), KeyToken(fs[i].key), fs[i].text;
    assert ("{" + a) + (k + "\"") + t + "\"," == "{" + (a + (k + ("\"" + t + "\"")) + ",");
  }

  lemma {:induction false} LastStep(fs: seq<Field>, i: nat, out: string, token: string)
    requires i + 1 == |fs| && fs[i].PlainField? && out == "{" + Front(fs, i) && token == KeyToken(fs[i].key)
    ensures out + token + fs[i].text + "}" == "{" + Body(fs)
  {
    hide KeyToken;
    FrontThenBody(fs, i);
    var a, t := Front(fs, i), fs[i].text;
    assert Body(fs[i..]) == (token + t) + "}";
    assert ("{" + a) + token + t + "}" == "{" + (a + ((token + t) + "}"));
  }

  lemma {:induction false} Tokens()
    ensures "\"type\":\"" == KeyToken("type") + "\""
    ensures "\"t_meas_s\":" == KeyToken("t_meas_s")
    ensures "\"t_sent_s\":" == KeyToken("t_sent_s")
    ensures "\"sensor_id\":" == KeyToken("sensor_id")
  {
  }

  lemma {:induction false} KindTokens()
    ensures "\"sensor_type\":\"" == KeyToken("sensor_type") + "\""
    ensures "\"measurement_type\":\"" == KeyToken("measurement_type") + "\""
    ensures "\"z_dim\":" == KeyToken("z_dim")
  {
  }

  lemma {:induction false} NumberTokens()
    ensures "\"z\":" == KeyToken("z")
    ensures "\"R\":" == KeyToken("R")
    ensures "\"confidence\":" == KeyToken("confidence")
  {
  }

  lemma {:induction false} TraceTokens()
    ensures "\"trace_id\":" == KeyToken("trace_id")
    ensures "\"causal_parent_id\":" == KeyToken("causal_parent_id")
  {
  }

  lemma {:induction false} JoinedStep(texts: seq<string>, i: nat)
    requires i < |texts|
    ensures Joined(texts[..i+1]) == (if i == 0 then "" else Joined(texts[..i]) + ",") + texts[i]
  {
    assert texts[..i+1][..i] == texts[..i];
    if i == 0 {
      assert texts[..1] == [texts[0]];
      assert "" + texts[0] == texts[0];
    }
  }

  // ---------------------------------------------------------------- loading

  /** static_cast from a parsed number; a negative one is undefined there and 0 here. */
  function ToId(x: real): nat {
    if x < 0.0 then 0 else x.Floor
  }

  /** One line: nothing, a measurement, or an error, in the order the loader finds them. */
  function ParseLine(codec: Codec, line: string): Result<Option<Measurement>> {
    if line == [] then Ok(None)
    else
      var lineType := ParseString(line, "type");
      if lineType.Err? then Err(lineType.error)
      else if lineType.value != "measurement" then Ok(None)
      else
        var name := ParseString(line, "measurement_type");
        if name.Err? then Err(name.error)
        else
          var kind := MeasurementTypeOf(name.value);
          if kind.Err? then Err(kind.error)
          else if kind.value == Position3D then Ok(None)
          else
            var m := ParseMeasurement(codec, line, kind.value);
            if m.Err? then Err(m.error) else Ok(Some(m.value))
  }

  function ParseMeasurement(codec: Codec, line: string, kind: MeasurementType): Result<Measurement> {
    var tMeas := ParseNumber(codec, line, "t_meas_s");
    if tMeas.Err? then Err(tMeas.error) else
    var tSent := ParseNumber(codec, line, "t_sent_s");
    if tSent.Err? then Err(tSent.error) else
    var sensorId := ParseNumber(codec, line, "sensor_id");
    if sensorId.Err? then Err(sensorId.error) else
    var sensorName := ParseString(line, "sensor_type");
    if sensorName.Err? then Err(sensorName.error) else
    var sensorType := SensorTypeOf(sensorName.value);
    if sensorType.Err? then Err(sensorType.error) else
    var z := ParseNumberArray(codec, line, "z");
    if z.Err? then Err(z.error) else
    var r := ParseNumberArray(codec, line, "R");
    if r.Err? then Err(r.error) else
    var zDim := ParseNumber(codec, line, "z_dim");
    if zDim.Err? then Err(zDim.error) else
    var confidence := ParseNumber(codec, line, "confidence");
    if confidence.Err? then Err(confidence.error) else
    var traceId := ParseNumberOptional(codec, line, "trace_id", 0.0);
    if traceId.Err? then Err(traceId.error) else
    var parentId := ParseNumberOptional(codec, line, "causal_parent_id", 0.0);
    if parentId.Err? then Err(parentId.error) else
    Ok(Measurement(tMeas.value, tSent.value, ToId(sensorId.value), sensorType.value, kind, z.value, r.value,
                   ToId(zDim.value), confidence.value, 0.0, ToId(traceId.value), ToId(parentId.value)))
  }

  function LoadAll(codec: Codec, lines: seq<string>): Result<seq<Measurement>> {
    if lines == [] then Ok([])
    else
      var n := |lines| - 1;
      var before := LoadAll(codec, lines[..n]);
      if before.Err? then before
      else
        var m := ParseLine(codec, lines[n]);
        if m.Err? then Err(m.error)
        else if m.value.None? then before
        else Ok(before.value + [m.value.value])
  }

  // ---------------------------------------------------------------- the scanners as loops

  /** The position of the first character of the value. */
  method FindKeyValueStart(line: string, key: string) returns (pos: Result<nat>)
    ensures pos.Err? ==> ValueOf(line, key) == Err(pos.error)
    ensures pos.Ok? ==> pos.value < |line| && ValueOf(line, key) == Ok(line[pos.value..])
  {
    var at := Find(line, KeyToken(key));
    if at.None? {
      return Err(MissingKey(key));
    }
    var p := at.value + |KeyToken(key)|;
    while p < |line| && IsSpace(line[p])
      invariant at.value + |key| + 3 <= p <= |line|
      invariant Trimmed(line[p..]) == Trimmed(line[at.value+|key|+3..])
    {
      assert line[p..][1..] == line[p+1..];
      p := p + 1;
    }
    if p >= |line| {
      return Err(MalformedKey(key));
    }
    return Ok(p);
  }

  method ScanString(line: string, key: string) returns (r: Result<string>)
    ensures r == ParseString(line, key)
  {
    var start := FindKeyValueStart(line, key);
    if start.Err? {
      return Err(start.error);
    }
    var pos := start.value;
    if line[pos] != '"' {
      return Err(ExpectedString(key));
    }
    pos := pos + 1;
    var end := FindStop(line, {'"'}, pos);
    assert line[start.value..][1..] == line[pos..];
    if end == |line| {
      return Err(UnterminatedString(key));
    }
    return Ok(line[pos..end]);
  }

  lemma {:induction false} UpToStep(line: string, stops: set<char>, pos: nat, end: nat)
    requires pos <= end < |line| && line[end] !in stops
    ensures line[pos..end] + UpTo(line[end..], stops) == line[pos..end+1] + UpTo(line[end+1..], stops)
  {
  }

  /** Where one of the stops next occurs from pos on, or the length. */
  method FindStop(line: string, stops: set<char>, pos: nat) returns (end: nat)
    requires pos <= |line|
    ensures pos <= end <= |line| && line[pos..end] == UpTo(line[pos..], stops)
    ensures end < |line| ==> line[end] in stops
  {
    end := pos;
    while end < |line| && line[end] !in stops
      invariant pos <= end <= |line|
      invariant UpTo(line[pos..], stops) == line[pos..end] + UpTo(line[end..], stops)
    {
      UpToStep(line, stops, pos, end);
      end := end + 1;
    }
  }

  method ScanNumber(codec: Codec, line: string, key: string) returns (r: Result<real>)
    ensures r == ParseNumber(codec, line, key)
  {
    var start := FindKeyValueStart(line, key);
    if start.Err? {
      return Err(start.error);
    }
    var pos := start.value;
    var end := FindStop(line, {',', '}'}, pos);
    return Number(codec, line[pos..end]);
  }

  method ScanNumberOptional(codec: Codec, line: string, key: string, default: real) returns (r: Result<real>)
    ensures r == ParseNumberOptional(codec, line, key, default)
  {
    if Find(line, KeyToken(key)).None? {
      return Ok(default);
    }
    r := ScanNumber(codec, line, key);
  }

  method ScanNumberArray(codec: Codec, line: string, key: string) returns (r: Result<seq<real>>)
    ensures r == ParseNumberArray(codec, line, key)
  {
    var start := FindKeyValueStart(line, key);
    if start.Err? {
      return Err(start.error);
    }
    var pos := start.value;
    if line[pos] != '[' {
      return Err(ExpectedArray(key));
    }
    pos := pos + 1;
    var end := FindStop(line, {']'}, pos);
    assert line[start.value..][1..] == line[pos..];
    if end == |line| {
      return Err(UnterminatedArray(key));
    }
    r := ScanItems(codec, line[pos..end]);
  }

  /** The getline loop over the inside of an array. */
  method ScanItems(codec: Codec, inner: string) returns (r: Result<seq<real>>)
    ensures r == Numbers(codec, Items(inner))
  {
    hide Items, UpTo, Number;
    var values: seq<real> := [];
    var rest := inner;
    ghost var done: seq<string> := [];
    while rest != []
      invariant done + Items(rest) == Items(inner)
      invariant Numbers(codec, done) == Ok(values)
      decreases |rest|
    {
      var end := FindStop(rest, {','}, 0);
      var token := rest[..end];
      ghost var tail := ItemsStep(rest, end);
      assert done + ([token] + tail) == (done + [token]) + tail;
      assert (done + [token])[..|done|] == done;
      if token != [] {
        var x := Number(codec, token);
        if x.Err? {
          ErrorStays(codec, done + [token], tail);
          return Err(x.error);
        }
        values := values + [x.value];
      }
      done := done + [token];
      rest := if end == |rest| then [] else rest[end+1..];
    }
    NoItems();
    assert done + [] == done;
    return Ok(values);
  }

  lemma {:induction false} ItemsStep(rest: string, end: nat) returns (tail: seq<string>)
    requires rest != [] && end <= |rest| && rest[0..end] == UpTo(rest[0..], {','})
    ensures tail == Items(if end == |rest| then [] else rest[end+1..])
    ensures Items(rest) == [rest[..end]] + tail
  {
    hide UpTo;
    assert rest[0..] == rest && rest[0..end] == rest[..end];
    tail := Items(if end == |rest| then [] else rest[end+1..]);
  }

  lemma {:induction false} NoItems()
    ensures Items([]) == []
  {
  }

  lemma {:induction false} ErrorStays(codec: Codec, items: seq<string>, more: seq<string>)
    requires Numbers(codec, items).Err?
    ensures Numbers(codec, items + more) == Numbers(codec, items)
  {
    if more == [] {
      assert items + more == items;
    } else {
      var n := |more| - 1;
      ErrorStays(codec, items, more[..n]);
      assert (items + more)[..|items|+n] == items + more[..n];
    }
  }

  method LoadMeasurements(codec: Codec, lines: seq<string>) returns (r: Result<seq<Measurement>>)
    ensures r == LoadAll(codec, lines)
  {
    hide ParseLine;
    var result: seq<Measurement> := [];
    for k := 0 to |lines|
      invariant LoadAll(codec, lines[..k]) == Ok(result)
    {
      assert lines[..k+1][..k] == lines[..k];
      var m := ScanLine(codec, lines[k]);
      if m.Err? {
        LoadErrorStays(codec, lines[..k+1], lines[k+1..]);
        assert lines[..k+1] + lines[k+1..] == lines;
        return Err(m.error);
      }
      if m.value.Some? {
        result := result + [m.value.value];
      }
    }
    assert lines[..|lines|] == lines;
    return Ok(result);
  }

  lemma {:induction false} LoadErrorStays(codec: Codec, lines: seq<string>, more: seq<string>)
    requires LoadAll(codec, lines).Err?
    ensures LoadAll(codec, lines + more) == LoadAll(codec, lines)
  {
    hide ParseLine;
    if more == [] {
      assert lines + more == lines;
    } else {
      var n := |more| - 1;
      LoadErrorStays(codec, lines, more[..n]);
      assert (lines + more)[..|lines|+n] == lines + more[..n];
    }
  }

  method ScanLine(codec: Codec, line: string) returns (r: Result<Option<Measurement>>)
    ensures r == ParseLine(codec, line)
  {
    hide ParseString, ParseNumber, ParseNumberArray, ParseNumberOptional;
    if line == [] {
      return Ok(None);
    }
    var lineType := ScanString(line, "type");
    if lineType.Err? {
      return Err(lineType.error);
    }
    if lineType.value != "measurement" {
      return Ok(None);
    }
    var name := ScanString(line, "measurement_type");
    if name.Err? {
      return Err(name.error);
    }
    var kind := MeasurementTypeOf(name.value);
    if kind.Err? {
      return Err(kind.error);
    }
    if kind.value != RangeBearing2D && kind.value != BearingElevation {
      return Ok(None);
    }
    var m := ScanMeasurement(codec, line, kind.value);
    if m.Err? {
      return Err(m.error);
    }
    return Ok(Some(m.value));
  }

  method ScanMeasurement(codec: Codec, line: string, kind: MeasurementType) returns (r: Result<Measurement>)
    ensures r == ParseMeasurement(codec, line, kind)
  {
    hide ParseString, ParseNumber, ParseNumberArray, ParseNumberOptional;
    var tMeas := ScanNumber(codec, line, "t_meas_s");
    if tMeas.Err? {
      return Err(tMeas.error);
    }
    var tSent := ScanNumber(codec, line, "t_sent_s");
    if tSent.Err? {
      return Err(tSent.error);
    }
    var sensorId := ScanNumber(codec, line, "sensor_id");
    if sensorId.Err? {
      return Err(sensorId.error);
    }
    var sensorName := ScanString(line, "sensor_type");
    if sensorName.Err? {
      return Err(sensorName.error);
    }
    var sensorType := SensorTypeOf(sensorName.value);
    if sensorType.Err? {
      return Err(sensorType.error);
    }
    var z := ScanNumberArray(codec, line, "z");
    if z.Err? {
      return Err(z.error);
    }
    var rRowMajor := ScanNumberArray(codec, line, "R");
    if rRowMajor.Err? {
      return Err(rRowMajor.error);
    }
    var zDim := ScanNumber(codec, line, "z_dim");
    if zDim.Err? {
      return Err(zDim.error);
    }
    var confidence := ScanNumber(codec, line, "confidence");
    if confidence.Err? {
      return Err(confidence.error);
    }
    var traceId := ScanNumberOptional(codec, line, "trace_id", 0.0);
    if traceId.Err? {
      return Err(traceId.error);
    }
    var parentId := ScanNumberOptional(codec, line, "causal_parent_id", 0.0);
    if parentId.Err? {
      return Err(parentId.error);
    }
    return Ok(Measurement(tMeas.value, tSent.value, ToId(sensorId.value), sensorType.value, kind, z.value,
                          rRowMajor.value,
                          ToId(zDim.value), confidence.value, 0.0, ToId(traceId.value), ToId(parentId.value)));
  }
}
