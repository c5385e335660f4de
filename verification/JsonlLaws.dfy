/** Reading back what was written: in a rendered line each key token first occurs at its own field, so loading
    a log returns every planar or angular measurement with all its fields but the signal-to-noise ratio. */
module JsonlLaws {
  import opened Basics
  import opened Jsonl

  // ---------------------------------------------------------------- where a token can occur

  ghost predicate Occurs(s: string, p: nat, t: string) {
    p + |t| <= |s| && s[p..p+|t|] == t
  }

  predicate IsKey(key: string) {
    forall c | c in key :: c != '"' && c != ':' && c != ',' && c != '}'
  }

  predicate Unquoted(text: string) {
    forall c | c in text :: c != '"'
  }

  predicate IsField(f: Field) {
    IsKey(f.key) && Unquoted(f.text)
  }

  /** What follows a field's value in a line. */
  predicate IsTail(tail: string) {
    tail != [] && (tail[0] == ',' || tail[0] == '}')
  }

  lemma {:induction false} OccursChars(s: string, p: nat, key: string)
    requires Occurs(s, p, KeyToken(key))
    ensures s[p] == '"' && s[p+1+|key|] == '"' && s[p+2+|key|] == ':'
    ensures forall j | 0 <= j < |key| :: s[p+1+j] == key[j]
  {
  }

  /** A quoted word of unquoted characters followed by c: a token can start there only if the word is its key and
      c the colon, and nowhere inside the word. */
  lemma {:induction false} WordExcludes(s: string, at: nat, word: string, c: char, p: nat, key: string)
    requires Unquoted(word) && IsKey(key) && at + |word| + 3 <= |s|
    requires s[at] == '"' && s[at+1..at+1+|word|] == word && s[at+1+|word|] == '"' && s[at+2+|word|] == c
    requires c == ':' || c == ',' || c == '}'
    requires at <= p < at + |word| + 2 && Occurs(s, p, KeyToken(key))
    ensures p == at && key == word && c == ':'
  {
    OccursChars(s, p, key);
    var w := s[at+1..at+1+|word|];
    forall q | at < q <= at + |word| ensures s[q] != '"' {
      assert w[q-at-1] == s[q] && w[q-at-1] in word;
    }
    forall q | p < q <= p + |key| ensures s[q] != '"' && s[q] != ':' && s[q] != ',' && s[q] != '}' {
      assert s[p+1+(q-p-1)] == key[q-p-1] && key[q-p-1] in key;
    }
    assert p == at && |key| == |word|;
    forall j | 0 <= j < |key| ensures key[j] == word[j] {
      assert w[j] == s[p+1+j];
    }
  }

  lemma {:induction false} FieldLayout(f: Field, tail: string)
    requires IsTail(tail)
    ensures var s := FieldText(f) + tail;
            var v := |f.key| + 3;
            && |s| == v + |FieldValue(f)| + |tail|
            && s[0] == '"' && s[1..1+|f.key|] == f.key && s[1+|f.key|] == '"' && s[2+|f.key|] == ':'
            && s[v..v+|FieldValue(f)|] == FieldValue(f) && s[v+|FieldValue(f)|..] == tail
  {
  }

  lemma {:induction false} QuotedLayout(f: Field, tail: string)
    requires IsTail(tail) && f.TextField?
    ensures var s := FieldText(f) + tail;
            var v := |f.key| + 3;
            && |s| == v + |f.text| + 2 + |tail|
            && s[v] == '"' && s[v+1..v+1+|f.text|] == f.text && s[v+1+|f.text|] == '"' && s[v+2+|f.text|] == tail[0]
  {
    FieldLayout(f, tail);
    var s := FieldText(f) + tail;
    var v := |f.key| + 3;
    var value := s[v..v+|FieldValue(f)|];
    assert value[1..1+|f.text|] == f.text;
    assert s[v+1..v+1+|f.text|] == value[1..1+|f.text|];
    assert value[0] == '"' && value[|f.text|+1] == '"';
    assert s[v+|FieldValue(f)|..][0] == tail[0];
  }

  /** Within a field's text and the separator after it, a key token occurs only at the start, and only the
      field's own. */
  lemma {:induction false} OnlyOwnToken(f: Field, tail: string, p: nat, key: string)
    requires IsField(f) && IsTail(tail) && IsKey(key)
    requires p <= |FieldText(f)| && Occurs(FieldText(f) + tail, p, KeyToken(key))
    ensures p == 0 && key == f.key
  {
    hide FieldText, KeyToken;
    var s := FieldText(f) + tail;
    var v := |f.key| + 3;
    FieldLayout(f, tail);
    OccursChars(s, p, key);
    var e := v + |FieldValue(f)|;
    assert s[e] == tail[0] by {
      assert s[e..][0] == tail[0];
    }
    if f.PlainField? {
      var value := s[v..e];
      forall q | v <= q < e ensures s[q] != '"' {
        assert value[q-v] == s[q] && value[q-v] in f.text;
      }
    } else {
      QuotedLayout(f, tail);
    }
    if p < |f.key| + 2 {
      WordExcludes(s, 0, f.key, ':', p, key);
    } else if f.TextField? && v <= p < e {
      WordExcludes(s, v, f.text, tail[0], p, key);
    }
  }

  // ---------------------------------------------------------------- finding

  lemma {:induction false} OccursShift(s: string, n: nat, p: nat, t: string)
    requires n <= |s|
    ensures Occurs(s[n..], p, t) <==> Occurs(s, n + p, t)
  {
  }

  lemma {:induction false} OccursAtStart(s: string, t: string)
    ensures Occurs(s, 0, t) <==> t <= s
    ensures forall p: nat | Occurs(s, p, t) :: p + |t| <= |s|
  {
  }

  ghost predicate IsFirst(s: string, t: string, n: nat) {
    Occurs(s, n, t) && forall p: nat | p < n :: !Occurs(s, p, t)
  }

  /** Find gives the first occurrence, or None when there is none. */
  lemma {:induction false} FindIsFirst(s: string, t: string)
    ensures var r := Find(s, t);
            if r.Some? then IsFirst(s, t, r.value) else forall p: nat :: !Occurs(s, p, t)
  {
    hide Occurs;
    OccursAtStart(s, t);
    if |s| >= |t| && !(t <= s) {
      FindIsFirst(s[1..], t);
      forall p: nat ensures Occurs(s[1..], p, t) <==> Occurs(s, 1 + p, t) {
        OccursShift(s, 1, p, t);
      }
      forall p: nat | p > 0 ensures Occurs(s, p, t) <==> Occurs(s[1..], p - 1, t) {
        OccursShift(s, 1, p - 1, t);
      }
    }
  }

  lemma {:induction false} FindsFirst(s: string, t: string, n: nat)
    requires IsFirst(s, t, n)
    ensures Find(s, t) == Some(n)
  {
    hide Occurs, Find;
    FindIsFirst(s, t);
  }

  lemma {:induction false} FindSkips(s: string, t: string, n: nat)
    requires n <= |s| && (forall p: nat | p < n :: !Occurs(s, p, t)) && Find(s[n..], t).Some?
    ensures Find(s, t) == Some(n + Find(s[n..], t).value)
  {
    hide Occurs, Find;
    FindIsFirst(s[n..], t);
    var q := Find(s[n..], t).value;
    OccursShift(s, n, q, t);
    forall p: nat | p < n + q ensures !Occurs(s, p, t) {
      if p >= n {
        OccursShift(s, n, p - n, t);
      }
    }
    FindsFirst(s, t, n + q);
  }

  /** What is left of the line after a field's value. */
  function Tail(fs: seq<Field>): string
    requires fs != []
  {
    if |fs| == 1 then "}" else "," + Body(fs[1..])
  }

  lemma {:induction false} BodySplits(fs: seq<Field>)
    requires fs != []
    ensures Body(fs) == FieldText(fs[0]) + Tail(fs) && IsTail(Tail(fs))
    ensures |fs| > 1 ==> Body(fs)[|FieldText(fs[0])|+1..] == Body(fs[1..])
  {
    hide FieldText;
    if |fs| > 1 {
      var head, rest := FieldText(fs[0]), Body(fs[1..]);
      hide Body;
      CommaSplits(head, rest);
    }
  }

  lemma {:induction false} CommaSplits(head: string, rest: string)
    ensures (head + ",") + rest == head + ("," + rest) && (head + "," + rest)[|head|+1..] == rest
  {
  }

  ghost predicate AllFields(fs: seq<Field>) {
    forall k | 0 <= k < |fs| :: IsField(fs[k])
  }

  /** The first token of a key in a body is at the first field with that key. */
  lemma {:induction false} FindsField(fs: seq<Field>, i: nat)
    requires AllFields(fs) && i < |fs|
    requires forall k | 0 <= k < i :: fs[k].key != fs[i].key
    ensures var at := Find(Body(fs), KeyToken(fs[i].key));
            at.Some? && Body(fs)[at.value..] == Body(fs[i..])
  {
    hide FieldText, KeyToken, Body, Find, IsKey, Unquoted;
    assert IsField(fs[0]) && IsField(fs[i]);
    if i == 0 {
      BodySplits(fs);
      FieldStartsWithToken(fs[0], Tail(fs));
      FindsFirst(Body(fs), KeyToken(fs[0].key), 0);
      assert Body(fs)[0..] == Body(fs) && fs[0..] == fs;
    } else {
      FindsField(fs[1..], i - 1);
      FindsLater(fs, fs[i].key);
      assert fs[1..][i-1..] == fs[i..];
    }
  }

  /** Looking for a key that is not the first field's goes past the first field. */
  lemma {:induction false} FindsLater(fs: seq<Field>, key: string)
    requires |fs| > 1 && IsField(fs[0]) && IsKey(key) && fs[0].key != key
    requires Find(Body(fs[1..]), KeyToken(key)).Some?
    ensures var at := Find(Body(fs), KeyToken(key));
            at.Some? && Body(fs)[at.value..] == Body(fs[1..])[Find(Body(fs[1..]), KeyToken(key)).value..]
  {
    hide FieldText, KeyToken, Body, Find, IsField, IsKey, Occurs;
    var t := KeyToken(key);
    BodySplits(fs);
    var n := |FieldText(fs[0])| + 1;
    forall p: nat | p < n ensures !Occurs(Body(fs), p, t) {
      if Occurs(Body(fs), p, t) {
        OnlyOwnToken(fs[0], Tail(fs), p, key);
      }
    }
    FindSkips(Body(fs), t, n);
    var at := Find(Body(fs[1..]), t).value;
    assert Body(fs)[n..][at..] == Body(fs)[n+at..];
  }

  lemma {:induction false} FieldStartsWithToken(f: Field, tail: string)
    ensures Occurs(FieldText(f) + tail, 0, KeyToken(f.key))
    ensures (FieldText(f) + tail)[|f.key|+3..] == FieldValue(f) + tail
  {
  }

  /** So the value read for a key of a line is its own field's value, up to the tail. */
  lemma {:induction false} ReadsOwnValue(fs: seq<Field>, i: nat)
    requires AllFields(fs) && i < |fs|
    requires forall k | 0 <= k < i :: fs[k].key != fs[i].key
    requires FieldValue(fs[i]) != [] && !IsSpace(FieldValue(fs[i])[0])
    ensures ValueOf("{" + Body(fs), fs[i].key) == Ok(FieldValue(fs[i]) + Tail(fs[i..]))
    ensures IsTail(Tail(fs[i..]))
  {
    hide FieldText, FieldValue, KeyToken, Body, Find;
    var key := fs[i].key;
    var line := "{" + Body(fs);
    var t := KeyToken(key);
    FindsField(fs, i);
    TokenNotAtBrace(Body(fs), key);
    FindSkips(line, t, 1);
    assert line[1..] == Body(fs);
    var at := Find(Body(fs), t).value;
    BodySplits(fs[i..]);
    FieldStartsWithToken(fs[i], Tail(fs[i..]));
    var n := 1 + at + |key| + 3;
    assert line[n..] == Body(fs)[at..][|key|+3..];
  }

  lemma {:induction false} TokenNotAtBrace(body: string, key: string)
    ensures forall p: nat | p < 1 :: !Occurs("{" + body, p, KeyToken(key))
  {
    if Occurs("{" + body, 0, KeyToken(key)) {
      OccursChars("{" + body, 0, key);
    }
  }

  // ---------------------------------------------------------------- reading one value

  lemma {:induction false} UpToText(text: string, rest: string, stops: set<char>)
    requires rest != [] && rest[0] in stops && forall c | c in text :: c !in stops
    ensures UpTo(text + rest, stops) == text
  {
    if text == [] {
      assert text + rest == rest;
    } else {
      assert (text + rest)[1..] == text[1..] + rest;
      UpToText(text[1..], rest, stops);
    }
  }

  lemma {:induction false} ReadsText(fs: seq<Field>, i: nat)
    requires AllFields(fs) && i < |fs| && fs[i].TextField?
    requires forall k | 0 <= k < i :: fs[k].key != fs[i].key
    ensures ParseString("{" + Body(fs), fs[i].key) == Ok(fs[i].text)
  {
    hide Body, ValueOf, FieldText, KeyToken, Tail;
    var f := fs[i];
    var tail := Tail(fs[i..]);
    assert FieldValue(f)[0] == '"';
    ReadsOwnValue(fs, i);
    var value := FieldValue(f) + tail;
    assert value[1..] == f.text + ("\"" + tail);
    assert IsField(f);
    UpToText(f.text, "\"" + tail, {'"'});
  }

  /** A number's text: what the printers give. */
  predicate IsNumberText(text: string) {
    text != [] && forall c | c in text :: !IsSpace(c) && c != '"' && c != ',' && c != '}' && c != '[' && c != ']'
  }

  lemma {:induction false} ReadsNumber(codec: Codec, fs: seq<Field>, i: nat)
    requires AllFields(fs) && i < |fs| && fs[i].PlainField? && IsNumberText(fs[i].text)
    requires forall k | 0 <= k < i :: fs[k].key != fs[i].key
    ensures ParseNumber(codec, "{" + Body(fs), fs[i].key) == Number(codec, fs[i].text)
    ensures Find("{" + Body(fs), KeyToken(fs[i].key)).Some?
  {
    hide Body, IsNumberText, Find;
    var text := fs[i].text;
    NumberTextFacts(text);
    ReadsOwnValue(fs, i);
    UpToText(text, Tail(fs[i..]), {',', '}'});
  }

  lemma {:induction false} NumberTextFacts(text: string)
    requires IsNumberText(text)
    ensures text != [] && !IsSpace(text[0]) && Unquoted(text)
    ensures forall c | c in text :: c !in {',', '}'} && c !in {']'} && c !in {','}
  {
  }

  // ---------------------------------------------------------------- arrays

  lemma {:induction false} JoinedFront(texts: seq<string>)
    requires |texts| > 1
    ensures Joined(texts) == texts[0] + ("," + Joined(texts[1..]))
  {
    var n := |texts| - 1;
    if n > 1 {
      JoinedFront(texts[..n]);
      assert texts[..n][1..] == texts[1..][..n-1];
      var a, b, c := texts[0], Joined(texts[1..n]), texts[n];
      assert texts[1..][..n-1] == texts[1..n];
      assert (a + ("," + b)) + "," + c == a + ("," + (b + "," + c));
    } else {
      assert texts[..1] == [texts[0]] && texts[1..] == [texts[1]];
    }
  }

  ghost predicate NumberTexts(texts: seq<string>) {
    forall k | 0 <= k < |texts| :: IsNumberText(texts[k])
  }

  lemma {:induction false} JoinedIsPlain(texts: seq<string>)
    requires NumberTexts(texts)
    ensures Unquoted(Joined(texts)) && forall c | c in Joined(texts) :: c !in {']'}
  {
    if texts != [] {
      var n := |texts| - 1;
      JoinedIsPlain(texts[..n]);
      NumberTextFacts(texts[n]);
    }
  }

  lemma {:induction false} ItemsOfJoined(texts: seq<string>)
    requires NumberTexts(texts)
    ensures Items(Joined(texts)) == texts
    decreases |texts|
  {
    if texts != [] {
      NumberTextFacts(texts[0]);
      if |texts| == 1 {
        ItemsOfOne(texts[0]);
      } else {
        JoinedFront(texts);
        var rest := Joined(texts[1..]);
        UpToText(texts[0], "," + rest, {','});
        assert (texts[0] + ("," + rest))[|texts[0]|+1..] == rest;
        ItemsOfJoined(texts[1..]);
      }
    }
  }

  lemma {:induction false} ItemsOfOne(text: string)
    requires text != [] && forall c | c in text :: c !in {','}
    ensures Items(text) == [text]
  {
    UpToText(text, ",", {','});
    UpToAll(text, {','});
  }

  lemma {:induction false} UpToAll(text: string, stops: set<char>)
    requires forall c | c in text :: c !in stops
    ensures UpTo(text, stops) == text
  {
  }

  /** What is asked of the library's numbers: a printed double parses back and its text holds no structural
      character; the same for ids that a double holds exactly. */
  ghost predicate IsCodec(codec: Codec) {
    && (forall x: real {:trigger codec.printNumber(x)} | codec.exact(x) ::
          IsNumberText(codec.printNumber(x)) && codec.parse(codec.printNumber(x)) == Some(x))
    && (forall n: nat {:trigger codec.printId(n)} | codec.exact(n as real) ::
          IsNumberText(codec.printId(n)) && codec.parse(codec.printId(n)) == Some(n as real))
  }

  ghost predicate Exact(codec: Codec, xs: seq<real>) {
    forall k | 0 <= k < |xs| :: codec.exact(xs[k])
  }

  lemma {:induction false} PrintedNumber(codec: Codec, x: real)
    requires IsCodec(codec) && codec.exact(x)
    ensures IsNumberText(codec.printNumber(x)) && Number(codec, codec.printNumber(x)) == Ok(x)
  {
  }

  lemma {:induction false} PrintedId(codec: Codec, n: nat)
    requires IsCodec(codec) && codec.exact(n as real)
    ensures IsNumberText(codec.printId(n)) && Number(codec, codec.printId(n)) == Ok(n as real)
  {
  }

  lemma {:induction false} NumbersOfPrinted(codec: Codec, xs: seq<real>)
    requires IsCodec(codec) && Exact(codec, xs)
    ensures NumberTexts(Printed(codec, xs)) && Numbers(codec, Printed(codec, xs)) == Ok(xs)
  {
    hide IsCodec, IsNumberText, Number;
    if xs != [] {
      var n := |xs| - 1;
      NumbersOfPrinted(codec, xs[..n]);
      PrintedNumber(codec, xs[n]);
      var texts := Printed(codec, xs);
      assert texts[..n] == Printed(codec, xs[..n]);
      forall k | 0 <= k < |texts| ensures IsNumberText(texts[k]) {
        assert k < n ==> texts[k] == Printed(codec, xs[..n])[k];
      }
      assert texts[n] != [] by {
        NumberTextFacts(texts[n]);
      }
      assert xs == xs[..n] + [xs[n]];
    }
  }

  lemma {:induction false} VectorIsPlain(codec: Codec, xs: seq<real>)
    requires IsCodec(codec) && Exact(codec, xs)
    ensures Unquoted(VectorText(codec, xs))
  {
    NumbersOfPrinted(codec, xs);
    JoinedIsPlain(Printed(codec, xs));
  }

  lemma {:induction false} ReadsVector(codec: Codec, fs: seq<Field>, i: nat, xs: seq<real>)
    requires IsCodec(codec) && Exact(codec, xs)
    requires AllFields(fs) && i < |fs| && fs[i] == PlainField(fs[i].key, VectorText(codec, xs))
    requires forall k | 0 <= k < i :: fs[k].key != fs[i].key
    ensures ParseNumberArray(codec, "{" + Body(fs), fs[i].key) == Ok(xs)
  {
    hide Body, ValueOf, IsCodec, Items, Numbers, IsNumberText;
    var texts := Printed(codec, xs);
    var inner := Joined(texts);
    var tail := Tail(fs[i..]);
    NumbersOfPrinted(codec, xs);
    JoinedIsPlain(texts);
    ItemsOfJoined(texts);
    assert FieldValue(fs[i])[0] == '[';
    ReadsOwnValue(fs, i);
    var value := FieldValue(fs[i]) + tail;
    assert value[1..] == inner + ("]" + tail);
    UpToText(inner, "]" + tail, {']'});
  }

  // ---------------------------------------------------------------- one measurement

  ghost predicate DistinctKeys(fs: seq<Field>) {
    forall a, b | 0 <= a < b < |fs| :: fs[a].key != fs[b].key
  }

  lemma {:induction false} NamesAreUnquoted(s: SensorType, t: MeasurementType)
    ensures Unquoted(SensorTypeName(s)) && Unquoted(MeasurementTypeName(t)) && Unquoted("measurement")
    ensures SensorTypeOf(SensorTypeName(s)) == Ok(s) && MeasurementTypeOf(MeasurementTypeName(t)) == Ok(t)
  {
  }

  lemma {:induction false} KeysAreKeys()
    ensures IsKey("type") && IsKey("t_meas_s") && IsKey("t_sent_s") && IsKey("sensor_id") && IsKey("sensor_type")
    ensures IsKey("measurement_type") && IsKey("z_dim") && IsKey("z") && IsKey("R") && IsKey("confidence")
    ensures IsKey("trace_id") && IsKey("causal_parent_id")
  {
  }

  lemma {:induction false} KeysAreDistinct(codec: Codec, m: Measurement, traceId: nat, causalParentId: nat)
    ensures DistinctKeys(MeasurementFields(codec, m, traceId, causalParentId))
  {
    assert "t_meas_s"[2] == 'm' && "t_sent_s"[2] == 's' && "trace_id"[2] == 'a';
    assert "z"[0] == 'z' && "R"[0] == 'R' && "measurement_type"[0] == 'm' && "causal_parent_id"[0] == 'c';
  }

  /** Every number the line holds is one a double holds exactly. */
  ghost predicate Printable(codec: Codec, m: Measurement, traceId: nat, causalParentId: nat) {
    && codec.exact(m.tMeas) && codec.exact(m.tSent) && codec.exact(m.confidence)
    && Exact(codec, m.z) && Exact(codec, m.rRowMajor)
    && codec.exact(m.sensorId as real) && codec.exact(m.zDim as real)
    && codec.exact(Effective(traceId, m.traceId) as real)
    && codec.exact(Effective(causalParentId, m.causalParentId) as real)
  }

  /** What comes back: everything but the signal-to-noise ratio, with the ids the line was written under. */
  function Restored(m: Measurement, traceId: nat, causalParentId: nat): Measurement {
    m.(snr := 0.0, traceId := Effective(traceId, m.traceId),
       causalParentId := Effective(causalParentId, m.causalParentId))
  }

  lemma {:induction false} FieldsAreFields(codec: Codec, m: Measurement, traceId: nat, causalParentId: nat)
    requires IsCodec(codec) && Printable(codec, m, traceId, causalParentId)
    ensures AllFields(MeasurementFields(codec, m, traceId, causalParentId))
  {
    hide IsCodec, IsKey, Unquoted, VectorText, SensorTypeName, MeasurementTypeName, IsNumberText;
    KeysAreKeys();
    NamesAreUnquoted(m.sensorType, m.measurementType);
    PrintsAreNumbers(codec, m, traceId, causalParentId);
    VectorIsPlain(codec, m.z);
    VectorIsPlain(codec, m.rRowMajor);
  }

  lemma {:induction false} PrintsAreNumbers(codec: Codec, m: Measurement, traceId: nat, causalParentId: nat)
    requires IsCodec(codec) && Printable(codec, m, traceId, causalParentId)
    ensures forall text | text in [codec.printNumber(m.tMeas), codec.printNumber(m.tSent), codec.printId(m.sensorId),
                                   codec.printId(m.zDim),
                                   codec.printNumber(m.confidence), codec.printId(Effective(traceId, m.traceId)),
                                   codec.printId(Effective(causalParentId, m.causalParentId))] ::
              IsNumberText(text) && Unquoted(text)
  {
    hide IsCodec, IsNumberText, Number;
    var tr, pa := Effective(traceId, m.traceId), Effective(causalParentId, m.causalParentId);
    PrintedNumber(codec, m.tMeas);
    PrintedNumber(codec, m.tSent);
    PrintedNumber(codec, m.confidence);
    PrintedId(codec, m.sensorId);
    PrintedId(codec, m.zDim);
    PrintedId(codec, tr);
    PrintedId(codec, pa);
    forall text | IsNumberText(text) ensures Unquoted(text) {
      NumberTextFacts(text);
    }
  }

  lemma {:induction false} ReadsPrinted(codec: Codec, fs: seq<Field>, i: nat, key: string, x: real)
    requires IsCodec(codec) && codec.exact(x) && AllFields(fs) && DistinctKeys(fs)
    requires i < |fs| && fs[i] == PlainField(key, codec.printNumber(x))
    ensures ParseNumber(codec, "{" + Body(fs), key) == Ok(x)
  {
    PrintedNumber(codec, x);
    ReadsNumber(codec, fs, i);
  }

  lemma {:induction false} ReadsId(codec: Codec, fs: seq<Field>, i: nat, key: string, n: nat)
    requires IsCodec(codec) && codec.exact(n as real) && AllFields(fs) && DistinctKeys(fs)
    requires i < |fs| && fs[i] == PlainField(key, codec.printId(n))
    ensures ParseNumber(codec, "{" + Body(fs), key) == Ok(n as real)
    ensures forall d: real :: ParseNumberOptional(codec, "{" + Body(fs), key, d) == Ok(n as real)
  {
    PrintedId(codec, n);
    ReadsNumber(codec, fs, i);
  }

  lemma {:induction false} IdSurvives(n: nat)
    ensures ToId(n as real) == n
  {
  }

  /** The fields of a printed measurement all read back. */
  lemma {:induction false} MeasurementReadsBack(codec: Codec, m: Measurement, traceId: nat, causalParentId: nat)
    requires IsCodec(codec) && Printable(codec, m, traceId, causalParentId)
    ensures ParseMeasurement(codec, MeasurementLine(codec, m, traceId, causalParentId), m.measurementType) ==
            Ok(Restored(m, traceId, causalParentId))
  {
    hide Body, ParseNumber, ParseNumberOptional, ParseString, ParseNumberArray, VectorText, AllFields, DistinctKeys;
    hide IsCodec, SensorTypeName, SensorTypeOf, MeasurementTypeName, MeasurementTypeOf, ToId;
    var fs := MeasurementFields(codec, m, traceId, causalParentId);
    FieldsAreFields(codec, m, traceId, causalParentId);
    KeysAreDistinct(codec, m, traceId, causalParentId);
    NamesAreUnquoted(m.sensorType, m.measurementType);
    ReadsPrinted(codec, fs, 1, "t_meas_s", m.tMeas);
    ReadsPrinted(codec, fs, 2, "t_sent_s", m.tSent);
    ReadsId(codec, fs, 3, "sensor_id", m.sensorId);
    ReadsDistinctText(fs, 4);
    ReadsId(codec, fs, 6, "z_dim", m.zDim);
    ReadsDistinctVector(codec, fs, 7, m.z);
    ReadsDistinctVector(codec, fs, 8, m.rRowMajor);
    ReadsPrinted(codec, fs, 9, "confidence", m.confidence);
    ReadsId(codec, fs, 10, "trace_id", Effective(traceId, m.traceId));
    ReadsId(codec, fs, 11, "causal_parent_id", Effective(causalParentId, m.causalParentId));
    IdSurvives(m.sensorId);
    IdSurvives(m.zDim);
    IdSurvives(Effective(traceId, m.traceId));
    IdSurvives(Effective(causalParentId, m.causalParentId));
  }

  lemma {:induction false} ReadsDistinctText(fs: seq<Field>, i: nat)
    requires AllFields(fs) && DistinctKeys(fs) && i < |fs| && fs[i].TextField?
    ensures ParseString("{" + Body(fs), fs[i].key) == Ok(fs[i].text)
  {
    ReadsText(fs, i);
  }

  lemma {:induction false} ReadsDistinctVector(codec: Codec, fs: seq<Field>, i: nat, xs: seq<real>)
    requires IsCodec(codec) && Exact(codec, xs) && AllFields(fs) && DistinctKeys(fs)
    requires i < |fs| && fs[i] == PlainField(fs[i].key, VectorText(codec, xs))
    ensures ParseNumberArray(codec, "{" + Body(fs), fs[i].key) == Ok(xs)
  {
    ReadsVector(codec, fs, i, xs);
  }

  /** A printed line loads as its measurement, or as nothing when it holds a 3D position. */
  lemma {:induction false} LineReadsBack(codec: Codec, m: Measurement, traceId: nat, causalParentId: nat)
    requires IsCodec(codec) && Printable(codec, m, traceId, causalParentId)
    ensures ParseLine(codec, MeasurementLine(codec, m, traceId, causalParentId)) ==
            Ok(if m.measurementType == Position3D then None else Some(Restored(m, traceId, causalParentId)))
  {
    hide Body, ParseString, ParseMeasurement, VectorText, AllFields, DistinctKeys;
    hide IsCodec, SensorTypeName, SensorTypeOf, MeasurementTypeName, MeasurementTypeOf;
    var fs := MeasurementFields(codec, m, traceId, causalParentId);
    FieldsAreFields(codec, m, traceId, causalParentId);
    KeysAreDistinct(codec, m, traceId, causalParentId);
    NamesAreUnquoted(m.sensorType, m.measurementType);
    ReadsDistinctText(fs, 0);
    ReadsDistinctText(fs, 5);
    MeasurementReadsBack(codec, m, traceId, causalParentId);
  }

  // ---------------------------------------------------------------- a whole log

  /** The lines of a log: measurements, other events, and empty lines. */
  datatype Entry =
    | Logged(m: Measurement, traceId: nat, causalParentId: nat)
    | Event(eventType: string, rest: string)
    | Blank

  function EntryLine(codec: Codec, e: Entry): string {
    match e
    case Logged(m, traceId, causalParentId) => MeasurementLine(codec, m, traceId, causalParentId)
    case Event(eventType, rest) => "{\"type\":\"" + eventType + "\"" + rest
    case Blank => ""
  }

  ghost predicate IsEntry(codec: Codec, e: Entry) {
    match e
    case Logged(m, traceId, causalParentId) => Printable(codec, m, traceId, causalParentId)
    case Event(eventType, rest) => Unquoted(eventType) && eventType != "measurement"
    case Blank => true
  }

  function Lines(codec: Codec, log: seq<Entry>): (r: seq<string>)
    ensures |r| == |log|
  {
    seq(|log|, i requires 0 <= i < |log| => EntryLine(codec, log[i]))
  }

  /** The measurements of a log that the loader takes, in order. */
  function Measurements(log: seq<Entry>): seq<Measurement> {
    if log == [] then []
    else
      var e := log[|log|-1];
      Measurements(log[..|log|-1]) +
      (if e.Logged? && e.m.measurementType != Position3D then [Restored(e.m, e.traceId, e.causalParentId)] else [])
  }

  lemma {:induction false} EventIsSkipped(codec: Codec, eventType: string, rest: string)
    requires Unquoted(eventType) && eventType != "measurement"
    ensures ParseLine(codec, EntryLine(codec, Event(eventType, rest))) == Ok(None)
  {
    hide ValueOf, FieldText;
    var f := TextField("type", eventType);
    FirstFieldReads(f, rest);
    assert EntryLine(codec, Event(eventType, rest)) == "{" + (FieldText(f) + rest) by {
      EventLineIsField(codec, eventType, rest);
    }
    var value := FieldValue(f) + rest;
    assert value[1..] == eventType + ("\"" + rest);
    UpToText(eventType, "\"" + rest, {'"'});
  }

  lemma {:induction false} EventLineIsField(codec: Codec, eventType: string, rest: string)
    ensures EntryLine(codec, Event(eventType, rest)) == "{" + (FieldText(TextField("type", eventType)) + rest)
  {
    assert "{\"type\":\"" == "{" + (KeyToken("type") + "\"");
  }

  lemma {:induction false} FirstFieldReads(f: Field, rest: string)
    requires f.TextField?
    ensures ValueOf("{" + (FieldText(f) + rest), f.key) == Ok(FieldValue(f) + rest)
  {
    hide FieldText, KeyToken, Find, Occurs;
    var body := FieldText(f) + rest;
    var line := "{" + body;
    var t := KeyToken(f.key);
    TokenNotAtBrace(body, f.key);
    FieldStartsWithToken(f, rest);
    FindsFirst(body, t, 0);
    assert line[1..] == body;
    FindSkips(line, t, 1);
    assert line[1+|f.key|+3..] == body[|f.key|+3..];
    assert (FieldValue(f) + rest)[0] == '"';
  }

  /** Loading a log that was written line by line returns exactly its planar and angular measurements, in order. */
  lemma {:induction false} LogReadsBack(codec: Codec, log: seq<Entry>)
    requires IsCodec(codec) && forall k | 0 <= k < |log| :: IsEntry(codec, log[k])
    ensures LoadAll(codec, Lines(codec, log)) == Ok(Measurements(log))
  {
    hide IsCodec, ParseLine, MeasurementLine;
    if log != [] {
      var n := |log| - 1;
      LogReadsBack(codec, log[..n]);
      assert Lines(codec, log)[..n] == Lines(codec, log[..n]);
      assert IsEntry(codec, log[n]);
      EntryReadsBack(codec, log[n]);
      assert Measurements(log[..n]) + [] == Measurements(log[..n]);
    }
  }

  lemma {:induction false} EntryReadsBack(codec: Codec, e: Entry)
    requires IsCodec(codec) && IsEntry(codec, e)
    ensures ParseLine(codec, EntryLine(codec, e)) ==
            Ok(if e.Logged? && e.m.measurementType != Position3D then Some(Restored(e.m, e.traceId, e.causalParentId))
               else None)
  {
    hide IsCodec, MeasurementLine;
    match e
    case Logged(m, traceId, causalParentId) =>
      hide ParseLine;
      LineReadsBack(codec, m, traceId, causalParentId);
    case Event(eventType, rest) =>
      hide ParseLine;
      EventIsSkipped(codec, eventType, rest);
    case Blank =>
  }

  // ---------------------------------------------------------------- the text of a line

  /** Field i, its comma, and the fields after it. */
  lemma {:induction false} FieldTells(fs: seq<Field>, i: nat, token: string, value: string)
    requires i + 1 < |fs| && token == KeyToken(fs[i].key) && value == FieldValue(fs[i])
    ensures Body(fs[i..]) == token + value + ("," + Body(fs[i+1..]))
  {
    var head := FieldText(fs[i]);
    assert head == token + value;
    assert fs[i..][1..] == fs[i+1..];
    assert (head + ",") + Body(fs[i+1..]) == head + ("," + Body(fs[i+1..]));
  }

  lemma {:induction false} LastTells(fs: seq<Field>, token: string, value: string)
    requires fs != [] && token == KeyToken(fs[|fs|-1].key) && value == FieldValue(fs[|fs|-1])
    ensures Body(fs[|fs|-1..]) == token + value + "}"
  {
  }

  /** The numbers and the trace, literally. */
  lemma {:induction false} EndTells(codec: Codec, m: Measurement, traceId: nat, causalParentId: nat)
    ensures Body(MeasurementFields(codec, m, traceId, causalParentId)[8..]) ==
            "\"R\":" + VectorText(codec, m.rRowMajor) + ("," + (
            "\"confidence\":" + codec.printNumber(m.confidence) + ("," + (
            "\"trace_id\":" + codec.printId(if traceId == 0 then m.traceId else traceId) + ("," + (
            "\"causal_parent_id\":" + codec.printId(if causalParentId == 0 then m.causalParentId else causalParentId)
              + "}"))))))
  {
    var fs := MeasurementFields(codec, m, traceId, causalParentId);
    NumberTokens();
    TraceTokens();
    hide Body, VectorText, KeyToken;
    FieldTells(fs, 8, "\"R\":", VectorText(codec, m.rRowMajor));
    FieldTells(fs, 9, "\"confidence\":", codec.printNumber(m.confidence));
    FieldTells(fs, 10, "\"trace_id\":", codec.printId(if traceId == 0 then m.traceId else traceId));
    LastTells(fs, "\"causal_parent_id\":",
              codec.printId(if causalParentId == 0 then m.causalParentId else causalParentId));
  }

  /** The names, the dimension and the measured vector, literally. */
  lemma {:induction false} MiddleTells(codec: Codec, m: Measurement, traceId: nat, causalParentId: nat)
    ensures var fs := MeasurementFields(codec, m, traceId, causalParentId);
            Body(fs[4..]) ==
            "\"sensor_type\":" + ("\"" + SensorTypeName(m.sensorType) + "\"") + ("," + (
            "\"measurement_type\":" + ("\"" + MeasurementTypeName(m.measurementType) + "\"") + ("," + (
            "\"z_dim\":" + codec.printId(m.zDim) + ("," + (
            "\"z\":" + VectorText(codec, m.z) + ("," + Body(fs[8..]))))))))
  {
    var fs := MeasurementFields(codec, m, traceId, causalParentId);
    QuotedTokens();
    KindTokens();
    NumberTokens();
    hide Body, VectorText, SensorTypeName, MeasurementTypeName, KeyToken;
    FieldTells(fs, 4, "\"sensor_type\":", "\"" + SensorTypeName(m.sensorType) + "\"");
    FieldTells(fs, 5, "\"measurement_type\":", "\"" + MeasurementTypeName(m.measurementType) + "\"");
    FieldTells(fs, 6, "\"z_dim\":", codec.printId(m.zDim));
    FieldTells(fs, 7, "\"z\":", VectorText(codec, m.z));
  }

  lemma {:induction false} QuotedTokens()
    ensures "\"type\":" == KeyToken("type")
    ensures "\"sensor_type\":" == KeyToken("sensor_type") && "\"measurement_type\":" == KeyToken("measurement_type")
  {
  }

  /** A line starts with its type, its times and its sensor, literally. */
  lemma {:induction false} LineTells(codec: Codec, m: Measurement, traceId: nat, causalParentId: nat)
    ensures MeasurementLine(codec, m, traceId, causalParentId) ==
            "{" + ("\"type\":" + "\"measurement\"" + ("," + (
            "\"t_meas_s\":" + codec.printNumber(m.tMeas) + ("," + (
            "\"t_sent_s\":" + codec.printNumber(m.tSent) + ("," + (
            "\"sensor_id\":" + codec.printId(m.sensorId) + ("," +
            Body(MeasurementFields(codec, m, traceId, causalParentId)[4..])))))))))
  {
    var fs := MeasurementFields(codec, m, traceId, causalParentId);
    Tokens();
    QuotedTokens();
    hide Body, VectorText, SensorTypeName, MeasurementTypeName, KeyToken;
    assert fs[0..] == fs;
    FieldTells(fs, 0, "\"type\":", "\"measurement\"");
    FieldTells(fs, 1, "\"t_meas_s\":", codec.printNumber(m.tMeas));
    FieldTells(fs, 2, "\"t_sent_s\":", codec.printNumber(m.tSent));
    FieldTells(fs, 3, "\"sensor_id\":", codec.printId(m.sensorId));
  }

  // ---------------------------------------------------------------- malformed lines

  /** The loaded measurements are those of the lines picked, in the order of the lines. */
  ghost predicate ComeFrom(codec: Codec, lines: seq<string>, ms: seq<Measurement>, picks: seq<nat>) {
    && |picks| == |ms|
    && (forall i, j | 0 <= i < j < |picks| :: picks[i] < picks[j])
    && (forall n | 0 <= n < |ms| :: picks[n] < |lines| && ParseLine(codec, lines[picks[n]]) == Ok(Some(ms[n])))
    && (forall k | 0 <= k < |lines| :: ParseLine(codec, lines[k]) == Ok(None) || k in picks)
  }

  /** The first malformed line is line k. */
  ghost predicate FirstMalformed(codec: Codec, lines: seq<string>, k: nat) {
    && k < |lines| && ParseLine(codec, lines[k]).Err?
    && (forall j | 0 <= j < k :: ParseLine(codec, lines[j]).Ok?)
  }

  /** Loading fails exactly when some line is malformed, with the error of the first one; otherwise it returns the
      measurements of all the lines, in order. */
  lemma {:induction false} LoadTells(codec: Codec, lines: seq<string>)
    ensures match LoadAll(codec, lines)
            case Err(e) => exists k: nat :: FirstMalformed(codec, lines, k) && ParseLine(codec, lines[k]) == Err(e)
            case Ok(ms) => exists picks :: ComeFrom(codec, lines, ms, picks)
  {
    hide ParseLine;
    if lines == [] {
      var none: seq<nat> := [];
      assert LoadAll(codec, lines).value == [];
      assert ComeFrom(codec, lines, LoadAll(codec, lines).value, none);
    } else {
      var n := |lines| - 1;
      var few := lines[..n];
      LoadTells(codec, few);
      match LoadAll(codec, few)
      case Err(e) =>
        var k: nat :| FirstMalformed(codec, few, k) && ParseLine(codec, few[k]) == Err(e);
        assert FirstMalformed(codec, lines, k);
      case Ok(ms) =>
        var picks :| ComeFrom(codec, few, ms, picks);
        OneMoreLine(codec, lines, ms, picks);
        hide ComeFrom, FirstMalformed;
        assert LoadAll(codec, lines).Ok? ==>
                 ComeFrom(codec, lines, LoadAll(codec, lines).value, picks)
                 || ComeFrom(codec, lines, LoadAll(codec, lines).value, picks + [n]);
    }
  }

  lemma {:induction false} OneMoreLine(codec: Codec, lines: seq<string>, ms: seq<Measurement>, picks: seq<nat>)
    requires lines != [] && ComeFrom(codec, lines[..|lines|-1], ms, picks)
    ensures match ParseLine(codec, lines[|lines|-1])
            case Err(e) => FirstMalformed(codec, lines, |lines| - 1)
            case Ok(None) => ComeFrom(codec, lines, ms, picks)
            case Ok(Some(m)) => ComeFrom(codec, lines, ms + [m], picks + [|lines| - 1])
  {
    hide ParseLine;
    var n := |lines| - 1;
    var few := lines[..n];
    forall k | 0 <= k < n ensures ParseLine(codec, lines[k]).Ok? {
      assert lines[k] == few[k];
      if k in picks {
        var i :| 0 <= i < |picks| && picks[i] == k;
        assert ParseLine(codec, few[picks[i]]) == Ok(Some(ms[i]));
      }
    }
  }

  /** A line that is not empty and has no type makes any log fail. */
  lemma {:induction false} GarbageStopsLoad(codec: Codec, log: seq<Entry>, garbage: string, rest: seq<string>)
    requires IsCodec(codec) && forall k | 0 <= k < |log| :: IsEntry(codec, log[k])
    requires garbage != [] && forall p: nat :: !Occurs(garbage, p, "\"type\":")
    ensures LoadAll(codec, Lines(codec, log) + [garbage] + rest) == Err(MissingKey("type"))
  {
    hide IsCodec, MeasurementLine;
    GarbageIsMalformed(codec, garbage);
    LogReadsBack(codec, log);
    hide ParseLine;
    var lines := Lines(codec, log) + [garbage];
    assert lines[..|lines|-1] == Lines(codec, log);
    assert LoadAll(codec, lines) == Err(MissingKey("type"));
    LoadErrorStays(codec, lines, rest);
  }

  lemma {:induction false} GarbageIsMalformed(codec: Codec, garbage: string)
    requires garbage != [] && forall p: nat :: !Occurs(garbage, p, "\"type\":")
    ensures ParseLine(codec, garbage) == Err(MissingKey("type"))
  {
    assert "\"type\":" == KeyToken("type");
    FindIsFirst(garbage, KeyToken("type"));
  }
}
