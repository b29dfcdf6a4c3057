/** What one operation of the session object of voicemeeter/remote.py does
    to the native library, as functions of the library's state: which calls
    it issues, in which order, and what it returns. The `Remote` class is
    proved against these. */
module Session {
  import opened Errors
  import opened Native
  import opened Numerals
  import opened Kinds
  import opened DictMerge
  import opened Profiles
  import opened Elements

  /** The library's state after an operation, and the error it raised, if any. */
  datatype Effect = Effect(st: NativeState, err: Option<Error>)

  /** The library's state after a read, and the value read or the error raised. */
  datatype Reading = Reading(st: NativeState, r: Result<Value>)

  function ErrorOf(r: Result<int>): (e: Option<Error>)
    ensures e.None? <==> r.Ok?
    ensures e.Some? ==> e.value == r.error
  {
    if r.Err? then Some(r.error) else None
  }

  /** One status-checked call whose status alone matters. */
  function CallOnly(st: NativeState, req: Request, expected: set<int>): Effect
  {
    Effect(Respond(st, req), ErrorOf(Checked(st, req, true, expected)))
  }

  // ---------------------------------------------------------------------
  // Queries.

  /** `type`: the edition name for the type code 1, 2 or 3. */
  function TypeName(code: int): (r: Result<string>)
    ensures r.Ok? <==> 1 <= code <= 3
    ensures r.Ok? ==> r.value == All[code - 1].id && Get(r.value) == Ok(All[code - 1])
    ensures r.Err? ==> r.error == UnexpectedType(code)
  {
    if code == 1 then Ok("basic")
    else if code == 2 then Ok("banana")
    else if code == 3 then Ok("potato")
    else Err(UnexpectedType(code))
  }

  /** The four bytes of the 32-bit version word, most significant first. A
      negative `c_long` is taken by its two's-complement bits, so the word is
      read modulo 2^32; masking and shifting such a word is division and
      remainder by powers of 256. */
  function Unpack(w: int): (v: (int, int, int, int))
    ensures 0 <= v.0 < 0x100 && 0 <= v.1 < 0x100 && 0 <= v.2 < 0x100 && 0 <= v.3 < 0x100
    ensures v.0 * 0x100_0000 + v.1 * 0x1_0000 + v.2 * 0x100 + v.3 == w % 0x1_0000_0000
  {
    var u := w % 0x1_0000_0000;
    Digits(u);
    (u / 0x100_0000, u / 0x1_0000 % 0x100, u / 0x100 % 0x100, u % 0x100)
  }

  lemma Digits(u: int)
    requires 0 <= u < 0x1_0000_0000
    ensures u / 0x100_0000 < 0x100
    ensures u / 0x100_0000 * 0x100_0000 + u / 0x1_0000 % 0x100 * 0x1_0000 + u / 0x100 % 0x100 * 0x100 + u % 0x100 == u
  {
    var a := u / 0x100_0000;
    var b := u / 0x1_0000;
    var c := u / 0x100;
    assert u == c * 0x100 + u % 0x100;
    assert u == b * 0x1_0000 + u % 0x1_0000;
    assert u == a * 0x100_0000 + u % 0x100_0000;
    assert c / 0x100 == b;
    assert b / 0x100 == a;
    assert c == b * 0x100 + c % 0x100;
    assert b == a * 0x100 + b % 0x100;
  }

  /** Distinct version words modulo 2^32 unpack to distinct tuples. */
  lemma UnpackInjective(w1: int, w2: int)
    ensures Unpack(w1) == Unpack(w2) <==> w1 % 0x1_0000_0000 == w2 % 0x1_0000_0000
  {
  }

  /** `dirty`: the dirty check accepts status 0 or 1 and answers whether it was 1. */
  function DirtyOf(st: NativeState): (r: Result<bool>)
    ensures r.Err? <==> Status(st, IsParametersDirty) !in {0, 1}
    ensures r.Ok? ==> (r.value <==> Status(st, IsParametersDirty) == 1)
    ensures Healthy(st) ==> r == Ok(st.dirty)
  {
    var c := Checked(st, IsParametersDirty, true, {0, 1});
    if c.Err? then Err(c.error) else Ok(c.value == 1)
  }

  // ---------------------------------------------------------------------
  // Reading and writing one parameter.

  /** The request `get` issues: a wide-string read or a float read. */
  function ReadRequest(param: string, str: bool): Request
  {
    if str then GetStringW(param) else GetFloat(param)
  }

  /** `buf.value` after a read: a float or a string; nothing else is read. */
  function ToValue(o: Out): Value
  {
    match o
    case Chars(s) => Text(s)
    case Float(x) => Num(x)
    case Long(n) => Num(n as real)
    case NoOut => Num(0.0)
  }

  /** `get(param, string)`: the dirty check, then one status-checked read.
      The cached value is never consulted, so nothing here depends on it. */
  function Read(st: NativeState, param: string, str: bool): Reading
  {
    var st1 := Respond(st, IsParametersDirty);
    var d := DirtyOf(st);
    if d.Err? then Reading(st1, Err(d.error))
    else
      var req := ReadRequest(param, str);
      var c := Checked(st1, req, true, {0});
      Reading(Respond(st1, req), if c.Err? then Err(c.error) else Ok(ToValue(Output(st1, req))))
  }

  /** A read issues the dirty check and, unless that fails, exactly one Get
      call; it changes no parameter; on a healthy library it returns the
      stored value. */
  lemma ReadEffect(st: NativeState, param: string, str: bool)
    ensures Read(st, param, str).st.params == st.params
    ensures Read(st, param, str).r.Ok? ==>
      Read(st, param, str).st.trace == st.trace + [IsParametersDirty, ReadRequest(param, str)]
    ensures Read(st, param, str).r.Err? ==>
      || Read(st, param, str).st.trace == st.trace + [IsParametersDirty]
      || Read(st, param, str).st.trace == st.trace + [IsParametersDirty, ReadRequest(param, str)]
    ensures Healthy(st) ==>
      Read(st, param, str).r == Ok(if str then Text(StoredString(st, param)) else Num(StoredFloat(st, param)))
  {
  }

  /** The longest string `set` accepts is one shorter than this. */
  const StringLimit: nat := 512

  /** The setter call `set` issues: a string is written as a string; a
      bool or number as a float (`float(True)` is 1.0). */
  function WriteRequest(param: string, val: Scalar): Request
  {
    match val
    case Str(s) => SetStringW(param, s)
    case Bool(b) => SetFloat(param, if b then 1.0 else 0.0)
    case Number(x) => SetFloat(param, x)
  }

  /** What a healthy library then stores under the parameter. */
  function Stored(val: Scalar): Value
  {
    match val
    case Str(s) => Text(s)
    case Bool(b) => Num(if b then 1.0 else 0.0)
    case Number(x) => Num(x)
  }

  function TooLong(val: Scalar): bool
  {
    val.Str? && |val.s| >= StringLimit
  }

  /** `set(param, val)`: a string of 512 characters or more is refused
      before any call; otherwise one status-checked setter call. */
  function Write(st: NativeState, param: string, val: Scalar): (e: Effect)
    ensures TooLong(val) ==> e == Effect(st, Some(StringTooLong(|val.s|)))
    ensures !TooLong(val) ==> e.st.trace == st.trace + [WriteRequest(param, val)]
    ensures !TooLong(val) && Healthy(st) ==> e.err.None? && e.st.params == st.params[param := Stored(val)]
    ensures e.st.failures == st.failures
  {
    if TooLong(val) then Effect(st, Some(StringTooLong(|val.s|)))
    else CallOnly(st, WriteRequest(param, val), {0})
  }

  /** Writing a value and reading the parameter back through a healthy
      library yields the value as stored. */
  lemma WriteThenRead(st: NativeState, param: string, val: Scalar)
    requires Healthy(st) && !TooLong(val)
    ensures Read(Write(st, param, val).st, param, val.Str?).r == Ok(Stored(val))
  {
  }

  // ---------------------------------------------------------------------
  // Fields of elements.

  /** One pending `set`. */
  datatype Assignment = Assignment(param: string, val: Scalar)

  /** What assigning `v` to field `name` of element `e` writes, or why it
      cannot: an undeclared field, or a value the field cannot encode. */
  function FieldWrite(k: Kind, e: Element, name: string, v: Tree): (r: Result<Assignment>)
    ensures name !in Fields(k, e) ==> r == Err(UnknownField(name))
    ensures name in Fields(k, e) ==>
      var f := Fields(k, e)[name];
      && (r.Ok? <==> Encode(f, name, v).Ok?)
      && (r.Ok? ==> r.value == Assignment(Address(e, f.param), Encode(f, name, v).value))
      && (r.Err? ==> r.error == NotConvertible(name))
  {
    if name !in Fields(k, e) then Err(UnknownField(name))
    else
      var f := Fields(k, e)[name];
      var x := Encode(f, name, v);
      if x.Err? then Err(x.error) else Ok(Assignment(Address(e, f.param), x.value))
  }

  /** The value a field's getter yields after `get` returned `r`. */
  function FieldValue(c: Codec, r: Result<Value>): Result<Scalar>
  {
    if r.Err? then Err(r.error) else Ok(Decode(c, r.value))
  }

  /** Setting a bool field and reading it back through a healthy library
      yields the truthiness of the value set; setting a string field to a
      short string and reading it back yields that string. */
  lemma FieldRoundTrip(st: NativeState, k: Kind, e: Element, name: string, v: Tree)
    requires Healthy(st) && name in Fields(k, e)
    requires FieldWrite(k, e, name, v).Ok?
    requires !TooLong(FieldWrite(k, e, name, v).value.val)
    ensures var f := Fields(k, e)[name];
      var w := FieldWrite(k, e, name, v).value;
      var back := FieldValue(f.codec, Read(Write(st, w.param, w.val).st, w.param, f.codec == StrProp).r);
      && (f.codec == BoolProp ==> back == Ok(Bool(Truthy(v))))
      && (f.codec == StrProp && v.Leaf? && v.value.Str? ==> back == Ok(v.value))
  {
    var w := FieldWrite(k, e, name, v).value;
    WriteThenRead(st, w.param, w.val);
  }

  // ---------------------------------------------------------------------
  // Running a sequence of writes.

  /** The writes in order, stopping at the first that raises. */
  function RunWrites(st: NativeState, ws: seq<Assignment>): Effect
  {
    if ws == [] then Effect(st, None)
    else
      var before := RunWrites(st, ws[..|ws| - 1]);
      if before.err.Some? then before
      else Write(before.st, ws[|ws| - 1].param, ws[|ws| - 1].val)
  }

  /** The writes an operation makes, then the error it raises afterwards, if any. */
  datatype Plan = Plan(writes: seq<Assignment>, failure: Option<Error>)

  function Run(st: NativeState, p: Plan): Effect
  {
    var e := RunWrites(st, p.writes);
    if e.err.Some? then e else Effect(e.st, p.failure)
  }

  /** Running two runs of writes one after the other is running their
      concatenation. */
  lemma {:induction false} RunWritesAppend(st: NativeState, a: seq<Assignment>, b: seq<Assignment>)
    ensures RunWrites(st, a + b) ==
      var e := RunWrites(st, a);
      if e.err.Some? then e else RunWrites(e.st, b)
  {
    if b != [] {
      RunWritesAppend(st, a, b[..|b| - 1]);
      assert (a + b)[..|a + b| - 1] == a + b[..|b| - 1];
    } else {
      assert a + b == a;
    }
  }

  /** A plan that raises nothing after its writes, followed by another plan. */
  lemma RunThen(st: NativeState, p: Plan, q: Plan)
    requires p.failure.None?
    ensures Run(st, Plan(p.writes + q.writes, q.failure)) ==
      var e := Run(st, p);
      if e.err.Some? then e else Run(e.st, q)
  {
    RunWritesAppend(st, p.writes, q.writes);
  }

  /** A plan extended by one write. */
  lemma RunSnoc(st: NativeState, ws: seq<Assignment>, w: Assignment)
    ensures RunWrites(st, ws + [w]) ==
      var e := RunWrites(st, ws);
      if e.err.Some? then e else Write(e.st, w.param, w.val)
  {
    assert (ws + [w])[..|ws + [w]| - 1] == ws;
  }

  /** On a healthy library, writes of values that are not over-long strings
      all succeed, issue one call each, and leave each written parameter
      holding the last value written to it. */
  lemma {:induction false} RunWritesHealthy(st: NativeState, ws: seq<Assignment>)
    requires Healthy(st)
    requires forall j :: 0 <= j < |ws| ==> !TooLong(ws[j].val)
    ensures RunWrites(st, ws).err.None?
    ensures Healthy(RunWrites(st, ws).st)
    ensures |RunWrites(st, ws).st.trace| == |st.trace| + |ws|
    ensures forall j :: 0 <= j < |ws| && (forall l :: j < l < |ws| ==> ws[l].param != ws[j].param) ==>
      && ws[j].param in RunWrites(st, ws).st.params
      && RunWrites(st, ws).st.params[ws[j].param] == Stored(ws[j].val)
  {
    if ws != [] {
      var init, last := ws[..|ws| - 1], ws[|ws| - 1];
      assert forall j :: 0 <= j < |init| ==> init[j] == ws[j];
      RunWritesHealthy(st, init);
      var before := RunWrites(st, init);
      assert RunWrites(st, ws) == Write(before.st, last.param, last.val);
      var params := before.st.params[last.param := Stored(last.val)];
      forall j | 0 <= j < |ws| && (forall l :: j < l < |ws| ==> ws[l].param != ws[j].param)
        ensures ws[j].param in params && params[ws[j].param] == Stored(ws[j].val)
      {
        if j < |init| {
          assert last.param != ws[j].param;
          assert forall l :: j < l < |init| ==> init[l].param != init[j].param;
        }
      }
    }
  }

  // ---------------------------------------------------------------------
  // `apply`.

  /** An element's share of `apply`: its fields assigned in order, stopping
      at the first field that cannot be written. What running it means, one
      field at a time, is stated by ElementPlanNext and ElementPlanStops. */
  function ElementPlan(k: Kind, e: Element, d: Dict): (p: Plan)
    ensures |p.writes| <= |d|
  {
    if d == [] then Plan([], None)
    else
      var p := ElementPlan(k, e, d[..|d| - 1]);
      if p.failure.Some? then p
      else
        var w := FieldWrite(k, e, d[|d| - 1].key, d[|d| - 1].val);
        if w.Err? then Plan(p.writes, Some(w.error)) else Plan(p.writes + [w.value], None)
  }

  /** Once a prefix of the fields has failed, the later fields change
      nothing: `apply` has already raised. */
  lemma {:induction false} ElementPlanStops(st: NativeState, k: Kind, e: Element, d: Dict, n: nat)
    requires n <= |d| && Run(st, ElementPlan(k, e, d[..n])).err.Some?
    ensures Run(st, ElementPlan(k, e, d)) == Run(st, ElementPlan(k, e, d[..n]))
    decreases |d| - n
  {
    if n == |d| {
      assert d[..n] == d;
    } else {
      var d' := d[..|d| - 1];
      assert d'[..n] == d[..n];
      ElementPlanStops(st, k, e, d', n);
      var p := ElementPlan(k, e, d');
      if p.failure.None? {
        var w := FieldWrite(k, e, d[|d| - 1].key, d[|d| - 1].val);
        if w.Ok? {
          RunSnoc(st, p.writes, w.value);
        }
      }
    }
  }

  /** A write the model may refuse before the library sees it: the refusal,
      with nothing called, or the write itself. */
  function Attempt(st: NativeState, w: Result<Assignment>): Effect
  {
    if w.Err? then Effect(st, Some(w.error)) else Write(st, w.value.param, w.value.val)
  }

  /** One field more: once the first `i` fields have been assigned without
      error, the next one adds its write, or raises its error. */
  lemma ElementPlanNext(st: NativeState, k: Kind, e: Element, d: Dict, i: nat)
    requires i < |d|
    requires ElementPlan(k, e, d[..i]).failure.None? && Run(st, ElementPlan(k, e, d[..i])).err.None?
    ensures var w := FieldWrite(k, e, d[i].key, d[i].val);
      && Run(st, ElementPlan(k, e, d[..i + 1])) == Attempt(Run(st, ElementPlan(k, e, d[..i])).st, w)
      && (w.Ok? ==> ElementPlan(k, e, d[..i + 1]).failure.None?)
  {
    assert d[..i + 1][..i] == d[..i] && d[..i + 1][i] == d[i];
    var w := FieldWrite(k, e, d[i].key, d[i].val);
    if w.Ok? {
      RunSnoc(st, ElementPlan(k, e, d[..i]).writes, w.value);
    }
  }

  /** One step of `apply` on an element, as the loop takes it: the attempt
      on field `i` either continues the plan or ends the element's plan. */
  lemma ElementStep(st: NativeState, k: Kind, e: Element, d: Dict, i: nat, after: Effect)
    requires i < |d| && ElementPlan(k, e, d[..i]).failure.None?
    requires Run(st, ElementPlan(k, e, d[..i])).err.None?
    requires after == Attempt(Run(st, ElementPlan(k, e, d[..i])).st, FieldWrite(k, e, d[i].key, d[i].val))
    ensures after.err.None? ==>
      ElementPlan(k, e, d[..i + 1]).failure.None? && after == Run(st, ElementPlan(k, e, d[..i + 1]))
    ensures after.err.Some? ==> after == Run(st, ElementPlan(k, e, d))
  {
    ElementPlanNext(st, k, e, d, i);
    if after.err.Some? {
      ElementPlanStops(st, k, e, d, i + 1);
    }
  }

  /** Where an `apply` key points: the family and the index. */
  datatype Target = Target(family: Family, index: nat)

  /** `strip, index = key.split('-')` and `int(index)`: exactly two parts and
      a decimal index, then `in`/`input` or `out`/`output`. The index is
      parsed before the family is checked. */
  function ParseKey(key: string): Result<Target>
  {
    var parts := Split(key, '-');
    if |parts| != 2 then Err(BadKey(key))
    else
      var index := ParseNat(parts[1]);
      if index.None? then Err(BadKey(key))
      else if parts[0] == "in" || parts[0] == "input" then Ok(Target(InputStrip, index.value))
      else if parts[0] == "out" || parts[0] == "output" then Ok(Target(OutputBus, index.value))
      else Err(UnknownStrip(parts[0]))
  }

  /** A key `<word>-<i>` parses by its word: `in`/`input` name the input
      and `out`/`output` the output of index `i`. */
  lemma ParseWordKey(word: string, i: nat)
    requires '-' !in word
    ensures ParseKey(word + ['-'] + NatToString(i)) ==
      if word == "in" || word == "input" then Ok(Target(InputStrip, i))
      else if word == "out" || word == "output" then Ok(Target(OutputBus, i))
      else Err(UnknownStrip(word))
  {
    var n := NatToString(i);
    assert '-' !in n;
    SplitOnce(word, n, '-');
    ParseNatToString(i);
  }

  /** The keys the profiles use parse back to the element they name. */
  lemma ParseKeyRoundTrip(i: nat)
    ensures ParseKey(InKey(i)) == Ok(Target(InputStrip, i))
    ensures ParseKey(OutKey(i)) == Ok(Target(OutputBus, i))
  {
    var n := NatToString(i);
    assert ParseKey(InKey(i)) == Ok(Target(InputStrip, i)) by {
      ParseWordKey("in", i);
      assert InKey(i) == "in" + ['-'] + n;
    }
    assert ParseKey(OutKey(i)) == Ok(Target(OutputBus, i)) by {
      ParseWordKey("out", i);
      assert OutKey(i) == "out" + ['-'] + n;
    }
  }

  /** The long forms `input-i` and `output-i` name the same elements. */
  lemma ParseKeyLongForms(i: nat)
    ensures ParseKey("input-" + NatToString(i)) == Ok(Target(InputStrip, i))
    ensures ParseKey("output-" + NatToString(i)) == Ok(Target(OutputBus, i))
  {
    var n := NatToString(i);
    assert ParseKey("input-" + n) == Ok(Target(InputStrip, i)) by {
      ParseWordKey("input", i);
      assert "input-" + n == "input" + ['-'] + n;
    }
    assert ParseKey("output-" + n) == Ok(Target(OutputBus, i)) by {
      ParseWordKey("output", i);
      assert "output-" + n == "output" + ['-'] + n;
    }
  }

  /** A key splits into exactly two parts only when it holds exactly one `-`. */
  lemma ParseKeyNeedsOneDash(key: string)
    requires ParseKey(key).Ok? || ParseKey(key) == Err(UnknownStrip(Split(key, '-')[0]))
    ensures Count(key, '-') == 1
  {
    SplitLength(key, '-');
  }

  /** `self.inputs[index]` / `self.outputs[index]` for an `apply` key. */
  function Select(inputs: seq<Element>, outputs: seq<Element>, key: string): (r: Result<Element>)
    ensures r.Ok? ==> r.value in inputs + outputs
  {
    var t := ParseKey(key);
    if t.Err? then Err(t.error)
    else
      var elems := if t.value.family == InputStrip then inputs else outputs;
      if t.value.index < |elems| then Ok(elems[t.value.index]) else Err(IndexOutOfRange(t.value.index))
  }

  /** `apply(mapping)`: for each key in order, the element it selects gets its
      sub-mapping assigned; the first key or field that fails ends it. */
  function ApplyPlan(k: Kind, inputs: seq<Element>, outputs: seq<Element>, m: Dict): Plan
  {
    if m == [] then Plan([], None)
    else
      var p := ApplyPlan(k, inputs, outputs, m[..|m| - 1]);
      var last := m[|m| - 1];
      if p.failure.Some? then p
      else
        var e := Select(inputs, outputs, last.key);
        if e.Err? then Plan(p.writes, Some(e.error))
        else if last.val.Leaf? then Plan(p.writes, Some(NotAMapping(last.key)))
        else
          var q := ElementPlan(k, e.value, last.val.entries);
          Plan(p.writes + q.writes, q.failure)
  }

  /** `_make_remote`'s layout: `numA + numB` input strips, the first `numA`
      physical, and as many output buses, the first `numB` physical. */
  function Inputs(k: Kind): (s: seq<Element>)
    ensures |s| == k.numA + k.numB
    ensures forall i :: 0 <= i < |s| ==> s[i] == Element(InputStrip, i < k.numA, i)
  {
    seq(k.numA + k.numB, i requires 0 <= i < k.numA + k.numB => Element(InputStrip, i < k.numA, i))
  }

  function Outputs(k: Kind): (s: seq<Element>)
    ensures |s| == k.numA + k.numB
    ensures forall i :: 0 <= i < |s| ==> s[i] == Element(OutputBus, i < k.numB, i)
  {
    seq(k.numA + k.numB, i requires 0 <= i < k.numA + k.numB => Element(OutputBus, i < k.numB, i))
  }

  /** Which bus variant `make` picks makes no difference: both declare the
      same fields, so they accept the same assignments. */
  lemma OutputVariantsAgree(k: Kind, i: nat, name: string, v: Tree)
    ensures FieldWrite(k, Element(OutputBus, true, i), name, v) == FieldWrite(k, Element(OutputBus, false, i), name, v)
  {
  }

  /** Every `in-i`/`out-i` key selects the element the layout has there. */
  lemma SelectLayout(k: Kind, i: nat)
    requires i < k.numA + k.numB
    ensures Select(Inputs(k), Outputs(k), InKey(i)) == Ok(Inputs(k)[i])
    ensures Select(Inputs(k), Outputs(k), OutKey(i)) == Ok(Outputs(k)[i])
  {
    ParseKeyRoundTrip(i);
  }

  /** Once a prefix of the mapping has failed, the later keys change
      nothing. */
  lemma {:induction false} ApplyPlanStops(st: NativeState, k: Kind, inputs: seq<Element>, outputs: seq<Element>, m: Dict, n: nat)
    requires n <= |m| && Run(st, ApplyPlan(k, inputs, outputs, m[..n])).err.Some?
    ensures Run(st, ApplyPlan(k, inputs, outputs, m)) == Run(st, ApplyPlan(k, inputs, outputs, m[..n]))
    decreases |m| - n
  {
    if n == |m| {
      assert m[..n] == m;
    } else {
      var m' := m[..|m| - 1];
      assert m'[..n] == m[..n];
      ApplyPlanStops(st, k, inputs, outputs, m', n);
      var p := ApplyPlan(k, inputs, outputs, m');
      var last := m[|m| - 1];
      if p.failure.None? {
        var e := Select(inputs, outputs, last.key);
        if e.Ok? && last.val.Node? {
          RunThen(st, p, ElementPlan(k, e.value, last.val.entries));
        }
      }
    }
  }

  /** One key more: once the first `i` keys have been applied without error,
      the next one raises if it selects nothing or holds no mapping, and
      otherwise runs its element's plan. */
  lemma ApplyPlanNext(st: NativeState, k: Kind, inputs: seq<Element>, outputs: seq<Element>, m: Dict, i: nat)
    requires i < |m|
    requires ApplyPlan(k, inputs, outputs, m[..i]).failure.None?
    requires Run(st, ApplyPlan(k, inputs, outputs, m[..i])).err.None?
    ensures var mid := Run(st, ApplyPlan(k, inputs, outputs, m[..i])).st;
      var t := Select(inputs, outputs, m[i].key);
      var next := ApplyPlan(k, inputs, outputs, m[..i + 1]);
      && (t.Err? ==> Run(st, next) == Effect(mid, Some(t.error)))
      && (t.Ok? && m[i].val.Leaf? ==> Run(st, next) == Effect(mid, Some(NotAMapping(m[i].key))))
      && (t.Ok? && m[i].val.Node? ==>
            && Run(st, next) == Run(mid, ElementPlan(k, t.value, m[i].val.entries))
            && next.failure == ElementPlan(k, t.value, m[i].val.entries).failure)
  {
    assert m[..i + 1][..i] == m[..i] && m[..i + 1][i] == m[i];
    var t := Select(inputs, outputs, m[i].key);
    if t.Ok? && m[i].val.Node? {
      RunThen(st, ApplyPlan(k, inputs, outputs, m[..i]), ElementPlan(k, t.value, m[i].val.entries));
    }
  }

  // ---------------------------------------------------------------------
  // Applying the blank profile.

  /** A mapping of fields that all write 0.0 yields one zero write per field. */
  predicate ZeroWrites(ws: seq<Assignment>)
  {
    forall j :: 0 <= j < |ws| ==> ws[j].val == Number(0.0)
  }

  lemma {:induction false} ElementPlanZero(k: Kind, e: Element, d: Dict)
    requires forall j :: 0 <= j < |d| ==>
      FieldWrite(k, e, d[j].key, d[j].val).Ok? && FieldWrite(k, e, d[j].key, d[j].val).value.val == Number(0.0)
    ensures ElementPlan(k, e, d).failure.None? && ZeroWrites(ElementPlan(k, e, d).writes)
  {
    if d != [] {
      ElementPlanZero(k, e, d[..|d| - 1]);
    }
  }

  /** Each value of the blank input configuration is 0.0 at `gain` and False elsewhere. */
  lemma InputConfigValues(k: Kind, j: nat)
    requires j < |InputConfig(k)|
    ensures InputConfig(k)[j].val == if InputConfig(k)[j].key == "gain" then Zero else Off
  {
    var c, a, b := CommonInput, RoutingA(k), RoutingB(k);
    assert InputConfig(k) == c + a + b;
    if j >= |c| + |a| {
      assert InputConfig(k)[j] == b[j - |c| - |a|];
      assert b[j - |c| - |a|].key[0] == 'B';
    } else if j >= |c| {
      assert InputConfig(k)[j] == a[j - |c|];
      assert a[j - |c|].key[0] == 'A';
    }
  }

  /** A field of the blank input entry is a field of every input strip:
      `gain` the float field `Gain`, every other one a bool field. */
  lemma BlankInputField(k: Kind, physical: bool, key: string)
    requires key in KeySet(InputConfig(k))
    ensures key in InputFields(k, physical)
    ensures key == "gain" ==> InputFields(k, physical)[key] == Field("Gain", FloatProp)
    ensures key != "gain" ==> InputFields(k, physical)[key].codec == BoolProp
  {
    KeySetAppend(CommonInput + RoutingA(k), RoutingB(k));
    KeySetAppend(CommonInput, RoutingA(k));
    CommonInputKeys(key);
    if key in KeySet(CommonInput) {
      InputVariants(k, physical);
      BlankCommonFields();
      assert key == "gain" || key == "solo" || key == "mute" || key == "mono";
    } else {
      RoutingNamesMatchProfile(k);
      assert key in RoutingNames(k);
      BlankFieldsKnown(k, physical, key);
    }
  }

  /** Every field of a blank input entry writes 0.0 to an input strip. */
  lemma BlankInputWrites(k: Kind, e: Element, j: nat)
    requires e.family == InputStrip && j < |InputConfig(k)|
    ensures FieldWrite(k, e, InputConfig(k)[j].key, InputConfig(k)[j].val).Ok?
    ensures FieldWrite(k, e, InputConfig(k)[j].key, InputConfig(k)[j].val).value.val == Number(0.0)
  {
    var key := InputConfig(k)[j].key;
    assert key in KeySet(InputConfig(k));
    BlankInputField(k, e.physical, key);
    InputConfigValues(k, j);
  }

  /** Every field of a blank output entry writes 0.0 to an output bus. */
  lemma BlankOutputWrites(k: Kind, e: Element, j: nat)
    requires e.family == OutputBus && j < |OutputConfig|
    ensures FieldWrite(k, e, OutputConfig[j].key, OutputConfig[j].val).Ok?
    ensures FieldWrite(k, e, OutputConfig[j].key, OutputConfig[j].val).value.val == Number(0.0)
  {
  }

  /** Entry `j` of the blank profile: `in-j` first, then `out-(j-n)`. */
  lemma BlankEntry(k: Kind, j: nat)
    requires j < |Blank(k)|
    ensures |Blank(k)| == 2 * (k.numA + k.numB)
    ensures j < k.numA + k.numB ==> Blank(k)[j] == Entry(InKey(j), Node(InputConfig(k)))
    ensures j >= k.numA + k.numB ==> Blank(k)[j] == Entry(OutKey(j - (k.numA + k.numB)), Node(OutputConfig))
  {
    var n := k.numA + k.numB;
    assert Blank(k) == BlankInputs(k) + BlankOutputs(k);
    if j >= n {
      assert Blank(k)[j] == BlankOutputs(k)[j - n];
    }
  }

  /** Entry `j` of the blank profile selects an element and writes 0.0 to
      each of its fields. */
  lemma BlankEntryPlan(k: Kind, j: nat)
    requires j < |Blank(k)|
    ensures ZeroEntry(k, Blank(k)[j])
  {
    var n := k.numA + k.numB;
    BlankEntry(k, j);
    if j < n {
      SelectLayout(k, j);
      forall l | 0 <= l < |InputConfig(k)|
        ensures FieldWrite(k, Inputs(k)[j], InputConfig(k)[l].key, InputConfig(k)[l].val).Ok?
        ensures FieldWrite(k, Inputs(k)[j], InputConfig(k)[l].key, InputConfig(k)[l].val).value.val == Number(0.0)
      {
        BlankInputWrites(k, Inputs(k)[j], l);
      }
      ElementPlanZero(k, Inputs(k)[j], InputConfig(k));
    } else {
      SelectLayout(k, j - n);
      forall l | 0 <= l < |OutputConfig|
        ensures FieldWrite(k, Outputs(k)[j - n], OutputConfig[l].key, OutputConfig[l].val).Ok?
        ensures FieldWrite(k, Outputs(k)[j - n], OutputConfig[l].key, OutputConfig[l].val).value.val == Number(0.0)
      {
        BlankOutputWrites(k, Outputs(k)[j - n], l);
      }
      ElementPlanZero(k, Outputs(k)[j - n], OutputConfig);
    }
  }

  /** An entry that selects an element of the layout and assigns it only
      zero writes. */
  predicate ZeroEntry(k: Kind, e: Entry)
  {
    && Select(Inputs(k), Outputs(k), e.key).Ok? && e.val.Node?
    && var q := ElementPlan(k, Select(Inputs(k), Outputs(k), e.key).value, e.val.entries);
       q.failure.None? && ZeroWrites(q.writes)
  }

  /** A mapping of such entries is applied without error by zero writes only. */
  lemma {:induction false} ApplyPlanZero(k: Kind, m: Dict)
    requires forall j :: 0 <= j < |m| ==> ZeroEntry(k, m[j])
    ensures ApplyPlan(k, Inputs(k), Outputs(k), m).failure.None?
    ensures ZeroWrites(ApplyPlan(k, Inputs(k), Outputs(k), m).writes)
  {
    if m != [] {
      var j := |m| - 1;
      forall i | 0 <= i < j ensures ZeroEntry(k, m[..j][i]) {
        assert m[..j][i] == m[i];
      }
      ApplyPlanZero(k, m[..j]);
      assert ZeroEntry(k, m[j]);
    }
  }

  /** Writes of 0.0 to a healthy library all succeed and leave every written
      parameter at 0.0. */
  lemma {:induction false} RunZeroWrites(st: NativeState, ws: seq<Assignment>)
    requires Healthy(st) && ZeroWrites(ws)
    ensures RunWrites(st, ws).err.None? && Healthy(RunWrites(st, ws).st)
    ensures forall j :: 0 <= j < |ws| ==>
      ws[j].param in RunWrites(st, ws).st.params && RunWrites(st, ws).st.params[ws[j].param] == Num(0.0)
  {
    if ws != [] {
      var init := ws[..|ws| - 1];
      RunZeroWrites(st, init);
      forall j | 0 <= j < |ws| - 1 ensures init[j] == ws[j] { }
    }
  }

  /** Applying the blank profile through a healthy library raises nothing,
      and afterwards every parameter it wrote holds 0.0: every flag is off,
      and every gain is 0.0 as float fields pass their value through
      unscaled. */
  lemma BlankApplies(k: Kind, st: NativeState)
    requires Healthy(st)
    ensures Run(st, ApplyPlan(k, Inputs(k), Outputs(k), Blank(k))).err.None?
    ensures var p := ApplyPlan(k, Inputs(k), Outputs(k), Blank(k));
      forall j :: 0 <= j < |p.writes| ==>
        p.writes[j].param in Run(st, p).st.params && Run(st, p).st.params[p.writes[j].param] == Num(0.0)
  {
    forall j | 0 <= j < |Blank(k)| ensures ZeroEntry(k, Blank(k)[j]) {
      BlankEntryPlan(k, j);
    }
    ApplyPlanZero(k, Blank(k));
    RunZeroWrites(st, ApplyPlan(k, Inputs(k), Outputs(k), Blank(k)).writes);
  }

  // ---------------------------------------------------------------------
  // `apply_profile`.

  /** The profile `apply_profile(name)` applies: the named profile, or, when
      it `extends` another, the two merged (base first) without the
      `extends` key. A missing name or base is an unknown profile; a mapping
      as the base's name cannot be looked up at all. */
  function Resolve(profiles: map<string, Dict>, kindId: string, name: string): Result<Dict>
  {
    if name !in profiles then Err(UnknownProfile(kindId, name))
    else
      var profile := profiles[name];
      var ext := Lookup(profile, "extends");
      if ext.None? then Ok(profile)
      else if ext.value.Node? then Err(UnhashableName)
      else if !ext.value.value.Str? || ext.value.value.s !in profiles then Err(UnknownProfile(kindId, name))
      else
        var merged := MergedAll([], [profiles[ext.value.value.s], profile]);
        if merged.Err? then Err(merged.error) else Ok(Remove(merged.value, "extends"))
  }

  /** A profile that extends another resolves to the base with the child
      merged over it, key by key, and without `extends`; the table itself is
      left as it was, so the child keeps its `extends` entry. */
  lemma ResolveExtends(profiles: map<string, Dict>, kindId: string, name: string, key: string)
    requires name in profiles && WellFormed(profiles[name])
    requires Lookup(profiles[name], "extends").Some? && Lookup(profiles[name], "extends").value.Leaf?
    requires Lookup(profiles[name], "extends").value.value.Str?
    requires Lookup(profiles[name], "extends").value.value.s in profiles
    requires WellFormed(profiles[Lookup(profiles[name], "extends").value.value.s])
    requires Resolve(profiles, kindId, name).Ok?
    ensures var base := profiles[Lookup(profiles[name], "extends").value.value.s];
      var child := profiles[name];
      var res := Resolve(profiles, kindId, name).value;
      && KeySet(res) == KeySet(base) + KeySet(child) - {"extends"}
      && (key != "extends" && key !in KeySet(child) ==> Lookup(res, key) == Lookup(base, key))
      && (key != "extends" && key in KeySet(child) ==>
            Incoming(key, Lookup(base, key), Lookup(child, key).value).Ok?
            && Lookup(res, key) == Some(Incoming(key, Lookup(base, key), Lookup(child, key).value).value))
  {
    var base := profiles[Lookup(profiles[name], "extends").value.value.s];
    var child := profiles[name];
    MergedIntoEmpty(base);
    assert MergedAll([], [base, child]) == Merged(base, child) by {
      var srcs := [base, child];
      assert srcs[0] == base && srcs[1..] == [child];
      assert MergedAll([], srcs) == MergedAll(base, [child]);
      assert [child][0] == child && [child][1..] == [];
      match Merged(base, child) {
        case Ok(d) => assert MergedAll(d, []) == Ok(d);
        case Err(_) =>
      }
    }
    MergedLookup(base, child, key);
  }

  /** A profile without `extends` resolves to itself. */
  lemma ResolvePlain(profiles: map<string, Dict>, kindId: string, name: string)
    requires name in profiles && "extends" !in KeySet(profiles[name])
    ensures Resolve(profiles, kindId, name) == Ok(profiles[name])
  {
  }
}
