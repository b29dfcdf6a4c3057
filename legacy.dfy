/** The older `vmr` package: edition dispatch (vmr/remote.py `make`,
    vmr/__init__.py `connect`), its session object with a cache that does
    answer repeated reads (vmr/remote.py), the input-strip getters of
    vmr/input.py, and the validating strip of vmr/strips.py. */
module Legacy {
  import opened Errors
  import opened Native
  import opened Numerals
  import opened Kinds
  import opened Elements
  import opened Session

  /** The three session classes `VMBasicRemote`, `VMBananaRemote`, `VMPotatoRemote`. */
  datatype Edition = BasicRemote | BananaRemote | PotatoRemote

  /** The edition of the kind table each class stands for. */
  function KindOf(ed: Edition): Kind
  {
    match ed
    case BasicRemote => Basic
    case BananaRemote => Banana
    case PotatoRemote => Potato
  }

  /** `VMRemote.make(version)`: 1, 2 or `banana`, 3 or `potato`. */
  function Make(v: Version): (r: Result<Edition>)
    ensures r.Err? ==> r.error == InvalidVersion(v)
  {
    if v == Code(1) then Ok(BasicRemote)
    else if v == Code(2) || v == Name("banana") then Ok(BananaRemote)
    else if v == Code(3) || v == Name("potato") then Ok(PotatoRemote)
    else Err(InvalidVersion(v))
  }

  /** `connect(version)`: 1 or `basic`, 2 or `banana`, 3 or `potato`. */
  function Connect(v: Version): (r: Result<Edition>)
    ensures r.Err? ==> r.error == InvalidVersion(v)
  {
    if v == Code(1) || v == Name("basic") then Ok(BasicRemote)
    else if v == Code(2) || v == Name("banana") then Ok(BananaRemote)
    else if v == Code(3) || v == Name("potato") then Ok(PotatoRemote)
    else Err(InvalidVersion(v))
  }

  /** `connect` accepts a version exactly when it is the number 1..3 or the
      id of a kind in the table, and picks that kind's edition; `make` agrees
      with it everywhere except on `basic`, which `make` refuses. */
  lemma DispatchMatchesKinds(v: Version)
    ensures Connect(v).Ok? <==> (v.Code? && 1 <= v.n <= 3) || (v.Name? && Get(v.s).Ok?)
    ensures v.Code? && Connect(v).Ok? ==> KindOf(Connect(v).value) == All[v.n - 1]
    ensures v.Name? && Connect(v).Ok? ==> KindOf(Connect(v).value) == Get(v.s).value
    ensures v != Name("basic") ==> Make(v) == Connect(v)
    ensures Make(Name("basic")).Err? && Connect(Name("basic")) == Ok(BasicRemote)
  {
    assert All == [Basic, Banana, Potato];
  }

  /** `type`: the product name for the type code 1, 2 or 3. */
  function DisplayName(code: int): (r: Result<string>)
    ensures r.Ok? <==> TypeName(code).Ok?
    ensures r.Err? ==> r.error == UnexpectedType(code)
    ensures r.Ok? && code != 1 ==> r.value == "Voicemeeter " + All[code - 1].name
  {
    if code == 1 then Ok("Voicemeeter")
    else if code == 2 then Ok("Voicemeeter Banana")
    else if code == 3 then Ok("Voicemeeter Potato")
    else Err(UnexpectedType(code))
  }

  /** The inputs each class builds: 3, 5 or 8 strips, the first 2, 3 or 5
      physical. */
  function LegacyInputs(ed: Edition): seq<Element>
  {
    var (physical, total) := match ed
      case BasicRemote => (2, 2 + 1)
      case BananaRemote => (3, 3 + 2)
      case PotatoRemote => (5, 5 + 3);
    seq(total, i requires 0 <= i < total => Element(InputStrip, i < physical, i))
  }

  /** The literal counts of each class agree with the layout of its kind, so
      the older package builds the same strips as the newer one. */
  lemma LegacyInputsMatchLayout(ed: Edition)
    ensures LegacyInputs(ed) == Inputs(KindOf(ed))
    ensures |LegacyInputs(ed)| == KindOf(ed).numA + KindOf(ed).numB
  {
  }

  /** `_login`: the Login call, then the dirty check. */
  function LoginEffect(st: NativeState): Effect
  {
    var e := CallOnly(st, Request.Login, {0});
    if e.err.Some? then e
    else
      var d := DirtyOf(e.st);
      Effect(Respond(e.st, IsParametersDirty), if d.Err? then Some(d.error) else None)
  }

  /** The request `get` issues on a miss: a narrow or wide string read, or
      a float read. */
  function LegacyReadRequest(param: string, str: bool, ascii: bool): Request
  {
    if !str then GetFloat(param)
    else if ascii then GetStringA(param)
    else GetStringW(param)
  }

  /** `get(param, string, ascii)`: the dirty check; when nothing changed and
      the parameter is cached, the cached value; otherwise one read. The
      cache is keyed by the parameter alone. */
  function CachedRead(st: NativeState, cache: map<string, Value>, param: string, str: bool, ascii: bool): Reading
  {
    var st1 := Respond(st, IsParametersDirty);
    var d := DirtyOf(st);
    if d.Err? then Reading(st1, Err(d.error))
    else if !d.value && param in cache then Reading(st1, Ok(cache[param]))
    else
      var req := LegacyReadRequest(param, str, ascii);
      var c := Checked(st1, req, true, {0});
      Reading(Respond(st1, req), if c.Err? then Err(c.error) else Ok(ToValue(Output(st1, req))))
  }

  /** A hit issues only the dirty check and answers the cached value; a miss
      or a dirty library issues exactly one read after it, of the kind the
      flags select. */
  lemma CachedReadCalls(st: NativeState, cache: map<string, Value>, param: string, str: bool, ascii: bool)
    requires Healthy(st)
    ensures !st.dirty && param in cache ==>
      && CachedRead(st, cache, param, str, ascii).r == Ok(cache[param])
      && CachedRead(st, cache, param, str, ascii).st.trace == st.trace + [IsParametersDirty]
    ensures st.dirty || param !in cache ==>
      && CachedRead(st, cache, param, str, ascii).st.trace == st.trace + [IsParametersDirty, LegacyReadRequest(param, str, ascii)]
      && CachedRead(st, cache, param, str, ascii).r ==
           Ok(if str then Text(StoredString(st, param)) else Num(StoredFloat(st, param)))
  {
  }

  /** Unlike the newer session's read, a hit ignores what is stored now: a
      parameter changed behind the cache's back without raising the dirty
      flag is answered from the cache. */
  lemma CachedReadDiffersFromRead(st: NativeState, cache: map<string, Value>, param: string)
    requires Healthy(st) && !st.dirty && param in cache && cache[param] != Num(StoredFloat(st, param))
    ensures CachedRead(st, cache, param, false, false).r != Read(st, param, false).r
  {
  }

  /** The getters of vmr/input.py that read a parameter as it is: `solo`,
      `mute` and `label` on both variants, `mono` and `device_name` on the
      physical one, `mc` on the virtual one (which reads `Mono`). */
  function LegacyFields(physical: bool): map<string, Field>
  {
    var common := map["solo" := Field("Solo", BoolProp), "mute" := Field("Mute", BoolProp), "label" := Field("Label", StrProp)];
    if physical then common["mono" := Field("Mono", BoolProp)]["device_name" := Field("device", StrProp)]
    else common["mc" := Field("Mono", BoolProp)]
  }

  /** Physical `mono` and virtual `mc` both read `Mono` as a bool, and each
      exists on its own variant only; in the newer package the virtual
      strip's `mono` addresses `MC` instead. */
  lemma MonoAndMc(k: Kind)
    ensures LegacyFields(true)["mono"] == LegacyFields(false)["mc"] == Field("Mono", BoolProp)
    ensures "mc" !in LegacyFields(true) && "mono" !in LegacyFields(false)
    ensures "device_name" !in LegacyFields(false)
    ensures LegacyFields(true)["mono"] == InputFields(k, true)["mono"]
    ensures LegacyFields(false)["mc"] != InputFields(k, false)["mono"]
  {
    InputFieldsAt(k, true, "mono");
    InputFieldsAt(k, false, "mono");
  }

  class LegacyRemote {
    const edition: Edition
    const dll: Dll
    const inputs: seq<Element>
    var cache: map<string, Value>

    /** `__init__` of the edition's class. */
    constructor (edition: Edition, dll: Dll)
      ensures this.edition == edition && this.dll == dll
      ensures inputs == LegacyInputs(edition) && cache == map[]
    {
      this.edition := edition;
      this.dll := dll;
      inputs := LegacyInputs(edition);
      cache := map[];
    }

    /** `_login`, run by `__enter__`. */
    method Login() returns (err: Option<Error>)
      modifies dll
      ensures Effect(dll.state, err) == LoginEffect(old(dll.state))
    {
      var r, _ := dll.Call(Request.Login, true, {0});
      if r.Err? {
        return Some(r.error);
      }
      var d := Dirty();
      err := if d.Err? then Some(d.error) else None;
    }

    /** `_logout`, run by `__exit__`. */
    method Logout() returns (err: Option<Error>)
      modifies dll
      ensures Effect(dll.state, err) == CallOnly(old(dll.state), Request.Logout, {0})
    {
      var r, _ := dll.Call(Request.Logout, true, {0});
      err := ErrorOf(r);
    }

    method Type() returns (r: Result<string>)
      modifies dll
      ensures dll.state == Respond(old(dll.state), GetType)
      ensures Checked(old(dll.state), GetType, true, {0}).Err? ==> r == Err(Checked(old(dll.state), GetType, true, {0}).error)
      ensures Checked(old(dll.state), GetType, true, {0}).Ok? ==> r == DisplayName(old(dll.state).typeCode)
    {
      var c, out := dll.Call(GetType, true, {0});
      if c.Err? {
        return Err(c.error);
      }
      r := DisplayName(out.n);
    }

    method Version() returns (r: Result<(int, int, int, int)>)
      modifies dll
      ensures dll.state == Respond(old(dll.state), GetVersion)
      ensures Checked(old(dll.state), GetVersion, true, {0}).Err? ==> r == Err(Checked(old(dll.state), GetVersion, true, {0}).error)
      ensures Checked(old(dll.state), GetVersion, true, {0}).Ok? ==> r == Ok(Unpack(old(dll.state).versionWord))
    {
      var c, out := dll.Call(GetVersion, true, {0});
      if c.Err? {
        return Err(c.error);
      }
      r := Ok(Unpack(out.n));
    }

    method Dirty() returns (r: Result<bool>)
      modifies dll
      ensures dll.state == Respond(old(dll.state), IsParametersDirty)
      ensures r == DirtyOf(old(dll.state))
    {
      var c, _ := dll.Call(IsParametersDirty, true, {0, 1});
      if c.Err? {
        return Err(c.error);
      }
      r := Ok(c.value == 1);
    }

    /** `get(param, string, ascii)`: after it, the cache holds what it returned. */
    method Get(param: string, str: bool, ascii: bool) returns (r: Result<Value>)
      modifies this, dll
      ensures Reading(dll.state, r) == CachedRead(old(dll.state), old(cache), param, str, ascii)
      ensures r.Ok? ==> param in cache && cache[param] == r.value
      ensures cache == if r.Ok? then old(cache)[param := r.value] else old(cache)
    {
      var d := Dirty();
      if d.Err? {
        return Err(d.error);
      }
      if !d.value && param in cache {
        return Ok(cache[param]);
      }
      var req := LegacyReadRequest(param, str, ascii);
      var c, out := dll.Call(req, true, {0});
      if c.Err? {
        return Err(c.error);
      }
      var val := ToValue(out);
      cache := cache[param := val];
      r := Ok(val);
    }

    /** A getter of vmr/input.py on input strip `e` (the file defines getters
        on strips only): `get` of `Strip[i].<param>`, a bool being whether the
        value equals 1; the value read stays cached under its address. */
    method GetField(e: Element, name: string) returns (r: Result<Scalar>)
      requires e.family == InputStrip
      modifies this, dll
      ensures name !in LegacyFields(e.physical) ==>
        r == Err(UnknownField(name)) && dll.state == old(dll.state) && cache == old(cache)
      ensures name in LegacyFields(e.physical) ==>
        var f := LegacyFields(e.physical)[name];
        var rd := CachedRead(old(dll.state), old(cache), Address(e, f.param), f.codec == StrProp, false);
        && dll.state == rd.st && r == FieldValue(f.codec, rd.r)
        && cache == (if rd.r.Ok? then old(cache)[Address(e, f.param) := rd.r.value] else old(cache))
    {
      if name !in LegacyFields(e.physical) {
        return Err(UnknownField(name));
      }
      var f := LegacyFields(e.physical)[name];
      var v := Get(Address(e, f.param), f.codec == StrProp, false);
      r := FieldValue(f.codec, v);
    }
  }

  /** Once a strip's parameter is cached and nothing is dirty, its bool
      getter answers whether the cached value is 1, whatever else the cache
      holds. */
  lemma CachedFieldReadsBack(st: NativeState, cache: map<string, Value>, e: Element, name: string, x: real)
    requires Healthy(st) && !st.dirty && name in LegacyFields(e.physical)
    requires LegacyFields(e.physical)[name].codec == BoolProp
    requires Address(e, LegacyFields(e.physical)[name].param) in cache
    requires cache[Address(e, LegacyFields(e.physical)[name].param)] == Num(x)
    ensures FieldValue(BoolProp, CachedRead(st, cache, Address(e, LegacyFields(e.physical)[name].param), false, false).r)
      == Ok(Bool(x == 1.0))
  {
  }

  // ---------------------------------------------------------------------
  // vmr/strips.py.

  /** `INPUT_PARAM_MAP`: the parameters a strip may read, and whether each
      is numeric. */
  const ParamMap: map<string, bool> := map[
    "Mono" := true, "Mute" := true, "Solo" := true, "MC" := true, "Gain" := true,
    "Comp" := false, "Gate" := false]

  /** A strip of vmr/strips.py: its index and whether it is virtual. */
  datatype Strip = Strip(index: nat, isVirtual: bool)

  /** `name`: `Strip[i]`, the identifier of the input strip at that index. */
  function StripName(s: Strip): (n: string)
    ensures n == Identifier(Element(InputStrip, !s.isVirtual, s.index))
  {
    "Strip[" + NatToString(s.index) + "]"
  }

  /** `get(param)` AS WRITTEN: the parameter is checked against
      `INPUT_PARAM_MAP`, then the session's `get` is called with a keyword
      `numeric` that it does not declare, so the call itself fails before
      reaching the library. */
  function StripGetAsWritten(s: Strip, param: string): Result<Value>
  {
    if param !in ParamMap then Err(InvalidParameter(param))
    else Err(UnexpectedKeyword("numeric"))
  }

  /** As written, no strip can read any parameter: every `get`, and with it
      `mono`, `mc`, `solo` and `mute`, raises. */
  lemma StripGetAlwaysFails(s: Strip, param: string)
    ensures StripGetAsWritten(s, param).Err?
    ensures param in ParamMap ==> StripGetAsWritten(s, param) == Err(UnexpectedKeyword("numeric"))
    ensures StripGetAsWritten(s, "Solo") == Err(UnexpectedKeyword("numeric"))
  {
  }

  /** `get(param)` as evidently intended: a parameter outside
      `INPUT_PARAM_MAP` is refused; otherwise the session's `get` reads
      `Strip[i].<param>`, as a number when the map marks it numeric and as a
      string otherwise. */
  function StripGet(st: NativeState, cache: map<string, Value>, s: Strip, param: string): Reading
  {
    if param !in ParamMap then Reading(st, Err(InvalidParameter(param)))
    else CachedRead(st, cache, StripName(s) + "." + param, !ParamMap[param], false)
  }

  /** `_bool_param`-style getters: `mono` only on a physical strip, `mc` only
      on a virtual one, both reading `Mono`; `solo`, `mute` on either. */
  function StripFlag(st: NativeState, cache: map<string, Value>, s: Strip, name: string): Result<Reading>
  {
    if name == "mono" then (if s.isVirtual then Err(NotSupported("mono")) else Ok(StripGet(st, cache, s, "Mono")))
    else if name == "mc" then (if !s.isVirtual then Err(NotSupported("mc")) else Ok(StripGet(st, cache, s, "Mono")))
    else if name == "solo" then Ok(StripGet(st, cache, s, "Solo"))
    else if name == "mute" then Ok(StripGet(st, cache, s, "Mute"))
    else Err(UnknownField(name))
  }

  /** With the intended `get`, a parameter outside the map is refused
      without a call; the flags are read as numbers at the strip's own
      address; `mono` and `mc` are refused on the wrong variant without a
      call, and on the right one read the stored `Mono` of a healthy,
      unchanged library the first time. */
  lemma StripReads(st: NativeState, s: Strip, param: string, name: string)
    requires Healthy(st)
    ensures param !in ParamMap ==> StripGet(st, map[], s, param) == Reading(st, Err(InvalidParameter(param)))
    ensures param in ParamMap && ParamMap[param] ==>
      StripGet(st, map[], s, param).r == Ok(Num(StoredFloat(st, Address(Element(InputStrip, !s.isVirtual, s.index), param))))
    ensures name == "mono" && s.isVirtual ==> StripFlag(st, map[], s, name) == Err(NotSupported("mono"))
    ensures name == "mc" && !s.isVirtual ==> StripFlag(st, map[], s, name) == Err(NotSupported("mc"))
    ensures (name == "mono" && !s.isVirtual) || (name == "mc" && s.isVirtual) ==>
      && StripFlag(st, map[], s, name).Ok?
      && FieldValue(BoolProp, StripFlag(st, map[], s, name).value.r) ==
           Ok(Bool(StoredFloat(st, Address(Element(InputStrip, !s.isVirtual, s.index), "Mono")) == 1.0))
  {
    assert "Mono" in ParamMap && ParamMap["Mono"];
  }
}
