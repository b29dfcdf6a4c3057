/** The native remote-control library, seen as an oracle.

    The binding never looks inside the library: it calls a named function
    and gets back an integer status and, for queries, whatever the library
    wrote into the buffer it passed. This module fixes such an oracle: a
    parameter store, the "parameters changed" flag, the edition and version
    words, and a table of functions that are made to answer with a failure
    status. Every call is recorded in a trace, so that contracts elsewhere
    can say exactly which native calls an operation issues. */
module Native {
  import opened Errors

  /** A Python value as it is handed to `set` or held as a profile leaf. */
  datatype Scalar = Bool(b: bool) | Number(x: real) | Str(s: string)

  /** A parameter value as the library stores it. */
  datatype Value = Num(x: real) | Text(s: string)

  /** One native function call with its arguments. */
  datatype Request =
    | Login
    | Logout
    | GetType
    | GetVersion
    | IsParametersDirty
    | GetFloat(param: string)
    | GetStringW(param: string)
    | GetStringA(param: string)
    | SetFloat(param: string, x: real)
    | SetStringW(param: string, s: string)

  /** What a call leaves in its output buffer. */
  datatype Out = NoOut | Long(n: int) | Float(x: real) | Chars(s: string)

  /** The oracle's whole state. `failures` maps a function name to the
      status it answers with instead of its normal one. */
  datatype NativeState = NativeState(
    params: map<string, Value>,
    dirty: bool,
    typeCode: int,
    versionWord: int,
    failures: map<string, int>,
    trace: seq<Request>)

  function FunctionName(req: Request): string
  {
    match req
    case Login => "Login"
    case Logout => "Logout"
    case GetType => "GetVoicemeeterType"
    case GetVersion => "GetVoicemeeterVersion"
    case IsParametersDirty => "IsParametersDirty"
    case GetFloat(_) => "GetParameterFloat"
    case GetStringW(_) => "GetParameterStringW"
    case GetStringA(_) => "GetParameterStringA"
    case SetFloat(_, _) => "SetParameterFloat"
    case SetStringW(_, _) => "SetParameterStringW"
  }

  /** The exported symbol name: every function carries the `VBVMR_` prefix. */
  function QualifiedName(req: Request): (name: string)
    ensures |name| > 6 && name[..6] == "VBVMR_" && name[6..] == FunctionName(req)
  {
    "VBVMR_" + FunctionName(req)
  }

  /** The library is healthy when no function is made to fail. */
  predicate Healthy(st: NativeState)
  {
    st.failures == map[]
  }

  /** The status a call answers with: 0 (OK) unless the function is made to
      fail; the dirty check answers 1 while parameters have changed. */
  function Status(st: NativeState, req: Request): int
  {
    if FunctionName(req) in st.failures then st.failures[FunctionName(req)]
    else if req == IsParametersDirty then (if st.dirty then 1 else 0)
    else 0
  }

  /** The float stored under `param`, or the zero the caller's fresh buffer holds. */
  function StoredFloat(st: NativeState, param: string): real
  {
    if param in st.params && st.params[param].Num? then st.params[param].x else 0.0
  }

  /** The string stored under `param`, or the empty string of a fresh buffer. */
  function StoredString(st: NativeState, param: string): string
  {
    if param in st.params && st.params[param].Text? then st.params[param].s else ""
  }

  function Output(st: NativeState, req: Request): Out
  {
    match req
    case GetType => Long(st.typeCode)
    case GetVersion => Long(st.versionWord)
    case GetFloat(p) => Float(StoredFloat(st, p))
    case GetStringW(p) => Chars(StoredString(st, p))
    case GetStringA(p) => Chars(StoredString(st, p))
    case _ => NoOut
  }

  /** The state after a call: the call is traced, and a setter that answers
      OK stores its value. */
  function Respond(st: NativeState, req: Request): (st': NativeState)
    ensures st'.trace == st.trace + [req]
    ensures st'.dirty == st.dirty && st'.typeCode == st.typeCode
    ensures st'.versionWord == st.versionWord && st'.failures == st.failures
    ensures !req.SetFloat? && !req.SetStringW? ==> st'.params == st.params
  {
    var params :=
      if Status(st, req) != 0 then st.params
      else match req
        case SetFloat(p, x) => st.params[p := Num(x)]
        case SetStringW(p, s) => st.params[p := Text(s)]
        case _ => st.params;
    st.(params := params, trace := st.trace + [req])
  }

  /** The status check of `_call`: a status outside `expected` is a driver
      error carrying the qualified function name, unless checking is off. */
  function Checked(st: NativeState, req: Request, check: bool, expected: set<int>): (r: Result<int>)
    ensures r.Err? <==> check && Status(st, req) !in expected
    ensures r.Err? ==> r.error == DriverError(QualifiedName(req), Status(st, req))
    ensures r.Ok? ==> r.value == Status(st, req)
  {
    var status := Status(st, req);
    if check && status !in expected then Err(DriverError(QualifiedName(req), status)) else Ok(status)
  }

  /** Storing a value and reading it back through a healthy library yields it. */
  lemma StoreThenRead(st: NativeState, p: string, x: real, s: string)
    requires Healthy(st)
    ensures Output(Respond(st, SetFloat(p, x)), GetFloat(p)) == Float(x)
    ensures Output(Respond(st, SetStringW(p, s)), GetStringW(p)) == Chars(s)
    ensures Status(Respond(st, SetFloat(p, x)), GetFloat(p)) == 0
  {
  }

  /** The process-wide library handle. */
  class Dll {
    var state: NativeState

    constructor (init: NativeState)
      ensures state == init
    {
      state := init;
    }

    /** `_call`: invoke one function and check its status. */
    method Call(req: Request, check: bool, expected: set<int>) returns (r: Result<int>, out: Out)
      modifies this
      ensures state == Respond(old(state), req)
      ensures out == Output(old(state), req)
      ensures r == Checked(old(state), req, check, expected)
    {
      var status := Status(state, req);
      out := Output(state, req);
      state := Respond(state, req);
      if check && status !in expected {
        r := Err(DriverError(QualifiedName(req), status));
      } else {
        r := Ok(status);
      }
    }
  }
}
