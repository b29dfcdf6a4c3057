/** The session object of voicemeeter/remote.py. It holds the edition, the
    library handle, the shared login flag, the strips and buses of the
    layout, the edition's profiles, and a cache of parameter reads. Each
    method is proved to do to the library exactly what its `Session`
    function says. */
module Remote {
  import opened Errors
  import opened Native
  import opened Kinds
  import opened DictMerge
  import opened Profiles
  import opened Elements
  import opened Session

  /** The module-level `loggedIn` flag, shared by every session. */
  class LoginFlag {
    var loggedIn: bool

    constructor ()
      ensures !loggedIn
    {
      loggedIn := false;
    }
  }

  /** The profiles a session of edition `id` sees: its row of the table. A
      missing row makes every lookup fail, which is how a missing name is
      reported anyway. */
  function ProfilesFor(table: map<string, map<string, Dict>>, id: string): map<string, Dict>
  {
    if id in table then table[id] else map[]
  }

  class Remote {
    const kind: Kind
    const dll: Dll
    const flag: LoginFlag
    const inputs: seq<Element>
    const outputs: seq<Element>
    const profiles: map<string, Dict>
    var cache: map<string, Value>

    /** `VMRemote.__init__` and `_make_remote`'s `init`: an empty cache and
        the strips and buses of the edition's layout. */
    constructor (kind: Kind, dll: Dll, flag: LoginFlag, profiles: map<string, Dict>)
      ensures this.kind == kind && this.dll == dll && this.flag == flag && this.profiles == profiles
      ensures inputs == Inputs(kind) && outputs == Outputs(kind)
      ensures cache == map[]
    {
      this.kind := kind;
      this.dll := dll;
      this.flag := flag;
      this.profiles := profiles;
      inputs := Inputs(kind);
      outputs := Outputs(kind);
      cache := map[];
    }

    /** `login`/`_login`: the Login call is made only while logged out, and
        the flag is set only once it succeeded; logged in, nothing happens. */
    method Login() returns (err: Option<Error>)
      modifies dll, flag
      ensures old(flag.loggedIn) ==> dll.state == old(dll.state) && err.None? && flag.loggedIn
      ensures !old(flag.loggedIn) ==>
        && Effect(dll.state, err) == CallOnly(old(dll.state), Request.Login, {0})
        && (flag.loggedIn <==> err.None?)
    {
      err := None;
      if !flag.loggedIn {
        var r, _ := dll.Call(Request.Login, true, {0});
        err := ErrorOf(r);
        if r.Ok? {
          flag.loggedIn := true;
        }
      }
    }

    /** `logout`/`_logout`: the Logout call is made only while logged in,
        and the flag is cleared once it succeeded. */
    method Logout() returns (err: Option<Error>)
      modifies dll, flag
      ensures !old(flag.loggedIn) ==> dll.state == old(dll.state) && err.None? && !flag.loggedIn
      ensures old(flag.loggedIn) ==>
        && Effect(dll.state, err) == CallOnly(old(dll.state), Request.Logout, {0})
        && (flag.loggedIn <==> err.Some?)
    {
      err := None;
      if flag.loggedIn {
        var r, _ := dll.Call(Request.Logout, true, {0});
        err := ErrorOf(r);
        if r.Ok? {
          flag.loggedIn := false;
        }
      }
    }

    /** `__enter__`: log in. */
    method Enter() returns (err: Option<Error>)
      modifies dll, flag
      ensures old(flag.loggedIn) ==> dll.state == old(dll.state) && err.None? && flag.loggedIn
      ensures !old(flag.loggedIn) ==>
        && Effect(dll.state, err) == CallOnly(old(dll.state), Request.Login, {0})
        && (flag.loggedIn <==> err.None?)
    {
      err := Login();
    }

    /** `__exit__`: log out. */
    method Exit() returns (err: Option<Error>)
      modifies dll, flag
      ensures !old(flag.loggedIn) ==> dll.state == old(dll.state) && err.None? && !flag.loggedIn
      ensures old(flag.loggedIn) ==>
        && Effect(dll.state, err) == CallOnly(old(dll.state), Request.Logout, {0})
        && (flag.loggedIn <==> err.Some?)
    {
      err := Logout();
    }

    /** `type`: one type query, then the edition name of the code. */
    method Type() returns (r: Result<string>)
      modifies dll
      ensures dll.state == Respond(old(dll.state), GetType)
      ensures Checked(old(dll.state), GetType, true, {0}).Err? ==> r == Err(Checked(old(dll.state), GetType, true, {0}).error)
      ensures Checked(old(dll.state), GetType, true, {0}).Ok? ==> r == TypeName(old(dll.state).typeCode)
    {
      var c, out := dll.Call(GetType, true, {0});
      if c.Err? {
        return Err(c.error);
      }
      r := TypeName(out.n);
    }

    /** `version`: one version query, then the four bytes of the word. */
    method Version() returns (r: Result<(int, int, int, int)>)
      modifies dll
      ensures dll.state == Respond(old(dll.state), GetVersion)
      ensures Checked(old(dll.state), GetVersion, true, {0}).Err? ==> r == Err(Checked(old(dll.state), GetVersion, true, {0}).error)
      ensures Checked(old(dll.state), GetVersion, true, {0}).Ok? ==> r == Ok(Unpack(old(dll.state).versionWord))
    {
      var c, out := dll.Call(GetVersion, true, {0});
      if c.Err? {
        return Err(c.error);
      }
      r := Ok(Unpack(out.n));
    }

    /** `dirty`. */
    method Dirty() returns (r: Result<bool>)
      modifies dll
      ensures dll.state == Respond(old(dll.state), IsParametersDirty)
      ensures r == DirtyOf(old(dll.state))
    {
      var c, _ := dll.Call(IsParametersDirty, true, {0, 1});
      if c.Err? {
        return Err(c.error);
      }
      r := Ok(c.value == 1);
    }

    /** `get(param, string)`: the dirty check, then always a read (the
        cache-hit return is disabled), whose value is cached. */
    method Get(param: string, str: bool) returns (r: Result<Value>)
      modifies this, dll
      ensures Reading(dll.state, r) == Read(old(dll.state), param, str)
      ensures cache == if r.Ok? then old(cache)[param := r.value] else old(cache)
    {
      var d := Dirty();
      if d.Err? {
        return Err(d.error);
      }
      var req := ReadRequest(param, str);
      var c, out := dll.Call(req, true, {0});
      if c.Err? {
        return Err(c.error);
      }
      var val := ToValue(out);
      cache := cache[param := val];
      r := Ok(val);
    }

    /** `set(param, val)`: the cache is not touched. */
    method Set(param: string, val: Scalar) returns (err: Option<Error>)
      modifies dll
      ensures Effect(dll.state, err) == Write(old(dll.state), param, val)
      ensures cache == old(cache)
    {
      if val.Str? && |val.s| >= StringLimit {
        return Some(StringTooLong(|val.s|));
      }
      var c, _ := dll.Call(WriteRequest(param, val), true, {0});
      err := ErrorOf(c);
    }

    /** `show`, `shutdown`, `restart`: set a command parameter to 1. */
    method Show() returns (err: Option<Error>)
      modifies dll
      ensures Effect(dll.state, err) == Write(old(dll.state), "Command.Show", Number(1.0))
    {
      err := Set("Command.Show", Number(1.0));
    }

    method Shutdown() returns (err: Option<Error>)
      modifies dll
      ensures Effect(dll.state, err) == Write(old(dll.state), "Command.Shutdown", Number(1.0))
    {
      err := Set("Command.Shutdown", Number(1.0));
    }

    method Restart() returns (err: Option<Error>)
      modifies dll
      ensures Effect(dll.state, err) == Write(old(dll.state), "Command.Restart", Number(1.0))
    {
      err := Set("Command.Restart", Number(1.0));
    }

    /** Reading field `name` of element `e` (`VMElement.get` and the property
        getters): a read of the field's parameter, decoded by its codec; the
        value read is cached under the field's address. */
    method GetField(e: Element, name: string) returns (r: Result<Scalar>)
      modifies this, dll
      ensures name !in Fields(kind, e) ==>
        r == Err(UnknownField(name)) && dll.state == old(dll.state) && cache == old(cache)
      ensures name in Fields(kind, e) ==>
        var f := Fields(kind, e)[name];
        var rd := Read(old(dll.state), Address(e, f.param), f.codec == StrProp);
        && dll.state == rd.st && r == FieldValue(f.codec, rd.r)
        && cache == (if rd.r.Ok? then old(cache)[Address(e, f.param) := rd.r.value] else old(cache))
    {
      if name !in Fields(kind, e) {
        return Err(UnknownField(name));
      }
      var f := Fields(kind, e)[name];
      var v := Get(Address(e, f.param), f.codec == StrProp);
      r := FieldValue(f.codec, v);
    }

    /** Assigning `v` to field `name` of element `e` (`VMElement.set` and the
        property setters). */
    method SetField(e: Element, name: string, v: Tree) returns (err: Option<Error>)
      modifies dll
      ensures Effect(dll.state, err) == Attempt(old(dll.state), FieldWrite(kind, e, name, v))
    {
      var w := FieldWrite(kind, e, name, v);
      if w.Err? {
        return Some(w.error);
      }
      err := Set(w.value.param, w.value.val);
    }

    /** `target.apply(submapping)`: the fields assigned in order, stopping at
        the first that fails. */
    method ApplyFields(e: Element, d: Dict) returns (err: Option<Error>)
      modifies dll
      ensures Effect(dll.state, err) == Run(old(dll.state), ElementPlan(kind, e, d))
    {
      ghost var st0 := dll.state;
      var i := 0;
      while i < |d|
        invariant 0 <= i <= |d|
        invariant ElementPlan(kind, e, d[..i]).failure.None?
        invariant Effect(dll.state, None) == Run(st0, ElementPlan(kind, e, d[..i]))
      {
        err := SetField(e, d[i].key, d[i].val);
        ElementStep(st0, kind, e, d, i, Effect(dll.state, err));
        if err.Some? {
          return;
        }
        i := i + 1;
      }
      assert d[..i] == d;
      err := None;
    }

    /** `apply(mapping)`: each key selects a strip or bus, which gets its
        sub-mapping assigned; the first failure ends it. */
    method Apply(m: Dict) returns (err: Option<Error>)
      modifies dll
      ensures Effect(dll.state, err) == Run(old(dll.state), ApplyPlan(kind, inputs, outputs, m))
    {
      ghost var st0 := dll.state;
      var i := 0;
      while i < |m|
        invariant 0 <= i <= |m|
        invariant ApplyPlan(kind, inputs, outputs, m[..i]).failure.None?
        invariant Effect(dll.state, None) == Run(st0, ApplyPlan(kind, inputs, outputs, m[..i]))
      {
        ApplyPlanNext(st0, kind, inputs, outputs, m, i);
        var target := Select(inputs, outputs, m[i].key);
        if target.Err? {
          ApplyPlanStops(st0, kind, inputs, outputs, m, i + 1);
          return Some(target.error);
        }
        if m[i].val.Leaf? {
          ApplyPlanStops(st0, kind, inputs, outputs, m, i + 1);
          return Some(NotAMapping(m[i].key));
        }
        err := ApplyFields(target.value, m[i].val.entries);
        if err.Some? {
          ApplyPlanStops(st0, kind, inputs, outputs, m, i + 1);
          return;
        }
        i := i + 1;
      }
      assert m[..i] == m;
      err := None;
    }

    /** `apply_profile(name)`: resolve the profile, merging in the profile it
        extends and deleting `extends` from the merged copy, then apply it. */
    method ApplyProfile(name: string) returns (err: Option<Error>)
      modifies dll
      ensures Resolve(profiles, kind.id, name).Err? ==>
        dll.state == old(dll.state) && err == Some(Resolve(profiles, kind.id, name).error)
      ensures Resolve(profiles, kind.id, name).Ok? ==>
        Effect(dll.state, err) == Run(old(dll.state), ApplyPlan(kind, inputs, outputs, Resolve(profiles, kind.id, name).value))
    {
      if name !in profiles {
        return Some(UnknownProfile(kind.id, name));
      }
      var profile := profiles[name];
      var ext := Lookup(profile, "extends");
      if ext.Some? {
        if ext.value.Node? {
          return Some(UnhashableName);
        }
        if !ext.value.value.Str? || ext.value.value.s !in profiles {
          return Some(UnknownProfile(kind.id, name));
        }
        var merged := MergeDicts([profiles[ext.value.value.s], profile], null);
        if merged.Err? {
          return Some(merged.error);
        }
        merged.value.entries := Remove(merged.value.entries, "extends");
        profile := merged.value.entries;
      }
      err := Apply(profile);
    }

    /** `reset`: apply the `base` profile. */
    method Reset() returns (err: Option<Error>)
      modifies dll
      ensures Resolve(profiles, kind.id, "base").Err? ==>
        dll.state == old(dll.state) && err == Some(Resolve(profiles, kind.id, "base").error)
      ensures Resolve(profiles, kind.id, "base").Ok? ==>
        Effect(dll.state, err) == Run(old(dll.state), ApplyPlan(kind, inputs, outputs, Resolve(profiles, kind.id, "base").value))
    {
      err := ApplyProfile("base");
    }
  }

  /** `connect(kind_id)`: a session of the named edition over the given
      library and login flag, seeing its row of the profile table. */
  method Connect(kindId: string, dll: Dll, flag: LoginFlag, table: map<string, map<string, Dict>>) returns (r: Result<Remote>)
    ensures Get(kindId).Err? ==> r == Err(InvalidKind(kindId))
    ensures Get(kindId).Ok? ==>
      && r.Ok? && fresh(r.value)
      && r.value.kind == Get(kindId).value && r.value.dll == dll && r.value.flag == flag
      && r.value.inputs == Inputs(Get(kindId).value) && r.value.outputs == Outputs(Get(kindId).value)
      && r.value.profiles == ProfilesFor(table, kindId) && r.value.cache == map[]
  {
    var kind := Get(kindId);
    if kind.Err? {
      return Err(kind.error);
    }
    var remote := new Remote(kind.value, dll, flag, ProfilesFor(table, kind.value.id));
    r := Ok(remote);
  }
}
