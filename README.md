# voicemeeter-remote-python, modelled in Dafny

This project models the core of the Python binding for Voicemeeter Remote. The
binding turns structured settings into writes on the mixer's flat parameter
space, where every parameter is named by a string such as `Strip[3].Mute` or
`Bus[0].Gain`. The Voicemeeter Remote library itself is an oracle. It holds a
store of parameters, a "parameters dirty" flag, a type code and a version word,
and it can be made to answer any library function with a chosen status code.
It also keeps a trace of every request it receives, so contracts can state
exactly which calls an operation makes.

Modules:

- `Errors`: the error cases the binding raises, as one datatype, plus
  `Option` and `Result`.
- `Native`: the library oracle (`Dll`, whose `Call` is `_call`):
  - the status check of `_call`;
  - what each request stores and answers.
- `Numerals`: decimal rendering and parsing of indices, and Python's
  `str.split` on one separator character.
- `Kinds`: the edition table. `basic` has 2 physical and 1 virtual strips,
  `banana` 3 and 2, `potato` 5 and 3.
- `DictMerge`: `merge_dicts`.
  - Dicts are ordered association lists, as Python dicts keep insertion order.
  - A pure specification (`Merged`, `MergedAll`) is proved equal to the
    imperative recursive merge and to the in-place update of a dict object.
- `Profiles`: the built-in `blank` and `base` profiles for a layout, and the
  per-edition profile table.
- `Elements`: strips and buses as data.
  - Their identifiers and parameter addresses.
  - The field tables of each variant (physical or virtual, per edition).
  - How a bool, string or float field is encoded for `set` and decoded
    after `get`.
- `Session`: pure specifications of what each session operation does to the
  library:
  - reads, writes and the 512-character limit;
  - parsing `apply` keys;
  - the write plan of `apply`;
  - `extends` resolution.
- `Remote`: the session class of the `voicemeeter` package. Its methods are
  proved to have exactly the effect the `Session` functions describe. Its
  `get` stores every read in the cache but never answers from it.
- `Legacy`: the older `vmr` package:
  - edition dispatch;
  - the session whose `get` answers from its cache when the library reports
    no change;
  - the input-strip getters;
  - the validating strip of `vmr/strips.py`.

## Model

| member | source | states |
|---|---|---|
| Native.QualifiedName | voicemeeter/remote.py:30 | the library function called is `VBVMR_` followed by the request's own function name |
| Native.Checked | voicemeeter/remote.py:31-35 | a call fails exactly when checking is on and the status is not an expected one; the error carries the qualified name and the status; otherwise the status is returned |
| Native.Respond | voicemeeter/remote.py:31 | every call is appended to the trace; only a set request changes the parameter store; the dirty flag, type code and version word are untouched |
| Native.StoreThenRead | voicemeeter/remote.py:108-116 | a healthy library reads back the float or string just written under the same parameter |
| Native.Dll.Call | vmr/remote.py:25-31 | `_call`: the library answers the request, and the result is the checked status together with what the library wrote into the output buffer |
| Numerals.NatToString | voicemeeter/profiles.py:24 | the rendering of an index is a non-empty string of digits with no leading zero |
| Numerals.ParseNat | voicemeeter/remote.py:134 | `int(index)` succeeds exactly on a non-empty all-digit string |
| Numerals.ParseNatToString | voicemeeter/remote.py:134 | parsing the rendering of an index gives back the index |
| Numerals.NatToStringInjective | voicemeeter/profiles.py:24-25 | different indices render differently, so profile keys `in-i` do not collide |
| Numerals.Split | voicemeeter/remote.py:133 | `str.split` always returns at least one part |
| Numerals.SplitLength | voicemeeter/remote.py:133 | the number of parts is one more than the number of separators |
| Numerals.JoinSplit | voicemeeter/remote.py:133 | joining the parts with the separator gives back the key |
| Numerals.SplitOnce | voicemeeter/remote.py:133 | a key made of two separator-free parts around one `-` splits into exactly those two parts |
| Kinds.Get | vmr/kinds.py:16-20 | a kind id is found exactly when some kind of the table has it, and the kind found has that id; any other id raises `InvalidKind` |
| Kinds.KindTableConsistent | vmr/kinds.py:10-22 | each map key equals its kind's id; `all` lists exactly the three kinds, with distinct ids; the layouts are (2,1), (3,2), (5,3) |
| DictMerge.Lookup | voicemeeter/util.py:15 | a key is absent exactly when it is not among the dict's keys, and a found value is the value of an entry with that key |
| DictMerge.Put | voicemeeter/util.py:18 | item assignment: the key maps to the new value, every other key is unchanged, and the keys are the old ones plus the assigned key |
| DictMerge.PutShape | voicemeeter/util.py:18 | item assignment keeps insertion order: a new key is appended at the end, an existing one keeps its place and the length |
| DictMerge.Remove | voicemeeter/remote.py:149 | `del`: the key is gone and every other key is unchanged |
| DictMerge.MergedIntoEmpty | voicemeeter/util.py:9-19 | merging a dict into a fresh empty dict gives an equal dict (nested dicts are copied) |
| DictMerge.MergedWellFormed | voicemeeter/util.py:12-18 | merging keeps keys unique at every level |
| DictMerge.MergedLookup | voicemeeter/util.py:13-18 | after merging, a key not in the source keeps the target's value; a key in the source holds the source leaf, or the recursive merge when both sides hold dicts; the keys are the union |
| DictMerge.MergedOkIff | voicemeeter/util.py:14-16 | a merge succeeds exactly when no source key puts a non-empty dict over a scalar of the target |
| DictMerge.ScalarUnderDictFails | voicemeeter/util.py:15-16 | a scalar in the target under a non-empty dict of the source makes the merge fail |
| DictMerge.MergeWithEmpty | voicemeeter/util.py:12-19 | merging with an empty dict on either side gives the other argument |
| DictMerge.MergedAllSnoc | voicemeeter/util.py:12 | sources are folded left to right: adding a last source merges it into the result of the others |
| DictMerge.MergeThree | voicemeeter/util.py:12 | `merge(a, b, c)` equals `merge(merge(a, b), c)`, and an error of `merge(a, b)` is the error of the whole |
| DictMerge.MergeInto | voicemeeter/util.py:12-18 | the imperative merge of one source into a target computes exactly the specified merge, error included |
| DictMerge.MergeEntry | voicemeeter/util.py:13-18 | one key of the source: `setdefault` plus recursion for a dict, assignment for a leaf, as specified |
| DictMerge.DictObject.constructor | voicemeeter/util.py:10 | a dict object holds the given entries |
| DictMerge.MergeDicts | voicemeeter/util.py:8-19 | with no `dest` the result is a fresh object; with one, `dest` itself is updated and returned; its entries are the left-to-right merge of all sources, or the merge's error |
| Profiles.Numbered | voicemeeter/profiles.py:16-17 | `{f'A{i}': v for i in ...}`: one entry per index, in order, keyed by prefix and index |
| Profiles.NumberedKeys | voicemeeter/profiles.py:16-17 | the keys are exactly the prefix followed by an index of the range |
| Profiles.InputConfigCommon | voicemeeter/profiles.py:11-15 | a blank input entry has gain 0.0 and solo, mute and mono False |
| Profiles.InputConfigRouting | voicemeeter/profiles.py:16-17 | a blank input entry has `A1..A{num_A}` and `B1..B{num_B}` False |
| Profiles.InputConfigKeys | voicemeeter/profiles.py:11-18 | a blank input entry has exactly the keys gain, solo, mute, mono and the routing flags |
| Profiles.InputConfigWellFormed | voicemeeter/profiles.py:11-18 | the blank input entry has no duplicate keys |
| Profiles.OutputConfigFields | voicemeeter/profiles.py:19-22 | a blank output entry is exactly gain 0.0 and mute False |
| Profiles.BlankWellFormed | voicemeeter/profiles.py:23-26 | the blank profile has unique keys at every level |
| Profiles.BlankKeys | voicemeeter/profiles.py:23-26 | the blank profile has exactly the keys `in-i` and `out-i` for `i < num_A + num_B` |
| Profiles.BlankLookup | voicemeeter/profiles.py:23-26 | every `in-i` holds the input configuration and every `out-i` the output configuration |
| Profiles.OverridesKeys | voicemeeter/profiles.py:31-34 | the overrides cover exactly the input keys `in-i` |
| Profiles.OverridesLookup | voicemeeter/profiles.py:31-34 | `in-i` overrides B1 for `i < num_A` and A1 for the virtual strips after them |
| Profiles.Base | voicemeeter/profiles.py:28-36 | the base profile is the successful merge of the overrides over the blank profile |
| Profiles.BaseKeys | voicemeeter/profiles.py:28-36 | the base profile is well formed and has exactly the keys of the blank profile |
| Profiles.BaseRouting | voicemeeter/profiles.py:31-35 | in the base profile, `in-i` has its routing flag True (B1 for physical, A1 for virtual) and every other field as in the blank profile |
| Profiles.BaseElsewhere | voicemeeter/profiles.py:30-35 | outside the `in-i` keys the base profile equals the blank profile |
| Profiles.MakeBase | voicemeeter/profiles.py:28-36 | `_make_base_profile` computes the base profile, which has the blank profile's keys |
| Profiles.MakeProfiles | voicemeeter/profiles.py:39-42 | the row built for a kind holds exactly `blank` and `base` |
| Profiles.TableKeys | voicemeeter/profiles.py:38-39 | the table has a row exactly for the ids of the kinds list |
| Profiles.TableRow | voicemeeter/profiles.py:38-42 | each kind's row is its built-in profiles, with profiles loaded for that kind overriding them by name |
| Profiles.TableHasBuiltins | voicemeeter/profiles.py:38-42 | every kind gets both a `blank` and a `base` entry |
| Profiles.BuildProfiles | voicemeeter/profiles.py:38-42 | the loop over the kinds fills the table described by the row lemmas |
| Elements.IdentifierInjective | voicemeeter/input.py:18-20 | `Strip[i]`/`Bus[i]` identifiers are equal exactly for the same family and index |
| Elements.AddressInjective | vmr/strip.py:8-11 | two addresses `'{identifier}.{param}'` are equal exactly for the same element and parameter |
| Elements.RoutingNamesMatchProfile | voicemeeter/input.py:41-47 | the routing fields of a strip are exactly the routing keys `A1..A{num_A}`, `B1..B{num_B}` of the blank profile |
| Elements.InputFieldsAt | voicemeeter/input.py:22-47 | an input strip's fields are `mono`, the common fields and the routing flags, and a routing flag is a bool field addressing its own name |
| Elements.InputVariants | voicemeeter/input.py:34-38 | physical `mono` addresses `Mono` and virtual `mono` addresses `MC`; both variants declare every common field (solo, mute, gain, comp, gate, label, device, sr) with its parameter and codec |
| Elements.InputVariantsAgree | voicemeeter/input.py:34-38 | the physical and virtual input variants declare the same fields, with the same parameters and codecs, for every name but `mono` |
| Elements.BlankFieldsKnown | voicemeeter/input.py:22-47 | every field the blank profile sets is a field of every input strip and output bus |
| Elements.Encode | vmr/strip.py:18-44 | a bool field writes 1 exactly for a truthy value and 0 otherwise; string and float fields pass the value through; a mapping (or a string for a float) cannot be converted |
| Elements.Decode | vmr/strip.py:19-20 | a bool field reads True exactly when the value equals 1; the others give the value read |
| Session.TypeName | voicemeeter/remote.py:58-71 | codes 1, 2, 3 name `basic`, `banana`, `potato`, the ids of the kinds in table order; any other code raises |
| Session.Unpack | voicemeeter/remote.py:78-82 | each of the four version components is in 0..255 and together they recombine to the raw word modulo 2^32 |
| Session.UnpackInjective | voicemeeter/remote.py:78-82 | two raw words give the same version exactly when they agree modulo 2^32 |
| Session.DirtyOf | voicemeeter/remote.py:84-88 | status 0 or 1 is accepted, True exactly for 1; any other status raises |
| Session.ReadEffect | voicemeeter/remote.py:90-106 | `get` leaves the store alone, always issues the dirty check and then exactly one read, and on a healthy library returns the stored value |
| Session.Write | voicemeeter/remote.py:108-116 | a string of length 512 or more is refused before any call; otherwise exactly one set request is issued, and a healthy library stores the value |
| Session.WriteThenRead | voicemeeter/remote.py:90-116 | reading a parameter just set gives back what was set |
| Session.FieldWrite | vmr/strip.py:10-30 | setting a field writes its encoded value at its element's address; an unknown field or an unconvertible value is an error |
| Session.FieldRoundTrip | vmr/strip.py:18-30 | setting a bool field and reading it back gives its truthiness; a short string field gives the string |
| Session.RunWritesAppend | voicemeeter/remote.py:132-141 | running writes in sequence stops at the first error and otherwise continues from the state left behind |
| Session.RunWritesHealthy | voicemeeter/remote.py:132-141 | on a healthy library every short write succeeds, one call each, and each parameter ends up holding the last value written to it |
| Session.ElementPlan | voicemeeter/remote.py:141 | an element's write plan has at most one write per field given |
| Session.ParseKeyRoundTrip | voicemeeter/remote.py:133-140 | the profile keys `in-i` and `out-i` parse to the input or output of index `i` |
| Session.ParseKeyLongForms | voicemeeter/remote.py:133-140 | the long forms `input-i` and `output-i` parse to the same input or output of index `i` |
| Session.ParseKeyNeedsOneDash | voicemeeter/remote.py:133 | a key that gets past the unpacking of `split('-')` has exactly one `-` |
| Session.Select | voicemeeter/remote.py:135-140 | a selected target is one of the session's inputs or outputs |
| Session.Inputs | voicemeeter/remote.py:177 | `num_A + num_B` input strips, the first `num_A` physical |
| Session.Outputs | voicemeeter/remote.py:178 | `num_A + num_B` output buses, the first `num_B` physical |
| Session.OutputVariantsAgree | vmr/output.py:24-28 | physical and virtual buses accept exactly the same writes |
| Session.SelectLayout | voicemeeter/remote.py:135-138 | `in-i` selects the i-th input and `out-i` the i-th output for every index of the layout |
| Session.BlankApplies | voicemeeter/remote.py:130-141 | applying the blank profile to a healthy library succeeds and leaves every parameter it writes at 0.0 (gains under the unscaled pass-through of float fields) |
| Session.ResolveExtends | voicemeeter/remote.py:146-149 | a profile extending a base resolves to the merge of the child over the base without `extends`: the child's keys win, the base's others are kept |
| Session.ResolvePlain | voicemeeter/remote.py:145-150 | a profile without `extends` is applied as it is |
| Remote.LoginFlag.constructor | voicemeeter/remote.py:13 | the process starts logged out |
| Remote.Remote.constructor | voicemeeter/remote.py:173-178 | a new session has an empty cache and the inputs and outputs of its edition's layout |
| Remote.Remote.Login | voicemeeter/remote.py:49-53 | Login is called only when logged out, and the flag is set exactly when it succeeded; a second login does nothing |
| Remote.Remote.Logout | voicemeeter/remote.py:43-47 | Logout is called only when logged in, and the flag is cleared exactly when it succeeded |
| Remote.Remote.Enter | voicemeeter/remote.py:157-159 | entering the session logs in as `login` does |
| Remote.Remote.Exit | voicemeeter/remote.py:161-162 | leaving the session logs out |
| Remote.Remote.Type | voicemeeter/remote.py:58-71 | one type request; its error, or the edition named by the code |
| Remote.Remote.Version | voicemeeter/remote.py:73-82 | one version request; its error, or the unpacked version word |
| Remote.Remote.Dirty | voicemeeter/remote.py:84-88 | one dirty request, interpreted as specified |
| Remote.Remote.Get | voicemeeter/remote.py:90-106 | `get` always goes to the library, whatever the cache holds; afterwards the cache maps the parameter to the value returned |
| Remote.Remote.Set | voicemeeter/remote.py:108-116 | `set` has exactly the specified write effect and leaves the cache unchanged |
| Remote.Remote.Show | voicemeeter/remote.py:118-120 | writes 1 to `Command.Show` |
| Remote.Remote.Shutdown | voicemeeter/remote.py:122-124 | writes 1 to `Command.Shutdown` |
| Remote.Remote.Restart | voicemeeter/remote.py:126-128 | writes 1 to `Command.Restart` |
| Remote.Remote.GetField | vmr/strip.py:8-9 | a field's getter reads its address and decodes the value, caching what it read under that address; an unknown field makes no call |
| Remote.Remote.SetField | vmr/strip.py:10-11 | a field's setter makes the specified write, or no call when the field or value is refused |
| Remote.Remote.ApplyFields | voicemeeter/remote.py:141 | an element's `apply` writes its fields in order and stops at the first error, as the element plan says |
| Remote.Remote.Apply | voicemeeter/remote.py:130-141 | `apply` runs every key's writes in the mapping's order and stops at the first error, as the plan says |
| Remote.Remote.ApplyProfile | voicemeeter/remote.py:143-152 | an unknown name or base is refused with no call; otherwise the resolved profile is applied |
| Remote.Remote.Reset | voicemeeter/remote.py:154-155 | `reset` applies the profile `base` |
| Remote.Connect | voicemeeter/remote.py:192-200 | an unknown kind id raises `InvalidKind`; a known one yields a fresh session of that kind with its profile row |
| Legacy.Make | vmr/remote.py:11-20 | a version `make` does not know raises `InvalidVersion` |
| Legacy.Connect | vmr/__init__.py:4-12 | a version `connect` does not know raises `InvalidVersion` |
| Legacy.DispatchMatchesKinds | vmr/__init__.py:4-12 | `connect` accepts exactly 1..3 and the three kind ids and picks the matching kind; `make` agrees except that it refuses `basic` |
| Legacy.DisplayName | vmr/remote.py:40-52 | codes 1, 2, 3 give `Voicemeeter`, `Voicemeeter Banana`, `Voicemeeter Potato`, the same codes the newer session accepts; others raise |
| Legacy.LegacyInputsMatchLayout | vmr/remote.py:98-111 | the 3, 5 or 8 strips each class builds, the first 2, 3 or 5 physical, are the layout of its kind |
| Legacy.CachedReadCalls | vmr/remote.py:69-89 | on a hit only the dirty check is issued and the cached value is returned; otherwise exactly one read of the kind the flags select follows, returning the stored value |
| Legacy.CachedReadDiffersFromRead | vmr/remote.py:71-74 | unlike the newer `get`, a hit answers from the cache even when the store holds something else |
| Legacy.MonoAndMc | vmr/input.py:43-55 | physical `mono` and virtual `mc` both read `Mono` as a bool, each only on its own variant, where the newer virtual `mono` addresses `MC` |
| Legacy.LegacyRemote.constructor | vmr/remote.py:22-23 | a new session has an empty cache and its edition's inputs |
| Legacy.LegacyRemote.Login | vmr/remote.py:33-36 | the Login call followed by the dirty check |
| Legacy.LegacyRemote.Logout | vmr/remote.py:37-38 | one Logout call |
| Legacy.LegacyRemote.Type | vmr/remote.py:40-52 | one type request; its error, or the display name |
| Legacy.LegacyRemote.Version | vmr/remote.py:54-62 | one version request; its error, or the unpacked version word |
| Legacy.LegacyRemote.Dirty | vmr/remote.py:64-67 | one dirty request, interpreted as specified |
| Legacy.LegacyRemote.Get | vmr/remote.py:69-89 | `get` has the cached-read effect, and afterwards the cache maps the parameter to the value returned |
| Legacy.LegacyRemote.GetField | vmr/input.py:18-55 | a getter of an input strip reads `Strip[i].<param>` through the cache, bools compared with 1, and the cache then holds what it read; an unknown getter makes no call |
| Legacy.CachedFieldReadsBack | vmr/input.py:21-26 | with the library clean, a bool field whose parameter is cached, whatever else the cache holds, reads as whether the cached value is 1 |
| Legacy.StripName | vmr/strips.py:27-29 | `name` is the input strip's identifier `Strip[i]` |
| Legacy.StripGetAlwaysFails | vmr/strips.py:31-34 | as written, every strip `get` raises, so `mono`, `mc`, `solo` and `mute` never return |
| Legacy.StripReads | vmr/strips.py:31-51 | with the corrected `get`: an unknown parameter is refused without a call; numeric ones are read as floats at the strip's address; `mono`/`mc` are refused on the wrong variant and otherwise read the stored `Mono` compared with 1 |

## Findings

| source | as written | input that shows it | evidently intended | confidence | as-written member | corrected member |
|---|---|---|---|---|---|---|
| vmr/strips.py:34 | `get` forwards `numeric=INPUT_PARAM_MAP[param]` to the session's `get`, whose only keywords are `string` and `ascii` (vmr/remote.py:69) | `InputStrip(remote, 0, False).mono` on any session: the call raises a TypeError for the keyword `numeric` before the library is reached | read the parameter as a number when the map marks it numeric and as a string otherwise | high; not executed | Legacy.StripGetAlwaysFails | Legacy.StripReads |

## Left out

- The library is a model, not the DLL. Loading it, the platform and bitness checks and `ctypes` buffers are left out (voicemeeter/driver.py and vmr/driver.py are not part of this model).
- The settle delays (`time.sleep`, including `delay`) and the debug prints of `vmr/remote.py` are timing and logging only.
- Launching the mixer (`launch`) and the demo script are left out.
- Profiles loaded from TOML files are a parameter, `loaded`, of `Profiles.BuildProfiles`. Reading and parsing the files is left out.
- Profiles.BuildProfiles: takes the kinds list as a parameter (the caller passes `Kinds.All`). Evaluating the built-in profiles of the three literal kinds inside proofs is too expensive for the verifier.
- The range normalisation of `float_prop` and the `gain`/`comp`/`gate` scaling of vmr/input.py are floating-point arithmetic. Float fields pass the value through, and the `vmr` getters `gain`, `comp` and `gate` are not modelled.
- Elements.Encode: models `float(val)` only as accepting a number or a bool, not as parsing numeric strings.
- Numerals.ParseNat: accepts only plain digit strings. `int()`'s leading and trailing whitespace, sign and underscores are not modelled.
- Parameter names are strings. Their ASCII encoding, and the cache being keyed by the encoded bytes, are taken as the identity.
- Floats are Dafny reals. Single-precision rounding through `c_float` is not modelled.
- Values in profiles are bools, numbers, strings and nested dicts. Lists and other TOML values are not modelled.
- The version dispatch compares values of the `Version` datatype. Python's `True == 1` is not modelled.
- Session.Unpack: writes the mask-and-shift of the version word as division and remainder by powers of two, after reducing the word modulo 2^32.
- `target.apply(submapping)` of an element is not part of this model. It is modelled as one field setter per key, in order, where an unknown field is an error.
- The module-level `loggedIn` flag is a `LoginFlag` object shared by the sessions that are given it.
- DictMerge.MergeDicts: on a failing merge, the model states the error but not what the partial merge left in `dest`.
- Aliasing between profile dicts is not modelled. Profiles are values, so `merge_dicts(base, profile)` cannot alias the table's stored dicts.
- The `KeyError` handler of `apply_profile` wraps only missing names and bases. A `KeyError` from inside `apply` is not singled out.
- Session.Outputs: builds output buses with `i < num_B` physical, as written. Session.OutputVariantsAgree shows that this choice has no observable effect.
- Session.ToValue: the library answers a read with a float or a string only. Other answer shapes map to 0, a case no read produces.
