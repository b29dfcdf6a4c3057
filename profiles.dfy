/** The built-in profiles (voicemeeter/profiles.py): for every edition a
    `blank` profile that zeroes every strip and bus, and a `base` profile
    that additionally routes each physical input to `B1` and each virtual
    input to `A1`. */
module Profiles {
  import opened Errors
  import opened Native
  import opened Numerals
  import opened Kinds
  import opened DictMerge

  /** `{f'{prefix}{i}': v for i in range(from, from + count)}`. */
  function Numbered(prefix: string, from: nat, count: nat, v: Tree): (d: Dict)
    ensures |d| == count
    ensures forall i :: 0 <= i < count ==> d[i] == Entry(prefix + NatToString(from + i), v)
  {
    seq(count, i requires 0 <= i < count => Entry(prefix + NatToString(from + i), v))
  }

  function InKey(i: nat): string
  {
    "in-" + NatToString(i)
  }

  function OutKey(i: nat): string
  {
    "out-" + NatToString(i)
  }

  function Flag(name: string, b: bool): Entry
  {
    Entry(name, Leaf(Bool(b)))
  }

  const Zero: Tree := Leaf(Number(0.0))
  const Off: Tree := Leaf(Bool(false))

  /** The fields of an input strip that every edition has. */
  const CommonInput: Dict := [Entry("gain", Zero), Flag("solo", false), Flag("mute", false), Flag("mono", false)]

  /** `input_strip_config`: common fields, then the routing flags of the layout. */
  function InputConfig(k: Kind): Dict
  {
    CommonInput + RoutingA(k) + RoutingB(k)
  }

  /** `output_strip_config`. */
  const OutputConfig: Dict := [Entry("gain", Zero), Flag("mute", false)]

  /** `_make_blank_profile`: `in-0 .. in-(n-1)`, then `out-0 .. out-(n-1)`, with
      n the number of strips of the layout. */
  function Blank(k: Kind): Dict
  {
    BlankInputs(k) + BlankOutputs(k)
  }

  /** The `overrides` of `_make_base_profile`. */
  function Overrides(k: Kind): Dict
  {
    Numbered("in-", 0, k.numA, Node([Flag("B1", true)]))
      + Numbered("in-", k.numA, k.numB, Node([Flag("A1", true)]))
  }

  // ---------------------------------------------------------------------
  // Numbered families of keys.

  lemma NumberedKeys(prefix: string, from: nat, count: nat, v: Tree, key: string)
    ensures key in KeySet(Numbered(prefix, from, count, v))
      <==> exists i :: from <= i < from + count && key == prefix + NatToString(i)
  {
    var d := Numbered(prefix, from, count, v);
    if key in KeySet(d) {
      var j :| 0 <= j < |d| && d[j].key == key;
      assert from <= from + j < from + count && key == prefix + NatToString(from + j);
    }
    if exists i :: from <= i < from + count && key == prefix + NatToString(i) {
      var i :| from <= i < from + count && key == prefix + NatToString(i);
      var j := i - from;
      assert d[j] == Entry(prefix + NatToString(i), v);
      assert 0 <= j < |d| && d[j].key == key;
    }
  }

  lemma NumberedFirstChar(prefix: string, from: nat, count: nat, v: Tree, key: string)
    requires |prefix| > 0 && key in KeySet(Numbered(prefix, from, count, v))
    ensures |key| > 0 && key[0] == prefix[0]
  {
    NumberedKeys(prefix, from, count, v, key);
  }

  lemma NumberedUnique(prefix: string, from: nat, count: nat, v: Tree)
    ensures UniqueKeys(Numbered(prefix, from, count, v))
  {
    var d := Numbered(prefix, from, count, v);
    forall i, j | 0 <= i < j < |d| ensures d[i].key != d[j].key {
      assert d[i].key == prefix + NatToString(from + i);
      assert d[j].key == prefix + NatToString(from + j);
      PrefixedInjective(prefix, from + i, from + j);
    }
  }

  lemma NumberedWellFormed(prefix: string, from: nat, count: nat, v: Tree)
    requires WellFormedTree(v)
    ensures WellFormed(Numbered(prefix, from, count, v))
  {
    var d := Numbered(prefix, from, count, v);
    NumberedUnique(prefix, from, count, v);
    forall i | 0 <= i < |d| && d[i].val.Node? ensures WellFormed(d[i].val.entries) {
      assert d[i].val == v;
    }
  }

  lemma NumberedLookup(prefix: string, from: nat, count: nat, v: Tree, i: nat)
    requires from <= i < from + count
    ensures Lookup(Numbered(prefix, from, count, v), prefix + NatToString(i)) == Some(v)
  {
    var d := Numbered(prefix, from, count, v);
    NumberedUnique(prefix, from, count, v);
    LookupAt(d, i - from);
    assert d[i - from] == Entry(prefix + NatToString(i), v);
  }

  /** Two numbered families whose prefixes start differently share no key. */
  lemma NumberedApart(p: string, f: nat, c: nat, v: Tree, q: string, g: nat, e: nat, w: Tree)
    requires |p| > 0 && |q| > 0 && p[0] != q[0]
    ensures KeySet(Numbered(p, f, c, v)) !! KeySet(Numbered(q, g, e, w))
  {
    forall key | key in KeySet(Numbered(p, f, c, v)) ensures key !in KeySet(Numbered(q, g, e, w)) {
      NumberedFirstChar(p, f, c, v, key);
      if key in KeySet(Numbered(q, g, e, w)) {
        NumberedFirstChar(q, g, e, w, key);
      }
    }
  }

  /** Two numbered families with one prefix over disjoint ranges share no key. */
  lemma NumberedRangesApart(p: string, f: nat, c: nat, v: Tree, e: nat, w: Tree)
    ensures KeySet(Numbered(p, f, c, v)) !! KeySet(Numbered(p, f + c, e, w))
  {
    forall key | key in KeySet(Numbered(p, f, c, v)) ensures key !in KeySet(Numbered(p, f + c, e, w)) {
      NumberedKeys(p, f, c, v, key);
      NumberedKeys(p, f + c, e, w, key);
      var i :| f <= i < f + c && key == p + NatToString(i);
      forall j | f + c <= j < f + c + e ensures key != p + NatToString(j) {
        PrefixedInjective(p, i, j);
      }
    }
  }

  // ---------------------------------------------------------------------
  // The blank profile.

  lemma CommonInputKeys(key: string)
    ensures key in KeySet(CommonInput) <==> key in {"gain", "solo", "mute", "mono"}
  {
    var d := CommonInput;
    if key in {"gain", "solo", "mute", "mono"} {
      assert d[0].key == "gain" && d[1].key == "solo" && d[2].key == "mute" && d[3].key == "mono";
    }
  }

  lemma InputConfigWellFormed(k: Kind)
    ensures WellFormed(InputConfig(k))
  {
    var a := RoutingA(k);
    var b := RoutingB(k);
    assert WellFormed(CommonInput) by {
      var d := CommonInput;
      assert d[0].key == "gain" && d[1].key == "solo" && d[2].key == "mute" && d[3].key == "mono";
    }
    NumberedWellFormed("A", 1, k.numA, Off);
    NumberedWellFormed("B", 1, k.numB, Off);
    forall key | key in KeySet(CommonInput) ensures key !in KeySet(a) && key !in KeySet(b) {
      CommonInputKeys(key);
      if key in KeySet(a) {
        NumberedFirstChar("A", 1, k.numA, Off, key);
      }
      if key in KeySet(b) {
        NumberedFirstChar("B", 1, k.numB, Off, key);
      }
    }
    WellFormedAppend(CommonInput, a);
    KeySetAppend(CommonInput, a);
    NumberedApart("A", 1, k.numA, Off, "B", 1, k.numB, Off);
    WellFormedAppend(CommonInput + a, b);
  }

  function RoutingA(k: Kind): Dict
  {
    Numbered("A", 1, k.numA, Off)
  }

  function RoutingB(k: Kind): Dict
  {
    Numbered("B", 1, k.numB, Off)
  }

  /** Where a key of the input configuration comes from. */
  lemma InputConfigLookup(k: Kind, key: string)
    ensures Lookup(InputConfig(k), key) ==
      if key in KeySet(CommonInput) then Lookup(CommonInput, key)
      else if key in KeySet(RoutingA(k)) then Lookup(RoutingA(k), key)
      else Lookup(RoutingB(k), key)
    ensures KeySet(InputConfig(k)) == KeySet(CommonInput) + KeySet(RoutingA(k)) + KeySet(RoutingB(k))
  {
    LookupAppend(CommonInput + RoutingA(k), RoutingB(k), key);
    LookupAppend(CommonInput, RoutingA(k), key);
    KeySetAppend(CommonInput + RoutingA(k), RoutingB(k));
    KeySetAppend(CommonInput, RoutingA(k));
  }

  /** In the blank input configuration `gain` is 0.0 and `solo`, `mute` and
      `mono` are False. */
  lemma InputConfigCommon(k: Kind)
    ensures Lookup(InputConfig(k), "gain") == Some(Zero)
    ensures Lookup(InputConfig(k), "solo") == Some(Off)
    ensures Lookup(InputConfig(k), "mute") == Some(Off)
    ensures Lookup(InputConfig(k), "mono") == Some(Off)
  {
    var d := CommonInput;
    assert d[0] == Entry("gain", Zero) && d[1] == Flag("solo", false) && d[2] == Flag("mute", false) && d[3] == Flag("mono", false);
    assert UniqueKeys(d);
    LookupAt(d, 0);
    LookupAt(d, 1);
    LookupAt(d, 2);
    LookupAt(d, 3);
    InputConfigLookup(k, "gain");
    InputConfigLookup(k, "solo");
    InputConfigLookup(k, "mute");
    InputConfigLookup(k, "mono");
  }

  /** In the blank input configuration every routing flag `A1..A{numA}`,
      `B1..B{numB}` is False. */
  lemma InputConfigRouting(k: Kind, i: nat)
    ensures 1 <= i <= k.numA ==> Lookup(InputConfig(k), "A" + NatToString(i)) == Some(Off)
    ensures 1 <= i <= k.numB ==> Lookup(InputConfig(k), "B" + NatToString(i)) == Some(Off)
  {
    var a := "A" + NatToString(i);
    var b := "B" + NatToString(i);
    InputConfigLookup(k, a);
    InputConfigLookup(k, b);
    assert a[0] == 'A' && b[0] == 'B';
    CommonInputKeys(a);
    CommonInputKeys(b);
    if 1 <= i <= k.numA {
      NumberedLookup("A", 1, k.numA, Off, i);
    }
    if 1 <= i <= k.numB {
      NumberedLookup("B", 1, k.numB, Off, i);
      NumberedApart("A", 1, k.numA, Off, "B", 1, k.numB, Off);
    }
  }

  /** The blank input configuration has no field besides `gain`, `solo`,
      `mute`, `mono` and the routing flags of the layout. */
  lemma InputConfigKeys(k: Kind, key: string)
    ensures key in KeySet(InputConfig(k)) <==>
      || key in {"gain", "solo", "mute", "mono"}
      || (exists i :: 1 <= i <= k.numA && key == "A" + NatToString(i))
      || (exists i :: 1 <= i <= k.numB && key == "B" + NatToString(i))
  {
    InputConfigLookup(k, key);
    CommonInputKeys(key);
    NumberedKeys("A", 1, k.numA, Off, key);
    NumberedKeys("B", 1, k.numB, Off, key);
  }

  lemma OutputConfigFields(key: string)
    ensures WellFormed(OutputConfig)
    ensures Lookup(OutputConfig, "gain") == Some(Zero)
    ensures Lookup(OutputConfig, "mute") == Some(Off)
    ensures key in KeySet(OutputConfig) <==> key in {"gain", "mute"}
  {
    var d := OutputConfig;
    assert d[0].key == "gain" && d[1].key == "mute";
  }

  lemma BlankWellFormed(k: Kind)
    ensures WellFormed(Blank(k))
  {
    var n := k.numA + k.numB;
    InputConfigWellFormed(k);
    OutputConfigFields("");
    NumberedWellFormed("in-", 0, n, Node(InputConfig(k)));
    NumberedWellFormed("out-", 0, n, Node(OutputConfig));
    NumberedApart("in-", 0, n, Node(InputConfig(k)), "out-", 0, n, Node(OutputConfig));
    WellFormedAppend(BlankInputs(k), BlankOutputs(k));
  }

  function BlankInputs(k: Kind): Dict
  {
    Numbered("in-", 0, k.numA + k.numB, Node(InputConfig(k)))
  }

  function BlankOutputs(k: Kind): Dict
  {
    Numbered("out-", 0, k.numA + k.numB, Node(OutputConfig))
  }

  /** Each `in-i` of the blank profile holds the blank input configuration,
      and each `out-i` holds `{gain: 0.0, mute: False}`. */
  lemma BlankLookup(k: Kind, i: nat)
    requires i < k.numA + k.numB
    ensures Lookup(Blank(k), InKey(i)) == Some(Node(InputConfig(k)))
    ensures Lookup(Blank(k), OutKey(i)) == Some(Node(OutputConfig))
  {
    var n := k.numA + k.numB;
    var ins, outs := BlankInputs(k), BlankOutputs(k);
    assert Blank(k) == ins + outs;
    assert Lookup(ins, InKey(i)) == Some(Node(InputConfig(k))) by {
      NumberedLookup("in-", 0, n, Node(InputConfig(k)), i);
    }
    assert Lookup(outs, OutKey(i)) == Some(Node(OutputConfig)) by {
      NumberedLookup("out-", 0, n, Node(OutputConfig), i);
    }
    assert OutKey(i) !in KeySet(ins) by {
      if OutKey(i) in KeySet(ins) {
        NumberedFirstChar("in-", 0, n, Node(InputConfig(k)), OutKey(i));
      }
    }
    LookupAppend(ins, outs, InKey(i));
    LookupAppend(ins, outs, OutKey(i));
  }

  /** The blank profile has exactly the keys `in-i` and `out-i` for every
      strip index `i` of the layout. */
  lemma BlankKeys(k: Kind, key: string)
    ensures key in KeySet(Blank(k)) <==>
      exists i :: 0 <= i < k.numA + k.numB && (key == InKey(i) || key == OutKey(i))
  {
    var n := k.numA + k.numB;
    var ins, outs := BlankInputs(k), BlankOutputs(k);
    if key in KeySet(Blank(k)) {
      assert Blank(k) == ins + outs;
      KeySetAppend(ins, outs);
      if key in KeySet(ins) {
        NumberedKeys("in-", 0, n, Node(InputConfig(k)), key);
        var i :| 0 <= i < n && key == "in-" + NatToString(i);
        assert key == InKey(i);
      } else {
        NumberedKeys("out-", 0, n, Node(OutputConfig), key);
        var i :| 0 <= i < n && key == "out-" + NatToString(i);
        assert key == OutKey(i);
      }
    }
    if exists i :: 0 <= i < n && (key == InKey(i) || key == OutKey(i)) {
      var i :| 0 <= i < n && (key == InKey(i) || key == OutKey(i));
      BlankLookup(k, i);
    }
  }

  // ---------------------------------------------------------------------
  // The base profile.

  /** The routing flag the base profile turns on for input `i`: `B1` on a
      physical strip, `A1` on a virtual one. */
  function RouteFlag(k: Kind, i: nat): string
  {
    if i < k.numA then "B1" else "A1"
  }

  function PhysicalOverrides(k: Kind): Dict
  {
    Numbered("in-", 0, k.numA, Node([Flag("B1", true)]))
  }

  function VirtualOverrides(k: Kind): Dict
  {
    Numbered("in-", k.numA, k.numB, Node([Flag("A1", true)]))
  }

  lemma OverridesWellFormed(k: Kind)
    ensures WellFormed(Overrides(k))
  {
    assert Overrides(k) == PhysicalOverrides(k) + VirtualOverrides(k);
    NumberedWellFormed("in-", 0, k.numA, Node([Flag("B1", true)]));
    NumberedWellFormed("in-", k.numA, k.numB, Node([Flag("A1", true)]));
    NumberedRangesApart("in-", 0, k.numA, Node([Flag("B1", true)]), k.numB, Node([Flag("A1", true)]));
    WellFormedAppend(PhysicalOverrides(k), VirtualOverrides(k));
  }

  lemma OverridesKeys(k: Kind, key: string)
    ensures key in KeySet(Overrides(k)) <==> exists i :: 0 <= i < k.numA + k.numB && key == InKey(i)
  {
    if key in KeySet(Overrides(k)) {
      assert Overrides(k) == PhysicalOverrides(k) + VirtualOverrides(k);
      KeySetAppend(PhysicalOverrides(k), VirtualOverrides(k));
      NumberedKeys("in-", 0, k.numA, Node([Flag("B1", true)]), key);
      NumberedKeys("in-", k.numA, k.numB, Node([Flag("A1", true)]), key);
      var i :| 0 <= i < k.numA + k.numB && key == "in-" + NatToString(i);
      assert key == InKey(i);
    }
    if exists i :: 0 <= i < k.numA + k.numB && key == InKey(i) {
      var i :| 0 <= i < k.numA + k.numB && key == InKey(i);
      OverridesLookup(k, i);
    }
  }

  lemma OverridesLookup(k: Kind, i: nat)
    requires i < k.numA + k.numB
    ensures Lookup(Overrides(k), InKey(i)) == Some(Node([Flag(RouteFlag(k, i), true)]))
  {
    assert Overrides(k) == PhysicalOverrides(k) + VirtualOverrides(k);
    LookupAppend(PhysicalOverrides(k), VirtualOverrides(k), InKey(i));
    if i < k.numA {
      NumberedLookup("in-", 0, k.numA, Node([Flag("B1", true)]), i);
    } else {
      NumberedLookup("in-", k.numA, k.numB, Node([Flag("A1", true)]), i);
      NumberedKeys("in-", 0, k.numA, Node([Flag("B1", true)]), InKey(i));
      forall j | 0 <= j < k.numA ensures InKey(i) != "in-" + NatToString(j) {
        PrefixedInjective("in-", i, j);
      }
    }
  }

  /** Merging a one-flag dict into a configuration sets that flag. */
  lemma MergeFlag(c: Dict, name: string)
    ensures Merged(c, [Flag(name, true)]) == Ok(Put(c, name, Leaf(Bool(true))))
  {
    var e := Flag(name, true);
    assert [e][0] == e && [e][1..] == [];
    assert Incoming(name, Lookup(c, name), e.val) == Ok(e.val);
    assert Step(c, e) == Ok(Put(c, name, e.val));
    assert Merged(Put(c, name, e.val), []) == Ok(Put(c, name, e.val));
  }

  /** What the merge of the overrides does at input `i`. */
  lemma IncomingAt(k: Kind, i: nat)
    requires i < k.numA + k.numB
    ensures Lookup(Overrides(k), InKey(i)) == Some(Node([Flag(RouteFlag(k, i), true)]))
    ensures Incoming(InKey(i), Lookup(Blank(k), InKey(i)), Node([Flag(RouteFlag(k, i), true)]))
      == Ok(Node(Put(InputConfig(k), RouteFlag(k, i), Leaf(Bool(true)))))
  {
    BlankLookup(k, i);
    OverridesLookup(k, i);
    MergeFlag(InputConfig(k), RouteFlag(k, i));
  }

  /** Folding the blank profile and the overrides into a fresh dict is
      merging the overrides into the blank profile. */
  lemma BaseFold(k: Kind)
    ensures MergedAll([], [Blank(k), Overrides(k)]) == Merged(Blank(k), Overrides(k))
  {
    BlankWellFormed(k);
    MergedIntoEmpty(Blank(k));
    var srcs := [Blank(k), Overrides(k)];
    assert srcs[0] == Blank(k) && srcs[1..] == [Overrides(k)];
    assert MergedAll([], srcs) == MergedAll(Blank(k), [Overrides(k)]);
    assert [Overrides(k)][0] == Overrides(k) && [Overrides(k)][1..] == [];
    match Merged(Blank(k), Overrides(k)) {
      case Ok(d) => assert MergedAll(d, []) == Ok(d);
      case Err(_) =>
    }
  }

  /** The merge of the base profile succeeds. */
  lemma BaseOk(k: Kind)
    ensures Merged(Blank(k), Overrides(k)).Ok?
    ensures MergedAll([], [Blank(k), Overrides(k)]) == Merged(Blank(k), Overrides(k))
  {
    BaseFold(k);
    OverridesWellFormed(k);
    forall key | key in KeySet(Overrides(k))
      ensures Incoming(key, Lookup(Blank(k), key), Lookup(Overrides(k), key).value).Ok?
    {
      OverridesKeys(k, key);
      var i :| 0 <= i < k.numA + k.numB && key == InKey(i);
      IncomingAt(k, i);
    }
    MergedOkIff(Blank(k), Overrides(k));
  }

  /** `_make_base_profile`. */
  function Base(k: Kind): (d: Dict)
    ensures MergedAll([], [Blank(k), Overrides(k)]) == Ok(d)
  {
    BaseOk(k);
    MergedAll([], [Blank(k), Overrides(k)]).value
  }

  /** The base profile is a proper dict with the keys of the blank profile. */
  lemma BaseKeys(k: Kind)
    ensures WellFormed(Base(k))
    ensures KeySet(Base(k)) == KeySet(Blank(k))
  {
    BaseOk(k);
    BlankWellFormed(k);
    OverridesWellFormed(k);
    MergedWellFormed(Blank(k), Overrides(k));
    MergedLookup(Blank(k), Overrides(k), "");
    forall key | key in KeySet(Overrides(k)) ensures key in KeySet(Blank(k)) {
      OverridesKeys(k, key);
      BlankKeys(k, key);
    }
  }

  /** The base profile routes every physical input (`i < numA`) to `B1` and
      every virtual input to `A1`; every other field of that input keeps its
      blank value. */
  lemma BaseRouting(k: Kind, i: nat)
    requires i < k.numA + k.numB
    ensures Lookup(Base(k), InKey(i)) == Some(Node(Put(InputConfig(k), RouteFlag(k, i), Leaf(Bool(true)))))
    ensures Lookup(Lookup(Base(k), InKey(i)).value.entries, RouteFlag(k, i)) == Some(Leaf(Bool(true)))
    ensures forall f :: f != RouteFlag(k, i) ==>
      Lookup(Lookup(Base(k), InKey(i)).value.entries, f) == Lookup(InputConfig(k), f)
  {
    BaseOk(k);
    OverridesWellFormed(k);
    OverridesLookup(k, i);
    MergedLookup(Blank(k), Overrides(k), InKey(i));
    IncomingAt(k, i);
  }

  /** Away from the inputs' routing, the base profile is the blank profile. */
  lemma BaseElsewhere(k: Kind, key: string)
    requires forall i :: 0 <= i < k.numA + k.numB ==> key != InKey(i)
    ensures Lookup(Base(k), key) == Lookup(Blank(k), key)
  {
    BaseOk(k);
    OverridesWellFormed(k);
    OverridesKeys(k, key);
    MergedLookup(Blank(k), Overrides(k), key);
  }

  // ---------------------------------------------------------------------
  // The profile table.

  /** The built-in profiles of one edition. */
  function Builtins(k: Kind): map<string, Dict>
  {
    map["blank" := Blank(k), "base" := Base(k)]
  }

  /** The profiles loaded from files for the edition with id `id`, if any. */
  function LoadedFor(loaded: map<string, map<string, Dict>>, id: string): map<string, Dict>
  {
    if id in loaded then loaded[id] else map[]
  }

  /** The module-level table: every edition gets its built-in `blank` and
      `base`, then the profiles loaded for it, a loaded profile replacing a
      built-in one of the same name. Reading the files is not modelled;
      `loaded` holds what they contained. */
  /** `_make_base_profile` as the program runs it: `merge_dicts` of the blank
      profile and the overrides into a fresh dict, which cannot fail. */
  method MakeBase(k: Kind) returns (base: Dict)
    ensures base == Base(k)
    ensures WellFormed(base) && KeySet(base) == KeySet(Blank(k))
  {
    var merged := MergeDicts([Blank(k), Overrides(k)], null);
    ghost var expected := Base(k);
    base := merged.value.entries;
    BaseKeys(k);
  }

  /** One row of the table: the two built-in profiles of an edition. */
  method MakeProfiles(k: Kind) returns (profiles: map<string, Dict>)
    ensures profiles == Builtins(k)
    ensures profiles.Keys == {"blank", "base"}
  {
    var base := MakeBase(k);
    profiles := map["blank" := Blank(k), "base" := base];
  }

  /** The table after the loop has filled in the editions `kinds`, in order. */
  function TableOf(loaded: map<string, map<string, Dict>>, kinds: seq<Kind>): map<string, map<string, Dict>>
  {
    if kinds == [] then map[]
    else
      var k := kinds[|kinds| - 1];
      TableOf(loaded, kinds[..|kinds| - 1])[k.id := Builtins(k) + LoadedFor(loaded, k.id)]
  }

  /** The table has a row for each registered edition and no other. */
  lemma {:induction false} TableKeys(loaded: map<string, map<string, Dict>>, kinds: seq<Kind>, id: string)
    ensures id in TableOf(loaded, kinds) <==> exists i :: 0 <= i < |kinds| && kinds[i].id == id
  {
    if kinds != [] {
      var init := kinds[..|kinds| - 1];
      TableKeys(loaded, init, id);
      if exists i :: 0 <= i < |init| && init[i].id == id {
        var i :| 0 <= i < |init| && init[i].id == id;
        assert kinds[i].id == id;
      }
      if exists i :: 0 <= i < |kinds| && kinds[i].id == id {
        var i :| 0 <= i < |kinds| && kinds[i].id == id;
        if i < |kinds| - 1 {
          assert init[i].id == id;
        }
      }
    }
  }

  /** With distinct ids, the row of each registered edition holds its
      built-in profiles, overridden by the ones loaded for it. */
  lemma {:induction false} TableRow(loaded: map<string, map<string, Dict>>, kinds: seq<Kind>, i: nat)
    requires forall a, b :: 0 <= a < b < |kinds| ==> kinds[a].id != kinds[b].id
    requires i < |kinds|
    ensures kinds[i].id in TableOf(loaded, kinds)
    ensures TableOf(loaded, kinds)[kinds[i].id] == Builtins(kinds[i]) + LoadedFor(loaded, kinds[i].id)
  {
    var init := kinds[..|kinds| - 1];
    if i < |kinds| - 1 {
      assert init[i] == kinds[i];
      TableRow(loaded, init, i);
    }
  }

  /** Every row of the table built for the known editions has a `blank` and
      a `base` profile. */
  lemma TableHasBuiltins(loaded: map<string, map<string, Dict>>, kinds: seq<Kind>, i: nat)
    requires forall a, b :: 0 <= a < b < |kinds| ==> kinds[a].id != kinds[b].id
    requires i < |kinds|
    ensures kinds[i].id in TableOf(loaded, kinds)
    ensures "blank" in TableOf(loaded, kinds)[kinds[i].id] && "base" in TableOf(loaded, kinds)[kinds[i].id]
  {
    TableRow(loaded, kinds, i);
  }

  /** The module-level loop over the editions `kinds` (the program passes
      every known edition, in table order). */
  method BuildProfiles(loaded: map<string, map<string, Dict>>, kinds: seq<Kind>) returns (table: map<string, map<string, Dict>>)
    ensures table == TableOf(loaded, kinds)
  {
    table := map[];
    for n := 0 to |kinds|
      invariant table == TableOf(loaded, kinds[..n])
    {
      var k := kinds[n];
      var profiles := MakeProfiles(k);
      table := table[k.id := profiles + LoadedFor(loaded, k.id)];
      assert kinds[..n + 1][..n] == kinds[..n];
    }
    assert kinds[..|kinds|] == kinds;
  }
}
