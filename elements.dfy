/** Strips and buses as data (voicemeeter/input.py, vmr/strip.py,
    vmr/output.py): how an element names itself on the wire, which fields
    each variant has, and how a field's value is encoded for `set` and
    decoded after `get`. */
module Elements {
  import opened Errors
  import opened Native
  import opened Numerals
  import opened Kinds
  import opened DictMerge
  import opened Profiles

  datatype Family = InputStrip | OutputBus

  /** An element as `make` builds it: its family, whether `make` chose the
      physical variant, and its index. */
  datatype Element = Element(family: Family, physical: bool, index: nat)

  /** `identifier`: `Strip[i]` for an input strip, `Bus[i]` for an output bus. */
  function Identifier(e: Element): string
  {
    (if e.family == InputStrip then "Strip[" else "Bus[") + NatToString(e.index) + "]"
  }

  /** `VMElement.get`/`set`: the parameter `'{identifier}.{param}'`. */
  function Address(e: Element, param: string): string
  {
    Identifier(e) + "." + param
  }

  /** The only `]` of an identifier is its last character. */
  lemma IdentifierShape(e: Element)
    ensures |Identifier(e)| > 0 && Identifier(e)[|Identifier(e)| - 1] == ']'
    ensures forall j :: 0 <= j < |Identifier(e)| - 1 ==> Identifier(e)[j] != ']'
  {
    var p := if e.family == InputStrip then "Strip[" else "Bus[";
    var n := NatToString(e.index);
    assert Identifier(e) == p + n + "]";
    forall j | 0 <= j < |Identifier(e)| - 1 ensures Identifier(e)[j] != ']' {
      if j >= |p| {
        assert Identifier(e)[j] == n[j - |p|];
        assert IsDigit(n[j - |p|]);
      }
    }
  }

  /** Different elements have different identifiers. */
  lemma IdentifierInjective(e1: Element, e2: Element)
    ensures Identifier(e1) == Identifier(e2) <==> e1.family == e2.family && e1.index == e2.index
  {
    if Identifier(e1) == Identifier(e2) {
      var p1 := if e1.family == InputStrip then "Strip[" else "Bus[";
      var p2 := if e2.family == InputStrip then "Strip[" else "Bus[";
      assert Identifier(e1)[0] == p1[0] && Identifier(e2)[0] == p2[0];
      assert p1 == p2;
      var s := Identifier(e1);
      assert s[|p1|..|s| - 1] == NatToString(e1.index);
      assert Identifier(e2)[|p2|..|s| - 1] == NatToString(e2.index);
      NatToStringInjective(e1.index, e2.index);
    }
  }

  /** Two fields address the same parameter only when they are the same
      parameter of the same element: the first `]` ends the identifier. */
  lemma AddressInjective(e1: Element, p1: string, e2: Element, p2: string)
    ensures Address(e1, p1) == Address(e2, p2) <==>
      e1.family == e2.family && e1.index == e2.index && p1 == p2
  {
    if Address(e1, p1) == Address(e2, p2) {
      var a := Address(e1, p1);
      var i1, i2 := Identifier(e1), Identifier(e2);
      IdentifierShape(e1);
      IdentifierShape(e2);
      assert a[..|i1|] == i1 && a[..|i2|] == i2;
      assert i1 == i2;
      assert a[|i1| + 1..] == p1 && Address(e2, p2)[|i2| + 1..] == p2;
      IdentifierInjective(e1, e2);
    }
  }

  // ---------------------------------------------------------------------
  // Field tables.

  /** How a field is carried on the wire: `bool_prop`, `str_prop`, `float_prop`. */
  datatype Codec = BoolProp | StrProp | FloatProp

  /** A field: the parameter it addresses and its encoding. */
  datatype Field = Field(param: string, codec: Codec)

  /** `{prefix}1 .. {prefix}{count}`. */
  function FlagNames(prefix: string, count: nat): set<string>
  {
    set i: nat | 1 <= i <= count :: prefix + NatToString(i)
  }

  /** The routing flags of the strip mixin: `A1..A{numA}` and `B1..B{numB}`. */
  function RoutingNames(k: Kind): set<string>
  {
    FlagNames("A", k.numA) + FlagNames("B", k.numB)
  }

  /** A routing flag starts with `A` or `B`. */
  lemma RoutingNameShape(k: Kind, name: string)
    requires name in RoutingNames(k)
    ensures |name| > 1 && (name[0] == 'A' || name[0] == 'B')
  {
    if name in FlagNames("A", k.numA) {
      var i: nat :| 1 <= i <= k.numA && name == "A" + NatToString(i);
      assert name[0] == 'A';
    } else {
      var i: nat :| 1 <= i <= k.numB && name == "B" + NatToString(i);
      assert name[0] == 'B';
    }
  }

  /** A name that does not start with `A` or `B` is no routing flag. */
  lemma NotRouting(k: Kind, name: string)
    requires name == [] || (name[0] != 'A' && name[0] != 'B')
    ensures name !in RoutingNames(k)
  {
    if name in RoutingNames(k) {
      RoutingNameShape(k, name);
    }
  }

  /** The fields every input strip declares. */
  const CommonInputFields: map<string, Field> := map[
    "solo" := Field("Solo", BoolProp),
    "mute" := Field("Mute", BoolProp),
    "gain" := Field("Gain", FloatProp),
    "comp" := Field("Comp", FloatProp),
    "gate" := Field("Gate", FloatProp),
    "label" := Field("Label", StrProp),
    "device" := Field("device.name", StrProp),
    "sr" := Field("device.sr", StrProp)]

  /** The fields of an input strip of edition `k`: the common ones, `mono`
      (parameter `Mono` on the physical variant, `MC` on the virtual one),
      and the routing flags of the layout. */
  function InputFields(k: Kind, physical: bool): map<string, Field>
  {
    CommonInputFields["mono" := Field(if physical then "Mono" else "MC", BoolProp)]
      + map name | name in RoutingNames(k) :: Field(name, BoolProp)
  }

  /** The fields of an output bus; both variants declare the same. */
  const OutputFields: map<string, Field> := map["mute" := Field("Mute", BoolProp), "gain" := Field("Gain", FloatProp)]

  function Fields(k: Kind, e: Element): map<string, Field>
  {
    if e.family == InputStrip then InputFields(k, e.physical) else OutputFields
  }

  /** The routing flags of an input strip are exactly the routing keys of the
      blank profile's input configuration. */
  lemma RoutingNamesMatchProfile(k: Kind)
    ensures RoutingNames(k) == KeySet(RoutingA(k)) + KeySet(RoutingB(k))
  {
    FlagNamesAreKeys("A", k.numA);
    FlagNamesAreKeys("B", k.numB);
  }

  lemma FlagNamesAreKeys(prefix: string, count: nat)
    ensures FlagNames(prefix, count) == KeySet(Numbered(prefix, 1, count, Off))
  {
    var d := Numbered(prefix, 1, count, Off);
    forall name | name in KeySet(d) ensures name in FlagNames(prefix, count) {
      NumberedKeys(prefix, 1, count, Off, name);
      var i :| 1 <= i < 1 + count && name == prefix + NatToString(i);
      var j: nat := i;
      assert 1 <= j <= count && name == prefix + NatToString(j);
    }
    forall name | name in FlagNames(prefix, count) ensures name in KeySet(d) {
      var i: nat :| 1 <= i <= count && name == prefix + NatToString(i);
      NumberedKeys(prefix, 1, count, Off, name);
      assert 1 <= i < 1 + count && name == prefix + NatToString(i);
    }
  }

  /** Where a field of an input strip comes from: `mono`, a common field,
      or a routing flag, which addresses the parameter of its own name. */
  lemma InputFieldsAt(k: Kind, physical: bool, name: string)
    ensures name in InputFields(k, physical) <==> name == "mono" || name in CommonInputFields || name in RoutingNames(k)
    ensures name in InputFields(k, physical) ==>
      InputFields(k, physical)[name] ==
        if name == "mono" then Field(if physical then "Mono" else "MC", BoolProp)
        else if name in CommonInputFields then CommonInputFields[name]
        else Field(name, BoolProp)
  {
    if name in RoutingNames(k) {
      RoutingNameShape(k, name);
      assert name != "mono" && name !in CommonInputFields;
    }
  }

  /** The common fields the blank profile sets: `gain` is the float field
      `Gain`, `solo` and `mute` are bool fields. */
  lemma BlankCommonFields()
    ensures CommonInputFields["gain"] == Field("Gain", FloatProp)
    ensures CommonInputFields["solo"].codec == BoolProp && CommonInputFields["mute"].codec == BoolProp
  {
  }

  /** The fields of an input strip: `mono` addresses `Mono` on a physical
      strip and `MC` on a virtual one, and every common field (`solo`,
      `mute`, `gain`, `comp`, `gate`, `label`, `device`, `sr`) is declared
      on both variants as listed. */
  lemma InputVariants(k: Kind, physical: bool)
    ensures InputFields(k, physical)["mono"] == Field(if physical then "Mono" else "MC", BoolProp)
    ensures forall name :: name in CommonInputFields ==>
      name in InputFields(k, physical) && InputFields(k, physical)[name] == CommonInputFields[name]
  {
    NotRouting(k, "mono");
    assert "mono" !in CommonInputFields;
    forall name | name in CommonInputFields
      ensures name in InputFields(k, physical) && InputFields(k, physical)[name] == CommonInputFields[name]
    {
      InputFieldsAt(k, physical, name);
    }
  }

  /** The two input variants agree on every field but `mono`. */
  lemma InputVariantsAgree(k: Kind, name: string)
    requires name != "mono"
    ensures name in InputFields(k, true) <==> name in InputFields(k, false)
    ensures name in InputFields(k, true) ==> InputFields(k, true)[name] == InputFields(k, false)[name]
  {
    InputFieldsAt(k, true, name);
    InputFieldsAt(k, false, name);
  }

  /** Every field of the blank profile's input and output entries is a field
      of every input strip and output bus, and a routing flag is a bool field
      addressing the parameter of its own name. */
  lemma BlankFieldsKnown(k: Kind, physical: bool, name: string)
    ensures KeySet(InputConfig(k)) <= InputFields(k, physical).Keys
    ensures KeySet(OutputConfig) == OutputFields.Keys
    ensures name in RoutingNames(k) ==> InputFields(k, physical)[name] == Field(name, BoolProp)
  {
    forall key | key in KeySet(InputConfig(k)) ensures key in InputFields(k, physical) {
      InputConfigLookup(k, key);
      CommonInputKeys(key);
      RoutingNamesMatchProfile(k);
    }
    forall key ensures key in KeySet(OutputConfig) <==> key in OutputFields {
      OutputConfigFields(key);
    }
    if name in RoutingNames(k) {
      RoutingNameShape(k, name);
    }
  }

  // ---------------------------------------------------------------------
  // Encoding.

  /** Python truthiness of a profile value. */
  predicate Truthy(v: Tree)
  {
    match v
    case Leaf(Bool(b)) => b
    case Leaf(Number(x)) => x != 0.0
    case Leaf(Str(s)) => s != ""
    case Node(d) => d != []
  }

  /** What a field's setter hands to `set` for the value `v` given to field
      `name`: a bool field writes 1 for a truthy value and 0 otherwise; a
      string or float field passes the value on, and `set` cannot convert a
      mapping, nor can a float field's scaling take a string. */
  function Encode(f: Field, name: string, v: Tree): (r: Result<Scalar>)
    ensures r.Err? <==> f.codec != BoolProp && (v.Node? || (f.codec == FloatProp && v.value.Str?))
    ensures r.Err? ==> r.error == NotConvertible(name)
    ensures f.codec == BoolProp ==> r.Ok? && (r.value == Number(1.0) <==> Truthy(v)) && r.value in {Number(0.0), Number(1.0)}
    ensures f.codec != BoolProp && r.Ok? ==> v == Leaf(r.value)
  {
    match f.codec
    case BoolProp => Ok(Number(if Truthy(v) then 1.0 else 0.0))
    case StrProp => if v.Leaf? then Ok(v.value) else Err(NotConvertible(name))
    case FloatProp => if v.Leaf? && !v.value.Str? then Ok(v.value) else Err(NotConvertible(name))
  }

  /** What a field's getter makes of the value `get` returns: a bool field is
      True exactly when the value equals 1; the others pass it on. */
  function Decode(c: Codec, w: Value): (r: Scalar)
    ensures c == BoolProp ==> r.Bool? && (r.b <==> w == Num(1.0))
    ensures c != BoolProp ==> (w.Num? ==> r == Number(w.x)) && (w.Text? ==> r == Str(w.s))
  {
    match c
    case BoolProp => Bool(w == Num(1.0))
    case _ => (match w case Num(x) => Number(x) case Text(s) => Str(s))
  }
}
