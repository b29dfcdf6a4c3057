/** The three mixer editions and their strip layouts (vmr/kinds.py). */
module Kinds {
  import opened Errors

  /** An edition: its id, display name, layout `(numA, numB)` of physical
      and virtual strips, and executable. */
  datatype Kind = Kind(id: string, name: string, numA: nat, numB: nat, executable: string)

  const Basic: Kind := Kind("basic", "Basic", 2, 1, "voicemeeter.exe")
  const Banana: Kind := Kind("banana", "Banana", 3, 2, "voicemeeterpro.exe")
  const Potato: Kind := Kind("potato", "Potato", 5, 3, "voicemeeter8.exe")

  /** `_kind_map`, keyed by kind id. */
  const KindMap: map<string, Kind> := map["basic" := Basic, "banana" := Banana, "potato" := Potato]

  /** `all`: the kinds in table order. */
  const All: seq<Kind> := [Basic, Banana, Potato]

  /** `get`: the kind with the given id, or an error naming the id. */
  function Get(id: string): (r: Result<Kind>)
    ensures r.Ok? <==> exists i :: 0 <= i < |All| && All[i].id == id
    ensures r.Ok? ==> r.value in All && r.value.id == id
    ensures r.Err? ==> r.error == InvalidKind(id)
  {
    assert All[0] == Basic && All[1] == Banana && All[2] == Potato;
    if id in KindMap then Ok(KindMap[id]) else Err(InvalidKind(id))
  }

  /** Every kind's id is its key, and `all` lists exactly the table's kinds
      with pairwise distinct ids. */
  lemma KindTableConsistent()
    ensures forall id :: id in KindMap ==> KindMap[id].id == id
    ensures |All| == 3 && (forall k :: k in All <==> k in KindMap.Values)
    ensures forall i, j :: 0 <= i < j < |All| ==> All[i].id != All[j].id
    ensures Basic.numA == 2 && Basic.numB == 1
    ensures Banana.numA == 3 && Banana.numB == 2
    ensures Potato.numA == 5 && Potato.numB == 3
  {
    assert KindMap.Values == {Basic, Banana, Potato} by {
      assert KindMap["basic"] == Basic && KindMap["banana"] == Banana && KindMap["potato"] == Potato;
    }
  }
}
