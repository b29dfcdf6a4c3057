/** `merge_dicts` (voicemeeter/util.py): folds any number of nested
    dictionaries, left to right, into a destination dictionary.

    A dictionary is an ordered list of entries with distinct keys, as a
    Python dict is: assigning to an existing key keeps its position,
    assigning to a new key appends it. A value is either a scalar leaf or a
    nested dictionary. */
module DictMerge {
  import opened Errors
  import opened Native

  datatype Tree = Leaf(value: Scalar) | Node(entries: seq<Entry>)
  datatype Entry = Entry(key: string, val: Tree)
  type Dict = seq<Entry>

  function KeySet(d: Dict): set<string>
  {
    set i | 0 <= i < |d| :: d[i].key
  }

  lemma KeySetCons(d: Dict)
    requires d != []
    ensures KeySet(d) == {d[0].key} + KeySet(d[1..])
  {
    forall k | k in KeySet(d) ensures k in {d[0].key} + KeySet(d[1..]) {
      var i :| 0 <= i < |d| && d[i].key == k;
      if i > 0 {
        assert d[1..][i - 1].key == k;
      }
    }
    forall k | k in KeySet(d[1..]) ensures k in KeySet(d) {
      var i :| 0 <= i < |d[1..]| && d[1..][i].key == k;
      assert d[i + 1].key == k;
    }
  }

  lemma KeySetAppend(a: Dict, b: Dict)
    ensures KeySet(a + b) == KeySet(a) + KeySet(b)
  {
    forall k | k in KeySet(a + b) ensures k in KeySet(a) + KeySet(b) {
      var i :| 0 <= i < |a + b| && (a + b)[i].key == k;
      if i >= |a| {
        assert b[i - |a|].key == k;
      }
    }
    forall k | k in KeySet(a) ensures k in KeySet(a + b) {
      var i :| 0 <= i < |a| && a[i].key == k;
      assert (a + b)[i].key == k;
    }
    forall k | k in KeySet(b) ensures k in KeySet(a + b) {
      var i :| 0 <= i < |b| && b[i].key == k;
      assert (a + b)[|a| + i].key == k;
    }
  }

  /** `k in d` and `d[k]`: the value of the first entry with key `k`. */
  function Lookup(d: Dict, k: string): (r: Option<Tree>)
    ensures r.None? <==> k !in KeySet(d)
    ensures r.Some? ==> exists i :: 0 <= i < |d| && d[i].key == k && d[i].val == r.value
  {
    if d == [] then None
    else
      KeySetCons(d);
      if d[0].key == k then Some(d[0].val)
      else
        var found := Lookup(d[1..], k);
        assert found.Some? ==> exists i :: 1 <= i < |d| && d[i].key == k && d[i].val == found.value by {
          if found.Some? {
            var j :| 0 <= j < |d[1..]| && d[1..][j].key == k && d[1..][j].val == found.value;
            assert d[j + 1] == d[1..][j];
          }
        }
        found
  }

  /** `d[k] = v`: overwrite in place when `k` is present, append otherwise. */
  function Put(d: Dict, k: string, v: Tree): (r: Dict)
    ensures Lookup(r, k) == Some(v)
    ensures forall k' :: k' != k ==> Lookup(r, k') == Lookup(d, k')
    ensures KeySet(r) == KeySet(d) + {k}
  {
    if d == [] then [Entry(k, v)]
    else
      KeySetCons(d);
      if d[0].key == k then
        var d' := [Entry(k, v)] + d[1..];
        KeySetCons(d');
        assert d'[1..] == d[1..];
        d'
      else
        var d' := [d[0]] + Put(d[1..], k, v);
        KeySetCons(d');
        assert d'[1..] == Put(d[1..], k, v);
        d'
  }

  /** A new key is appended at the end; an existing one keeps its place. */
  lemma {:induction false} PutShape(d: Dict, k: string, v: Tree)
    ensures k !in KeySet(d) ==> Put(d, k, v) == d + [Entry(k, v)]
    ensures k in KeySet(d) ==> |Put(d, k, v)| == |d|
  {
    if d != [] {
      KeySetCons(d);
      if d[0].key != k {
        PutShape(d[1..], k, v);
        assert Put(d, k, v) == [d[0]] + Put(d[1..], k, v);
        assert d == [d[0]] + d[1..];
      }
    }
  }

  /** Writing back the value a key already holds changes nothing. */
  lemma {:induction false} PutSame(d: Dict, k: string)
    requires Lookup(d, k).Some?
    ensures Put(d, k, Lookup(d, k).value) == d
  {
    if d[0].key == k {
      assert d == [Entry(k, d[0].val)] + d[1..];
    } else {
      assert Lookup(d, k) == Lookup(d[1..], k);
      PutSame(d[1..], k);
      assert d == [d[0]] + d[1..];
    }
  }

  /** `del d[k]`: drop the entry with key `k`. */
  function Remove(d: Dict, k: string): (r: Dict)
    ensures Lookup(r, k) == None
    ensures forall k' :: k' != k ==> Lookup(r, k') == Lookup(d, k')
    ensures KeySet(r) == KeySet(d) - {k}
  {
    if d == [] then []
    else
      KeySetCons(d);
      if d[0].key == k then Remove(d[1..], k)
      else
        var d' := [d[0]] + Remove(d[1..], k);
        KeySetCons(d');
        assert d'[1..] == Remove(d[1..], k);
        d'
  }

  /** Removing a key that is absent changes nothing. */
  lemma {:induction false} RemoveAbsent(d: Dict, k: string)
    requires k !in KeySet(d)
    ensures Remove(d, k) == d
  {
    if d != [] {
      KeySetCons(d);
      RemoveAbsent(d[1..], k);
    }
  }

  predicate UniqueKeys(d: Dict)
  {
    forall i, j :: 0 <= i < j < |d| ==> d[i].key != d[j].key
  }

  /** What every Python dict is: distinct keys at every level. */
  predicate WellFormed(d: Dict)
    decreases d
  {
    && UniqueKeys(d)
    && forall i :: 0 <= i < |d| ==> (d[i].val.Node? ==> WellFormed(d[i].val.entries))
  }

  predicate WellFormedTree(t: Tree)
  {
    t.Node? ==> WellFormed(t.entries)
  }

  lemma UniqueKeysTail(d: Dict)
    requires d != [] && UniqueKeys(d)
    ensures UniqueKeys(d[1..]) && d[0].key !in KeySet(d[1..])
  {
    forall k | k in KeySet(d[1..]) ensures k != d[0].key {
      var i :| 0 <= i < |d[1..]| && d[1..][i].key == k;
      assert d[i + 1].key == k;
    }
  }

  lemma WellFormedTail(d: Dict)
    requires d != [] && WellFormed(d)
    ensures WellFormed(d[1..]) && WellFormedTree(d[0].val) && d[0].key !in KeySet(d[1..])
  {
    UniqueKeysTail(d);
    forall i | 0 <= i < |d[1..]| && d[1..][i].val.Node?
      ensures WellFormed(d[1..][i].val.entries)
    {
      assert d[1..][i] == d[i + 1];
    }
  }

  /** In a dict with distinct keys, looking up an entry's key finds that entry. */
  lemma {:induction false} LookupAt(d: Dict, i: nat)
    requires UniqueKeys(d) && i < |d|
    ensures Lookup(d, d[i].key) == Some(d[i].val)
  {
    if i > 0 {
      UniqueKeysTail(d);
      LookupAt(d[1..], i - 1);
    }
  }

  lemma {:induction false} PutWellFormed(d: Dict, k: string, v: Tree)
    requires WellFormed(d) && WellFormedTree(v)
    ensures WellFormed(Put(d, k, v))
  {
    if d != [] {
      WellFormedTail(d);
      PutWellFormed(d[1..], k, v);
      var r := Put(d, k, v);
      if d[0].key != k {
        assert r == [d[0]] + Put(d[1..], k, v);
        forall i, j | 0 <= i < j < |r| ensures r[i].key != r[j].key {
          if i == 0 {
            assert r[j] == Put(d[1..], k, v)[j - 1];
            assert r[j].key in KeySet(Put(d[1..], k, v));
          }
        }
      } else {
        assert r == [Entry(k, v)] + d[1..];
        forall i, j | 0 <= i < j < |r| ensures r[i].key != r[j].key {
          if i == 0 {
            assert r[j] == d[1..][j - 1];
            assert r[j].key in KeySet(d[1..]);
          }
        }
      }
    }
  }

  /** Looking up a key in a concatenation finds it in the first part if it is there. */
  lemma {:induction false} LookupAppend(a: Dict, b: Dict, k: string)
    ensures Lookup(a + b, k) == if k in KeySet(a) then Lookup(a, k) else Lookup(b, k)
  {
    if a != [] {
      KeySetCons(a);
      assert (a + b)[1..] == a[1..] + b;
      LookupAppend(a[1..], b, k);
    } else {
      assert a + b == b;
    }
  }

  lemma WellFormedAppend(a: Dict, b: Dict)
    requires WellFormed(a) && WellFormed(b) && KeySet(a) !! KeySet(b)
    ensures WellFormed(a + b)
  {
    var d := a + b;
    forall i, j | 0 <= i < j < |d| ensures d[i].key != d[j].key {
      if j < |a| {
      } else if i >= |a| {
        assert d[i] == b[i - |a|] && d[j] == b[j - |a|];
      } else {
        assert d[i].key in KeySet(a) && d[j] == b[j - |a|];
        assert d[j].key in KeySet(b);
      }
    }
    forall i | 0 <= i < |d| && d[i].val.Node? ensures WellFormed(d[i].val.entries) {
      if i >= |a| {
        assert d[i] == b[i - |a|];
      }
    }
  }

  // ---------------------------------------------------------------------
  // The specification of merge_dicts.

  /** Merge one source into `dest`, its entries in order. */
  function Merged(dest: Dict, src: Dict): Result<Dict>
    decreases src
  {
    if src == [] then Ok(dest)
    else
      match Step(dest, src[0])
      case Err(e) => Err(e)
      case Ok(d) => Merged(d, src[1..])
  }

  /** One entry of a source: the key's new value is written into `dest`. */
  function Step(dest: Dict, e: Entry): Result<Dict>
    decreases e
  {
    match Incoming(e.key, Lookup(dest, e.key), e.val)
    case Err(x) => Err(x)
    case Ok(t) => Ok(Put(dest, e.key, t))
  }

  /** The value key `k` holds after merging `t` onto what it held (`prior`).
      A leaf replaces anything. A dict is merged into the dict already there,
      or into a fresh one when the key is new (`setdefault(key, {})`). A dict
      arriving on a scalar is an error unless it is empty, in which case the
      scalar stays. */
  function Incoming(k: string, prior: Option<Tree>, t: Tree): Result<Tree>
    decreases t
  {
    match t
    case Leaf(_) => Ok(t)
    case Node(c) =>
      match prior
      case None => AsNode(Merged([], c))
      case Some(Node(d)) => AsNode(Merged(d, c))
      case Some(Leaf(v)) => if c == [] then Ok(Leaf(v)) else Err(MergeConflict(k))
  }

  function AsNode(r: Result<Dict>): Result<Tree>
  {
    match r
    case Ok(d) => Ok(Node(d))
    case Err(e) => Err(e)
  }

  /** `merge_dicts(*srcs, dest=dest)`: the sources folded left to right. */
  function MergedAll(dest: Dict, srcs: seq<Dict>): Result<Dict>
    decreases srcs
  {
    if srcs == [] then Ok(dest)
    else
      match Merged(dest, srcs[0])
      case Err(e) => Err(e)
      case Ok(d) => MergedAll(d, srcs[1..])
  }

  // ---------------------------------------------------------------------
  // Properties of the merge.

  /** An empty source leaves the destination as it is. */
  lemma MergedEmptySource(dest: Dict)
    ensures Merged(dest, []) == Ok(dest)
  {
  }

  /** A new key whose value is a leaf, or a dict that copies exactly, is appended. */
  lemma StepFresh(dest: Dict, e: Entry)
    requires e.key !in KeySet(dest)
    requires e.val.Node? ==> Merged([], e.val.entries) == Ok(e.val.entries)
    ensures Step(dest, e) == Ok(dest + [e])
  {
    assert Incoming(e.key, Lookup(dest, e.key), e.val) == Ok(e.val);
    PutShape(dest, e.key, e.val);
  }

  lemma DisjointAfterStep(dest: Dict, src: Dict)
    requires src != [] && UniqueKeys(src)
    requires KeySet(dest) !! KeySet(src)
    ensures KeySet(dest + [src[0]]) !! KeySet(src[1..])
  {
    UniqueKeysTail(src);
    KeySetCons(src);
    KeySetAppend(dest, [src[0]]);
    KeySetCons([src[0]]);
    assert KeySet([src[0]]) == {src[0].key};
  }

  /** Merging into a dict that shares no key with the source appends the
      source's entries, nested dicts copied entry for entry. */
  lemma {:induction false} MergedIntoDisjoint(dest: Dict, src: Dict)
    requires WellFormed(src)
    requires KeySet(dest) !! KeySet(src)
    ensures Merged(dest, src) == Ok(dest + src)
    decreases src, 1
  {
    if src != [] {
      FirstStepDisjoint(dest, src);
      MergedIntoDisjoint(dest + [src[0]], src[1..]);
      assert dest + [src[0]] + src[1..] == dest + src;
    } else {
      assert dest + src == dest;
    }
  }

  /** The first entry of a disjoint source is appended, and the rest stays disjoint. */
  lemma {:induction false} FirstStepDisjoint(dest: Dict, src: Dict)
    requires src != [] && WellFormed(src)
    requires KeySet(dest) !! KeySet(src)
    ensures Step(dest, src[0]) == Ok(dest + [src[0]])
    ensures WellFormed(src[1..]) && KeySet(dest + [src[0]]) !! KeySet(src[1..])
    decreases src, 0
  {
    WellFormedTail(src);
    KeySetCons(src);
    EntryCopies(src[0]);
    StepFresh(dest, src[0]);
    DisjointAfterStep(dest, src);
  }

  lemma {:induction false} EntryCopies(e: Entry)
    requires WellFormedTree(e.val)
    ensures e.val.Node? ==> Merged([], e.val.entries) == Ok(e.val.entries)
    decreases e
  {
    if e.val.Node? {
      assert KeySet([]) == {};
      MergedIntoDisjoint([], e.val.entries);
      assert [] + e.val.entries == e.val.entries;
    }
  }

  /** Merging a dict into an empty destination copies it exactly. */
  lemma MergedIntoEmpty(src: Dict)
    requires WellFormed(src)
    ensures Merged([], src) == Ok(src)
  {
    MergedIntoDisjoint([], src);
    assert [] + src == src;
  }

  /** Merging keeps every level's keys distinct. */
  lemma {:induction false} MergedWellFormed(dest: Dict, src: Dict)
    requires WellFormed(dest) && WellFormed(src)
    requires Merged(dest, src).Ok?
    ensures WellFormed(Merged(dest, src).value)
    decreases src
  {
    if src != [] {
      WellFormedTail(src);
      StepWellFormed(dest, src[0]);
      MergedWellFormed(Step(dest, src[0]).value, src[1..]);
    }
  }

  lemma {:induction false} StepWellFormed(dest: Dict, e: Entry)
    requires WellFormed(dest) && WellFormedTree(e.val)
    requires Step(dest, e).Ok?
    ensures WellFormed(Step(dest, e).value)
    decreases e
  {
    var prior := Lookup(dest, e.key);
    var t := Incoming(e.key, prior, e.val).value;
    match e.val {
      case Leaf(_) =>
      case Node(c) =>
        match prior {
          case None =>
            MergedWellFormed([], c);
          case Some(Node(d)) =>
            var i :| 0 <= i < |dest| && dest[i].key == e.key && dest[i].val == prior.value;
            MergedWellFormed(d, c);
          case Some(Leaf(v)) =>
        }
    }
    PutWellFormed(dest, e.key, t);
  }

  /** Key by key: a key the source lacks keeps its value; a key the source
      has holds what merging the source's value onto the old one gives. So a
      later leaf wins, and two dicts at one key are merged recursively. */
  lemma {:induction false} MergedLookup(dest: Dict, src: Dict, k: string)
    requires UniqueKeys(src)
    requires Merged(dest, src).Ok?
    ensures k !in KeySet(src) ==> Lookup(Merged(dest, src).value, k) == Lookup(dest, k)
    ensures k in KeySet(src) ==>
      && Incoming(k, Lookup(dest, k), Lookup(src, k).value).Ok?
      && Lookup(Merged(dest, src).value, k) == Some(Incoming(k, Lookup(dest, k), Lookup(src, k).value).value)
    ensures KeySet(Merged(dest, src).value) == KeySet(dest) + KeySet(src)
    decreases src
  {
    if src != [] {
      var e := src[0];
      UniqueKeysTail(src);
      KeySetCons(src);
      var d := Step(dest, e).value;
      MergedLookup(d, src[1..], k);
      if k == e.key {
        assert k !in KeySet(src[1..]);
        assert Lookup(d, k) == Some(Incoming(k, Lookup(dest, k), e.val).value);
      }
    }
  }

  /** A source merges into `dest` exactly when each of its keys can be
      merged onto what `dest` holds there. */
  lemma {:induction false} MergedOkIff(dest: Dict, src: Dict)
    requires UniqueKeys(src)
    ensures Merged(dest, src).Ok? <==>
      forall k :: k in KeySet(src) ==> Incoming(k, Lookup(dest, k), Lookup(src, k).value).Ok?
    decreases src
  {
    if Merged(dest, src).Ok? {
      forall k | k in KeySet(src)
        ensures Incoming(k, Lookup(dest, k), Lookup(src, k).value).Ok?
      {
        MergedLookup(dest, src, k);
      }
    } else if src != [] {
      var e := src[0];
      UniqueKeysTail(src);
      KeySetCons(src);
      LookupAt(src, 0);
      if Step(dest, e).Ok? {
        var d := Step(dest, e).value;
        MergedOkIff(d, src[1..]);
        var k :| k in KeySet(src[1..]) && !Incoming(k, Lookup(d, k), Lookup(src[1..], k).value).Ok?;
        assert k != e.key && Lookup(d, k) == Lookup(dest, k);
        var j :| 0 <= j < |src[1..]| && src[1..][j].key == k && src[1..][j].val == Lookup(src[1..], k).value;
        assert src[j + 1] == src[1..][j];
        LookupAt(src, j + 1);
        assert k in KeySet(src) && !Incoming(k, Lookup(dest, k), Lookup(src, k).value).Ok?;
      } else {
        assert e.key in KeySet(src) && !Incoming(e.key, Lookup(dest, e.key), Lookup(src, e.key).value).Ok?;
      }
    }
  }

  /** A scalar at a key where a later source holds a non-empty dict makes
      the merge fail. */
  lemma ScalarUnderDictFails(dest: Dict, src: Dict, k: string, v: Scalar, c: Dict)
    requires UniqueKeys(src)
    requires Lookup(dest, k) == Some(Leaf(v)) && Lookup(src, k) == Some(Node(c)) && c != []
    ensures Merged(dest, src).Err?
  {
    if Merged(dest, src).Ok? {
      MergedLookup(dest, src, k);
    }
  }

  /** Merging with an empty dict, on either side, gives the other dict. */
  lemma MergeWithEmpty(a: Dict)
    requires WellFormed(a)
    ensures MergedAll([], [[], a]) == Ok(a)
    ensures MergedAll([], [a, []]) == Ok(a)
  {
    var empty: Dict := [];
    MergedIntoEmpty(a);
    assert [empty, a][1..] == [a] && [a, empty][1..] == [empty];
    assert [a][1..] == [] && [empty][1..] == [];
    assert Merged([], empty) == Ok([]);
    assert MergedAll([], [empty, a]) == MergedAll([], [a]);
    assert MergedAll([], [a]) == MergedAll(a, []);
  }

  /** The fold is strictly left to right: merging one more source is the
      same as merging it into the fresh result of the sources before it. */
  lemma {:induction false} MergedAllSnoc(dest: Dict, srcs: seq<Dict>, last: Dict)
    requires WellFormed(dest) && WellFormed(last)
    requires forall i :: 0 <= i < |srcs| ==> WellFormed(srcs[i])
    ensures MergedAll(dest, srcs).Err? ==> MergedAll(dest, srcs + [last]) == MergedAll(dest, srcs)
    ensures MergedAll(dest, srcs).Ok? ==>
      MergedAll(dest, srcs + [last]) == MergedAll([], [MergedAll(dest, srcs).value, last])
    decreases srcs
  {
    if srcs == [] {
      assert srcs + [last] == [last];
      MergedIntoEmpty(dest);
      assert [dest, last][1..] == [last];
    } else {
      assert (srcs + [last])[1..] == srcs[1..] + [last];
      if Merged(dest, srcs[0]).Ok? {
        MergedWellFormed(dest, srcs[0]);
        MergedAllSnoc(Merged(dest, srcs[0]).value, srcs[1..], last);
      }
    }
  }

  /** `merge(a, b, c) == merge(merge(a, b), c)`. */
  lemma MergeThree(a: Dict, b: Dict, c: Dict)
    requires WellFormed(a) && WellFormed(b) && WellFormed(c)
    ensures MergedAll([], [a, b]).Err? ==> MergedAll([], [a, b, c]) == MergedAll([], [a, b])
    ensures MergedAll([], [a, b]).Ok? ==>
      MergedAll([], [a, b, c]) == MergedAll([], [MergedAll([], [a, b]).value, c])
  {
    assert [a, b] + [c] == [a, b, c];
    MergedAllSnoc([], [a, b], c);
  }

  // ---------------------------------------------------------------------
  // The imperative merge.

  /** `merge_dicts(src, dest=node)` on a nested node: the entries of `src`
      are folded into a working copy of `dest`, recursing into nested dicts. */
  method MergeInto(src: Dict, dest: Dict) returns (r: Result<Dict>)
    ensures r == Merged(dest, src)
    decreases src
  {
    var target := dest;
    var i := 0;
    while i < |src|
      invariant 0 <= i <= |src|
      invariant Merged(dest, src) == Merged(target, src[i..])
    {
      assert src[i..][0] == src[i] && src[i..][1..] == src[i + 1..];
      var step := MergeEntry(target, src[i]);
      if step.Err? {
        return Err(step.error);
      }
      target := step.value;
      i := i + 1;
    }
    return Ok(target);
  }

  /** One `key, val` of the inner loop: a scalar is assigned; a dict is merged
      into `target.setdefault(key, {})`. */
  method MergeEntry(target: Dict, e: Entry) returns (r: Result<Dict>)
    ensures r == Step(target, e)
    decreases e
  {
    if e.val.Leaf? {
      return Ok(Put(target, e.key, e.val));
    }
    var prior := Lookup(target, e.key);
    var node: Dict;
    if prior == None {
      node := [];
    } else if prior.value.Node? {
      node := prior.value.entries;
    } else if e.val.entries == [] {
      // an empty dict merged into a scalar leaves the scalar in place
      PutSame(target, e.key);
      return Ok(target);
    } else {
      return Err(MergeConflict(e.key));
    }
    var sub := MergeInto(e.val.entries, node);
    if sub.Err? {
      return Err(sub.error);
    }
    return Ok(Put(target, e.key, Node(sub.value)));
  }

  /** A dict object that `merge_dicts` can update in place. */
  class DictObject {
    var entries: Dict

    constructor (entries: Dict)
      ensures this.entries == entries
    {
      this.entries := entries;
    }
  }

  /** `merge_dicts(*srcs, dest=None)`: with no `dest` a fresh dict is made;
      with one, it is updated in place and the same object returned. */
  method MergeDicts(srcs: seq<Dict>, dest: DictObject?) returns (r: Result<DictObject>)
    modifies dest
    ensures r.Ok? && dest != null ==> r.value == dest
    ensures r.Ok? && dest == null ==> fresh(r.value)
    ensures r.Ok? <==> MergedAll(if dest == null then [] else old(dest.entries), srcs).Ok?
    ensures r.Ok? ==> r.value.entries == MergedAll(if dest == null then [] else old(dest.entries), srcs).value
    ensures r.Err? ==> r.error == MergedAll(if dest == null then [] else old(dest.entries), srcs).error
  {
    var target: DictObject;
    if dest == null {
      target := new DictObject([]);
    } else {
      target := dest;
    }
    ghost var start := target.entries;
    var i := 0;
    while i < |srcs|
      invariant 0 <= i <= |srcs|
      invariant dest != null ==> target == dest
      invariant dest == null ==> fresh(target)
      invariant start == if dest == null then [] else old(dest.entries)
      invariant MergedAll(start, srcs) == MergedAll(target.entries, srcs[i..])
    {
      assert srcs[i..][0] == srcs[i] && srcs[i..][1..] == srcs[i + 1..];
      var merged := MergeInto(srcs[i], target.entries);
      if merged.Err? {
        return Err(merged.error);
      }
      target.entries := merged.value;
      i := i + 1;
    }
    r := Ok(target);
  }
}
