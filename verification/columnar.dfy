/** The columnar helpers of the Ghent group: the fields of the Lorentz vector `TetraVec`
    builds, concatenation in bounded batches, and the removal of object columns that more
    than one array carries. An array is seen through its field names. */
module Columnar {
  import opened Wrappers
  import opened Seqs

  datatype ColumnarError = MissingField(name: string)

  const MANDATORY: seq<string> := ["pt", "eta", "phi", "mass"]
  const EXCLUDED: seq<string> := ["x", "y", "z", "t"]

  /** The `keep` argument: one field name, a list of names, or -1 for every field. */
  datatype Keep = KeepName(name: string) | KeepNames(names: seq<string>) | KeepAllFields

  /** The names `keep` asks for, given the array's fields. */
  function KeptNames(keep: Keep, fields: seq<string>): seq<string>
  {
    match keep
    case KeepName(n) => [n]
    case KeepNames(ns) => ns
    case KeepAllFields => fields
  }

  /** The names of `xs` that are not Cartesian components, in order. */
  function WithoutExcluded(xs: seq<string>): (r: seq<string>)
    ensures forall x :: x in r <==> x in xs && x !in EXCLUDED
  {
    if xs == [] then []
    else (if xs[0] in EXCLUDED then [] else [xs[0]]) + WithoutExcluded(xs[1..])
  }

  /** The first of `names` that is not a field, if any. */
  function FirstAbsent(names: seq<string>, fields: seq<string>): (r: Option<string>)
    ensures r.None? <==> forall k :: 0 <= k < |names| ==> names[k] in fields
    ensures r.Some? ==> r.value in names && r.value !in fields
    ensures r.Some? ==>
      exists k :: 0 <= k < |names| && names[k] == r.value && forall j :: 0 <= j < k ==> names[j] in fields
  {
    if names == [] then None
    else if names[0] !in fields then Some(names[0])
    else
      var r := FirstAbsent(names[1..], fields);
      assert forall k :: 1 <= k < |names| ==> names[1..][k - 1] == names[k];
      if r.Some? then
        var k :| 0 <= k < |names[1..]| && names[1..][k] == r.value && forall j :: 0 <= j < k ==> names[1..][j] in fields;
        assert names[k + 1] == r.value;
        r
      else r
  }

  /** `TetraVec`: the fields of the record it zips. The four mandatory fields are asserted
      first, in their order; then the kept names followed by the mandatory ones, without
      Cartesian components, are read from the array, once each in order of first mention. */
  function TetraVecFields(fields: seq<string>, keep: Keep): (r: Result<seq<string>, ColumnarError>)
    ensures r.Ok? <==>
      && (forall m :: m in MANDATORY ==> m in fields)
      && (forall x :: x in KeptNames(keep, fields) && x !in EXCLUDED ==> x in fields)
    ensures FirstAbsent(MANDATORY, fields).Some? ==> r == Err(MissingField(FirstAbsent(MANDATORY, fields).value))
    ensures r.Err? ==> r.error.name !in fields
    ensures r.Ok? ==> NoDups(r.value)
    ensures r.Ok? ==> forall x :: x in r.value <==> (x in KeptNames(keep, fields) || x in MANDATORY) && x !in EXCLUDED
  {
    var missing := FirstAbsent(MANDATORY, fields);
    if missing.Some? then Err(MissingField(missing.value))
    else
      var chosen := WithoutExcluded(KeptNames(keep, fields) + MANDATORY);
      var absent := FirstAbsent(chosen, fields);
      if absent.Some? then Err(MissingField(absent.value))
      else
        assert forall x :: x in chosen ==> x in fields;
        Ok(Dedup(chosen))
  }

  /** The mandatory fields are always in the vector, and no Cartesian component is. */
  lemma TetraVecKeepsMandatory(fields: seq<string>, keep: Keep)
    requires TetraVecFields(fields, keep).Ok?
    ensures forall m :: m in MANDATORY ==> m in TetraVecFields(fields, keep).value
    ensures forall x :: x in EXCLUDED ==> x !in TetraVecFields(fields, keep).value
  {
    MandatoryNotExcluded();
  }

  /** No mandatory field is a Cartesian component. */
  lemma MandatoryNotExcluded()
    ensures forall m :: m in MANDATORY ==> m !in EXCLUDED
  {
  }

  /** With -1 every field of a complete array is kept except the Cartesian components. */
  lemma KeepAllNeverFails(fields: seq<string>)
    requires forall m :: m in MANDATORY ==> m in fields
    ensures TetraVecFields(fields, KeepAllFields).Ok?
    ensures forall x :: x in TetraVecFields(fields, KeepAllFields).value <==> x in fields && x !in EXCLUDED
  {
  }

  // ---------------------------------------------------------------------------------------
  // concatenation in batches

  /** The most arrays one concatenation is given. */
  const MAX_BATCH: nat := 128

  /** The concatenated entries and the number of arrays every concatenation call got. */
  datatype Concatenated<T> = Concatenated(entries: seq<T>, calls: seq<nat>)

  /** `safe_concatenate`: more than 128 arrays are split in two halves, each concatenated
      the same way, and the two results joined; the halves are strictly smaller, so the
      recursion ends. */
  function SafeConcatenate<T>(arrays: seq<seq<T>>): (r: Concatenated<T>)
    ensures r.entries == Flatten(arrays)
    ensures |r.calls| >= 1
    ensures forall k :: 0 <= k < |r.calls| ==> r.calls[k] <= MAX_BATCH
    ensures |arrays| <= MAX_BATCH ==> r.calls == [|arrays|]
    decreases |arrays|
  {
    var n := |arrays|;
    if n > MAX_BATCH then
      var c1 := SafeConcatenate(arrays[..n / 2]);
      var c2 := SafeConcatenate(arrays[n / 2..]);
      assert arrays == arrays[..n / 2] + arrays[n / 2..];
      FlattenAppend(arrays[..n / 2], arrays[n / 2..]);
      assert Flatten([c1.entries, c2.entries]) == c1.entries + c2.entries by {
        FlattenAppend([c1.entries], [c2.entries]);
      }
      Concatenated(Flatten([c1.entries, c2.entries]), c1.calls + c2.calls + [2])
    else
      Concatenated(Flatten(arrays), [n])
  }

  // ---------------------------------------------------------------------------------------
  // overlap removal

  /** Some array after position `i` and before `q` carries `o`. */
  predicate CarriedBetween(arrays: seq<set<string>>, o: string, i: int, q: int)
  {
    exists j :: i < j < q && 0 <= j < |arrays| && o in arrays[j]
  }

  /** Some array after position `i` carries `o`. */
  predicate CarriedLater(arrays: seq<set<string>>, o: string, i: int)
  {
    CarriedBetween(arrays, o, i, |arrays|)
  }

  /** What an array keeps: everything but the listed objects a later array also carries. */
  function Kept(arrays: seq<set<string>>, objects: seq<string>, i: nat): (r: set<string>)
    requires i < |arrays|
    ensures forall c :: c in r <==> c in arrays[i] && !(c in objects && CarriedLater(arrays, c, i))
  {
    set c | c in arrays[i] && !(c in objects && CarriedLater(arrays, c, i))
  }

  /** One object's pass of `remove_obj_overlap`: for every array carrying the object, every
      earlier array loses it. */
  method RemoveObject(b: seq<set<string>>, obj: string) returns (r: seq<set<string>>)
    ensures |r| == |b|
    ensures forall i :: 0 <= i < |b| ==> r[i] == if CarriedLater(b, obj, i) then b[i] - {obj} else b[i]
  {
    r := b;
    var n := |b|;
    if n == 0 {
      return;
    }
    for i1 := 1 to n
      invariant |r| == n
      invariant forall i :: 0 <= i < n ==> r[i] == if CarriedBetween(b, obj, i, i1) then b[i] - {obj} else b[i]
    {
      var c := b[i1];
      for i2 := 0 to i1
        invariant |r| == n
        invariant forall i :: 0 <= i < i2 ==>
          r[i] == if CarriedBetween(b, obj, i, i1 + 1) then b[i] - {obj} else b[i]
        invariant forall i :: i2 <= i < n ==>
          r[i] == if CarriedBetween(b, obj, i, i1) then b[i] - {obj} else b[i]
      {
        var c0 := r[i2];
        if obj in c0 && obj in c {
          r := r[i2 := c0 - {obj}];
        }
        assert CarriedBetween(b, obj, i2, i1 + 1) <==> CarriedBetween(b, obj, i2, i1) || obj in b[i1];
      }
      forall i | i1 <= i < n ensures CarriedBetween(b, obj, i, i1 + 1) <==> CarriedBetween(b, obj, i, i1) {
      }
    }
    forall i | 0 <= i < n ensures CarriedBetween(b, obj, i, n) <==> CarriedLater(b, obj, i) {
    }
  }

  /** Removing objects never changes which arrays carry an object later on: the last
      carrier of each object keeps it. */
  lemma RemoveObjectKeepsCarriers(b: seq<set<string>>, obj: string, r: seq<set<string>>)
    requires |r| == |b|
    requires forall i :: 0 <= i < |b| ==> r[i] == if CarriedLater(b, obj, i) then b[i] - {obj} else b[i]
    ensures forall i, o :: 0 <= i < |b| ==> (CarriedLater(r, o, i) <==> CarriedLater(b, o, i))
  {
    forall i, o | 0 <= i < |b| ensures CarriedLater(r, o, i) <==> CarriedLater(b, o, i) {
      if CarriedLater(b, o, i) {
        var j := LastCarrier(b, o, i);
        assert o in r[j];
      }
    }
  }

  /** The last array after `i` carrying `o`. */
  lemma LastCarrier(b: seq<set<string>>, o: string, i: int) returns (j: int)
    requires CarriedLater(b, o, i)
    ensures i < j < |b| && 0 <= j && o in b[j] && !CarriedLater(b, o, j)
    decreases |b| - i
  {
    var k :| i < k < |b| && 0 <= k && o in b[k];
    if CarriedLater(b, o, k) {
      j := LastCarrier(b, o, k);
    } else {
      j := k;
    }
  }

  /** `remove_obj_overlap`: for every listed object in turn, an array loses the object when a
      later array carries it, so only its last carrier keeps it; everything else is kept. */
  method RemoveObjOverlap(arrays: seq<set<string>>, objects: seq<string>) returns (r: seq<set<string>>)
    ensures |r| == |arrays|
    ensures forall i :: 0 <= i < |arrays| ==> r[i] == Kept(arrays, objects, i)
  {
    r := arrays;
    for p := 0 to |objects|
      invariant |r| == |arrays|
      invariant forall i, o :: 0 <= i < |arrays| ==> (CarriedLater(r, o, i) <==> CarriedLater(arrays, o, i))
      invariant forall i :: 0 <= i < |arrays| ==> r[i] == Kept(arrays, objects[..p], i)
    {
      var next := RemoveObject(r, objects[p]);
      RemoveObjectKeepsCarriers(r, objects[p], next);
      forall i | 0 <= i < |arrays| ensures next[i] == Kept(arrays, objects[..p + 1], i) {
        assert forall c :: c in objects[..p + 1] <==> c in objects[..p] || c == objects[p];
      }
      r := next;
    }
    assert objects[..|objects|] == objects;
  }

  /** After the removal at most one array carries each listed object. */
  lemma OverlapRemovedUnique(arrays: seq<set<string>>, objects: seq<string>, r: seq<set<string>>, o: string)
    requires |r| == |arrays| && forall i :: 0 <= i < |arrays| ==> r[i] == Kept(arrays, objects, i)
    requires o in objects
    ensures forall i, j :: 0 <= i < j < |r| && o in r[i] ==> o !in r[j]
  {
    forall i, j | 0 <= i < j < |r| && o in r[i] ensures o !in r[j] {
      if o in r[j] {
        assert o in arrays[j];
        assert CarriedLater(arrays, o, i);
      }
    }
  }

  /** A listed object some array carries is still carried by one after the removal. */
  lemma OverlapRemovalKeepsLastCarrier(arrays: seq<set<string>>, objects: seq<string>, r: seq<set<string>>,
                                       o: string, i: nat)
    requires |r| == |arrays| && forall k :: 0 <= k < |arrays| ==> r[k] == Kept(arrays, objects, k)
    requires i < |arrays| && o in arrays[i]
    ensures exists k :: i <= k < |r| && o in r[k]
  {
    if CarriedLater(arrays, o, i) {
      var k := LastCarrier(arrays, o, i);
      assert o in r[k];
    } else {
      assert o in r[i];
    }
  }
}
