/** Records made of fields of fixed widths, laid end to end. */
module Fields {

  function Flatten<T>(fields: seq<seq<T>>): seq<T> {
    if fields == [] then [] else fields[0] + Flatten(fields[1..])
  }

  function Total(widths: seq<nat>): nat {
    if widths == [] then 0 else widths[0] + Total(widths[1..])
  }

  predicate Fit<T>(fields: seq<seq<T>>, widths: seq<nat>) {
    |fields| == |widths| && forall i :: 0 <= i < |fields| ==> |fields[i]| == widths[i]
  }

  /** Cuts a record at the widths of its fields. */
  function Cut<T>(record: seq<T>, widths: seq<nat>): (fields: seq<seq<T>>)
    requires Total(widths) <= |record|
    ensures Fit(fields, widths)
    decreases |widths|
  {
    if widths == [] then [] else [record[..widths[0]]] + Cut(record[widths[0]..], widths[1..])
  }

  /** Where field k begins. */
  function Offset(widths: seq<nat>, k: nat): nat
    requires k <= |widths|
  {
    if k == 0 then 0 else Offset(widths, k - 1) + widths[k - 1]
  }

  lemma {:induction false} FlattenLength<T>(fields: seq<seq<T>>, widths: seq<nat>)
    requires Fit(fields, widths)
    ensures |Flatten(fields)| == Total(widths)
    decreases |fields|
  {
    if fields != [] {
      FlattenLength(fields[1..], widths[1..]);
    }
  }

  lemma {:induction false} CutOfFlatten<T>(fields: seq<seq<T>>, widths: seq<nat>)
    requires Fit(fields, widths)
    ensures |Flatten(fields)| == Total(widths) && Cut(Flatten(fields), widths) == fields
    decreases |fields|
  {
    FlattenLength(fields, widths);
    if fields != [] {
      CutOfFlatten(fields[1..], widths[1..]);
      assert Flatten(fields)[widths[0]..] == Flatten(fields[1..]);
    }
  }

  lemma {:induction false} FlattenOfCut<T>(record: seq<T>, widths: seq<nat>)
    requires Total(widths) == |record|
    ensures Flatten(Cut(record, widths)) == record
    decreases |widths|
  {
    if widths != [] {
      FlattenOfCut(record[widths[0]..], widths[1..]);
      assert Cut(record, widths)[1..] == Cut(record[widths[0]..], widths[1..]);
    }
  }

  lemma {:induction false} OffsetOfRest(widths: seq<nat>, k: nat)
    requires 0 < k <= |widths|
    ensures Offset(widths, k) == widths[0] + Offset(widths[1..], k - 1)
  {
    if k > 1 {
      OffsetOfRest(widths, k - 1);
    }
  }

  lemma SpliceBehind<T>(head: seq<T>, rest: seq<T>, at: nat, field: seq<T>)
    requires at + |field| <= |rest|
    ensures var record := head + rest;
            (head + (rest[..at] + field + rest[at + |field|..])
             == record[..|head| + at] + field + record[|head| + at + |field|..])
  {
  }

  /** Storing field k changes the record exactly where that field lies. */
  lemma {:induction false} FieldPlace<T>(fields: seq<seq<T>>, widths: seq<nat>, k: nat, field: seq<T>)
    requires Fit(fields, widths) && k < |fields| && |field| == widths[k]
    ensures var record, at := Flatten(fields), Offset(widths, k);
            at + |field| <= |record| && Flatten(fields[k := field]) == record[..at] + field + record[at + |field|..]
    decreases |fields|
  {
    var updated := fields[k := field];
    if k == 0 {
      assert updated[1..] == fields[1..];
      assert Flatten(fields)[|field|..] == Flatten(fields[1..]);
    } else {
      var rest, at := Flatten(fields[1..]), Offset(widths[1..], k - 1);
      FieldPlace(fields[1..], widths[1..], k - 1, field);
      OffsetOfRest(widths, k);
      assert updated[0] == fields[0] && updated[1..] == fields[1..][k - 1 := field];
      assert Flatten(updated) == fields[0] + (rest[..at] + field + rest[at + |field|..]);
      SpliceBehind(fields[0], rest, at, field);
    }
  }

  lemma FieldAt<T>(fields: seq<seq<T>>, widths: seq<nat>, k: nat)
    requires Fit(fields, widths) && k < |fields|
    ensures var record, at := Flatten(fields), Offset(widths, k);
            at + widths[k] <= |record| && record[at..at + widths[k]] == fields[k]
  {
    FieldPlace(fields, widths, k, fields[k]);
    assert fields[k := fields[k]] == fields;
  }
}
