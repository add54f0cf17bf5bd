/** CMDB rows, the merge that keeps non-empty CMDB values, and change detection. */
module Rows {
  import opened Text
  import opened Values

  /** The columns that identify or relate items; every other column is an `Attr`. */
  datatype Field =
    | Uuid
    | K8sUuid
    | InstanceId
    | SystemId
    | NodeName
    | ResourceType
    | DomainName
    | DomainText
    | AdminName
    | Attr(name: string)

  type Row = map<Field, Value>

  /** Go's map read: a missing key reads as nil. */
  function Get(r: Row, k: Field): Value {
    if k in r then r[k] else Nil
  }

  /** `ciParamsFromFields`. */
  function EncodeRow(r: Row): Row {
    map k | k in r :: Encode(r[k])
  }

  /** An empty cloud value gives way to a CMDB value that holds something. */
  function MergeField(want: Value, existing: Value): (v: Value)
    ensures !IsEmpty(want) || !IsEmpty(existing) ==> !IsEmpty(v)
    ensures !IsEmpty(want) || IsEmpty(existing) ==> v == want
    ensures IsEmpty(want) && !IsEmpty(existing) ==> v == existing
  {
    if IsEmpty(want) && !IsEmpty(existing) then existing else want
  }

  /** `mergeCMDBPreserveNonEmpty` on a present row. */
  function Merge(want: Row, existing: Row): Row {
    map k | k in want :: MergeField(want[k], Get(existing, k))
  }

  /** `mergeCMDBPreserveNonEmpty`, nil arguments included: the loop fills a fresh map. */
  method MergePreserveNonEmpty(want: Option<Row>, existing: Option<Row>) returns (out: Option<Row>)
    ensures out.Some? <==> want.Some?
    ensures want.Some? && existing.Some? ==> out.value == Merge(want.value, existing.value)
    ensures want.Some? && existing.None? ==> out.value == want.value
  {
    if want.None? { return None; }
    if existing.None? { return want; }
    var m: Row := map[];
    var keys := want.value.Keys;
    while keys != {}
      invariant keys <= want.value.Keys && m.Keys == want.value.Keys - keys
      invariant forall k :: k in m ==> m[k] == MergeField(want.value[k], Get(existing.value, k))
    {
      var k :| k in keys;
      m := m[k := MergeField(want.value[k], Get(existing.value, k))];
      keys := keys - {k};
    }
    assert m == Merge(want.value, existing.value);
    out := Some(m);
  }

  /** Two values that change detection tells apart. */
  predicate Differs(a: Value, b: Value) {
    CompareStr(a) != CompareStr(b)
  }

  /** `eipCIChanged`. */
  predicate Changed(row: Row, want: Row) {
    exists k | k in want :: Differs(Get(row, k), want[k])
  }

  method CiChanged(row: Row, want: Row) returns (b: bool)
    ensures b == Changed(row, want)
  {
    var keys := want.Keys;
    while keys != {}
      invariant keys <= want.Keys
      invariant forall k :: k in want && k !in keys ==> !Differs(Get(row, k), want[k])
    {
      var k :| k in keys;
      if Differs(Get(row, k), want[k]) { return true; }
      keys := keys - {k};
    }
    b := false;
  }

  /** A row whose values survive the wire unchanged. */
  predicate ScalarRow(r: Row) {
    forall k :: k in r ==> Scalar(r[k])
  }

  lemma ScalarRowEncodes(r: Row)
    requires ScalarRow(r)
    ensures EncodeRow(r) == r
  {}

  /** The row the CMDB holds after an update carrying the merge of `want`. */
  function Written(row: Row, want: Row): Row {
    row + EncodeRow(Merge(want, row))
  }

  /** Writing a merge never empties a field that held something, whatever the cloud side sent. */
  lemma WrittenKeepsContent(row: Row, want: Row, k: Field)
    requires !IsEmpty(Get(row, k))
    ensures !IsEmpty(Get(Written(row, want), k))
  {
    if k in want {
      EncodeKeepsContent(MergeField(want[k], Get(row, k)));
    }
  }

  /** Merging the same scalar `want` with the row just written asks for no further change. */
  lemma WrittenIsSettled(row: Row, want: Row)
    requires ScalarRow(want)
    ensures var w := Written(row, want); !Changed(w, Merge(want, w))
  {
    var w := Written(row, want);
    forall k | k in want ensures !Differs(Get(w, k), Merge(want, w)[k]) {
      if IsEmpty(want[k]) && !IsEmpty(Get(row, k)) {
        EncodeKeepsContent(Get(row, k));
      }
    }
  }

  /** Two wanted rows that, where both hold something, are equal under change detection. */
  predicate NoQuarrel(a: Row, b: Row) {
    forall k :: k in a && k in b && !IsEmpty(a[k]) && !IsEmpty(b[k]) ==> !Differs(a[k], b[k])
  }

  /** What a single value is, its text says. */
  lemma FlatValue(v: Value)
    requires !v.Strs? && !v.Anys?
    ensures Encode(v) == v && (IsEmpty(v) <==> CompareStr(v) == "")
  {}

  /** The value is a list that prints as the wanted text. */
  predicate Prints(have: Value, want: Value) {
    (have.Strs? || have.Anys?) && !IsEmpty(want) && !Differs(have, want)
  }

  lemma CellByAnother(have: Value, a: Value, b: Value)
    requires Scalar(a) && Scalar(b) && !Differs(have, MergeField(a, have)) && !Prints(have, a)
    requires !IsEmpty(a) && !IsEmpty(b) ==> !Differs(a, b)
    ensures var w := Encode(MergeField(b, have)); !Differs(w, MergeField(a, w))
  {
    hide IsEmpty, CompareStr, Encode;
    if !have.Strs? && !have.Anys? { FlatValue(have); }
    FlatValue(Encode(have));
    FlatValue(a);
    FlatValue(b);
  }

  /** Writing one of two such rows leaves nothing to change for the other, unless the other wants the
      printed form of a list: lists are encoded when they are written back. */
  lemma WrittenByAnother(row: Row, a: Row, b: Row)
    requires ScalarRow(a) && ScalarRow(b) && NoQuarrel(a, b) && !Changed(row, Merge(a, row))
    requires forall k :: k in row && k in a ==> !Prints(row[k], a[k])
    ensures var w := Written(row, b); !Changed(w, Merge(a, w))
  {
    hide IsEmpty, CompareStr, Encode, Differs, MergeField;
    var w := Written(row, b);
    forall k | k in a ensures !Differs(Get(w, k), Merge(a, w)[k]) {
      assert !Differs(Get(row, k), Merge(a, row)[k]);
      if k in b { CellByAnother(Get(row, k), a[k], b[k]); }
    }
  }

  /** A row that needs no change for either of two wanted rows shows that they agree. */
  lemma UnchangedForBoth(row: Row, a: Row, b: Row)
    requires !Changed(row, Merge(a, row)) && !Changed(row, Merge(b, row))
    ensures NoQuarrel(a, b)
  {
    hide IsEmpty, CompareStr;
    forall k | k in a && k in b && !IsEmpty(a[k]) && !IsEmpty(b[k]) ensures !Differs(a[k], b[k]) {
      assert !Differs(Get(row, k), Merge(a, row)[k]) && !Differs(Get(row, k), Merge(b, row)[k]);
    }
  }

}
