/**
 * The reservation record and its completeness check (reservation_schema.py).
 *
 * A record is seen through its field table: for each declared field, its
 * default (absent when the field declares `None` as default) and its current
 * value. A field "still holds its default" when it declares a default and its
 * current value equals it; the record is complete when no field does.
 */
module ReservationSchema {
  import opened Wrappers

  /**
   * One row of a record's field table. `name` and `description` are carried
   * for the helper that lists unfilled fields; the completeness check reads
   * only `default` and `current`.
   */
  datatype FieldSlot<V> = FieldSlot(name: string, default: Option<V>, description: string, current: V)

  /** The field declares a default other than `None` and its value still equals it. */
  predicate StillDefault<V(==)>(f: FieldSlot<V>)
  {
    f.default.Some? && f.current == f.default.value
  }

  /** Declarative completeness: no field of the table still holds its default. */
  predicate NoneStillDefault<V(==)>(fields: seq<FieldSlot<V>>)
  {
    forall i :: 0 <= i < |fields| ==> !StillDefault(fields[i])
  }

  /**
   * all_fields_filled: walks the fields in declaration order and answers
   * false at the first one that still holds its default, true when the walk
   * ends. The contract says the early exit decides exactly the quantified
   * property, in both directions.
   */
  function AllFieldsFilled<V(==)>(fields: seq<FieldSlot<V>>): (r: bool)
    ensures r <==> NoneStillDefault(fields)
  {
    if |fields| == 0 then true
    else if StillDefault(fields[0]) then false
    else AllFieldsFilled(fields[1..])
  }

  /** With no fields the walk finds nothing, so the record counts as complete. */
  lemma EmptyTableIsFilled<V>()
    ensures AllFieldsFilled<V>([])
  {
  }

  /**
   * A field whose default is `None` never makes the record incomplete: its
   * value may be anything, and dropping it from the table changes nothing.
   */
  lemma NoneDefaultNeverBlocks<V>(fields: seq<FieldSlot<V>>, i: nat, v: V)
    requires i < |fields| && fields[i].default.None?
    ensures AllFieldsFilled(fields[i := fields[i].(current := v)]) == AllFieldsFilled(fields)
    ensures AllFieldsFilled(fields[..i] + fields[i + 1..]) == AllFieldsFilled(fields)
  {
    var updated := fields[i := fields[i].(current := v)];
    var dropped := fields[..i] + fields[i + 1..];
    if !AllFieldsFilled(updated) {
      var k :| 0 <= k < |updated| && StillDefault(updated[k]);
      assert k != i && StillDefault(fields[k]);
    }
    if !AllFieldsFilled(dropped) {
      var k :| 0 <= k < |dropped| && StillDefault(dropped[k]);
      if k < i {
        assert dropped[k] == fields[k];
      } else {
        assert dropped[k] == fields[k + 1];
      }
    }
    if !AllFieldsFilled(fields) {
      var k :| 0 <= k < |fields| && StillDefault(fields[k]);
      assert k != i;
      assert updated[k] == fields[k];
      if k < i {
        assert dropped[k] == fields[k];
      } else {
        assert dropped[k - 1] == fields[k];
      }
    }
  }

  /**
   * The order in which the fields are walked does not matter: two tables
   * holding the same fields, in any order, get the same answer.
   */
  lemma {:induction false} OrderIndependent<V>(a: seq<FieldSlot<V>>, b: seq<FieldSlot<V>>)
    requires multiset(a) == multiset(b)
    ensures AllFieldsFilled(a) == AllFieldsFilled(b)
  {
    if !AllFieldsFilled(a) {
      StillDefaultCarriesOver(a, b);
    } else if !AllFieldsFilled(b) {
      StillDefaultCarriesOver(b, a);
    }
  }

  /** A field that still holds its default in `a` is found again in any rearrangement `b`. */
  lemma StillDefaultCarriesOver<V>(a: seq<FieldSlot<V>>, b: seq<FieldSlot<V>>)
    requires multiset(a) == multiset(b) && !AllFieldsFilled(a)
    ensures !AllFieldsFilled(b)
  {
    var i :| 0 <= i < |a| && StillDefault(a[i]);
    assert a[i] in multiset(a);
    assert a[i] in b;
    var j :| 0 <= j < |b| && b[j] == a[i];
  }

  // ---------------------------------------------------------------------
  // The live schema: ReservationData with its single declared field.
  // ---------------------------------------------------------------------

  /** Description attached to the `name` field. */
  const NameDescription := "name of the person who made the reservation"

  /** ReservationData: only `name` is declared; its default is the empty string. */
  datatype ReservationData = ReservationData(name: string)

  /** `ReservationData()`: every field at its default, so the record is not complete. */
  function NewReservationData(): (r: ReservationData)
    ensures !IsComplete(r)
  {
    ReservationData("")
  }

  /** The field table of a record, in declaration order: the single field `name`, default "". */
  function FieldTable(r: ReservationData): (fs: seq<FieldSlot<string>>)
    ensures |fs| == 1 && fs[0].name == "name" && fs[0].default == Some("") && fs[0].current == r.name
  {
    [FieldSlot("name", Some(""), NameDescription, r.name)]
  }

  /**
   * all_fields_filled applied to a ReservationData instance: with the live
   * schema, complete exactly when a name has been given.
   */
  predicate IsComplete(r: ReservationData)
    ensures IsComplete(r) <==> r.name != ""
  {
    AllFieldsFilled(FieldTable(r))
  }
}
