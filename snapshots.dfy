/**
 * The snapshot serializer: the values of one entity, minus the properties marked
 * `[IgnoreAudit]`, keyed by property name in property order. The JSON text itself
 * is abstracted as the ordered name/value sequence it encodes.
 */
module Snapshots {
  import opened Wrappers
  import opened AuditTypes

  /** The properties of `values` whose names are not in `ignored`, in order. */
  function Included(values: PropertyValues, ignored: set<string>): (r: Snapshot)
    ensures |r| <= |values|
    ensures forall p :: p in r <==> p in values && p.name !in ignored
  {
    if values == [] then []
    else (if values[0].name in ignored then [] else [values[0]]) + Included(values[1..], ignored)
  }

  /** `Serialize`: a null value set gives a null snapshot, otherwise the filtered values. */
  function Serialize(values: Option<PropertyValues>, ignored: set<string>): (r: Option<Snapshot>)
    ensures r.None? <==> values.None?
    ensures r.Some? ==> forall p :: p in r.value ==> p in values.value && p.name !in ignored
    ensures r.Some? ==> forall p :: p in values.value && p.name !in ignored ==> p in r.value
  {
    match values
    case None => None
    case Some(vs) => Some(Included(vs, ignored))
  }

  /** Filtering distributes over concatenation, so the snapshot keeps property order. */
  lemma {:induction false} IncludedAppend(a: PropertyValues, b: PropertyValues, ignored: set<string>)
    ensures Included(a + b, ignored) == Included(a, ignored) + Included(b, ignored)
  {
    if a == [] {
      assert a + b == b;
    } else {
      assert (a + b)[1..] == a[1..] + b;
      IncludedAppend(a[1..], b, ignored);
    }
  }

  /** With no ignored property present, the snapshot is all of the values, unchanged. */
  lemma {:induction false} IncludedKeepsAll(values: PropertyValues, ignored: set<string>)
    requires forall i :: 0 <= i < |values| ==> values[i].name !in ignored
    ensures Included(values, ignored) == values
  {
    if values != [] {
      IncludedKeepsAll(values[1..], ignored);
    }
  }

  /**
   * Two value sets that have the same names and differ only in ignored properties
   * give the same snapshot: a change to an ignored property alone is invisible.
   */
  lemma {:induction false} IgnoredChangeInvisible(a: PropertyValues, b: PropertyValues, ignored: set<string>)
    requires |a| == |b|
    requires forall i :: 0 <= i < |a| ==> a[i].name == b[i].name
    requires forall i :: 0 <= i < |a| ==> a[i] == b[i] || a[i].name in ignored
    ensures Included(a, ignored) == Included(b, ignored)
  {
    if a != [] {
      IgnoredChangeInvisible(a[1..], b[1..], ignored);
    }
  }
}
