/**
 * The key resolver: the entity id of an audit entry, read from the primary-key
 * properties. Each key value is the current value, or the original one when the
 * current value is null; one key gives its string form, several are comma-joined.
 */
module EntityKeys {
  import opened Wrappers
  import opened AuditTypes

  /** The value of the first property called `name`, or null when there is none. */
  function Find(values: PropertyValues, name: string): (v: Value)
    ensures v == Null || Property(name, v) in values
    ensures (exists p :: p in values && p.name == name) ==> Property(name, v) in values
    ensures (forall p :: p in values ==> p.name != name) ==> v == Null
  {
    if values == [] then Null
    else if values[0].name == name then values[0].value
    else Find(values[1..], name)
  }

  /** `CurrentValue ?? OriginalValue` of the property called `name`. */
  function KeyValue(e: TrackedEntry, name: string): Value
  {
    var current := Find(e.current, name);
    if current != Null then current else Find(e.original, name)
  }

  /** The key values, one per key property, in declared key order. */
  function KeyValues(e: TrackedEntry, key: seq<string>): (r: seq<Value>)
    ensures |r| == |key|
    ensures forall i :: 0 <= i < |key| ==> r[i] == KeyValue(e, key[i])
  {
    if key == [] then [] else [KeyValue(e, key[0])] + KeyValues(e, key[1..])
  }

  /** `value?.ToString()`. */
  function ToStringOrNull(v: Value): Option<string>
  {
    match v
    case Null => None
    case Obj(text) => Some(text)
  }

  /** How `string.Join` renders an element: null becomes the empty string. */
  function ToStringOrEmpty(v: Value): string
  {
    match v
    case Null => ""
    case Obj(text) => text
  }

  /** `string.Join(",", parts)`. */
  function Join(parts: seq<string>): string
  {
    if parts == [] then ""
    else if |parts| == 1 then parts[0]
    else parts[0] + "," + Join(parts[1..])
  }

  /** Cuts a string at every comma; the inverse of `Join` on comma-free parts. */
  function Split(s: string): (r: seq<string>)
    ensures |r| >= 1
  {
    if s == [] then [""]
    else if s[0] == ',' then [""] + Split(s[1..])
    else var rest := Split(s[1..]); [[s[0]] + rest[0]] + rest[1..]
  }

  /** The strings of `values` as `string.Join` renders them. */
  function KeyStrings(values: seq<Value>): (r: seq<string>)
    ensures |r| == |values|
    ensures forall i :: 0 <= i < |values| ==> r[i] == ToStringOrEmpty(values[i])
  {
    if values == [] then [] else [ToStringOrEmpty(values[0])] + KeyStrings(values[1..])
  }

  /** The `EntityId` expression over the (possibly absent) array of key values. */
  function FormatEntityId(keyValues: Option<seq<Value>>): Option<string>
  {
    match keyValues
    case None => None
    case Some(vs) =>
      if |vs| == 1 then ToStringOrNull(vs[0]) else Some(Join(KeyStrings(vs)))
  }

  /** The entity id of a tracked entry. */
  function EntityId(e: TrackedEntry): (r: Option<string>)
    ensures e.entityType.primaryKey.None? ==> r.None?
    ensures r.None? ==> e.entityType.primaryKey.None? ||
                        (|e.entityType.primaryKey.value| == 1 &&
                         KeyValue(e, e.entityType.primaryKey.value[0]) == Null)
  {
    match e.entityType.primaryKey
    case None => None
    case Some(key) => FormatEntityId(Some(KeyValues(e, key)))
  }

  predicate CommaFree(s: string)
  {
    forall i :: 0 <= i < |s| ==> s[i] != ','
  }

  lemma {:induction false} SplitCommaFree(s: string)
    requires CommaFree(s)
    ensures Split(s) == [s]
  {
    if s != [] {
      assert CommaFree(s[1..]) by {
        forall i | 0 <= i < |s[1..]| ensures s[1..][i] != ',' {
          assert s[1..][i] == s[i + 1];
        }
      }
      SplitCommaFree(s[1..]);
      assert [s[0]] + s[1..] == s;
    }
  }

  lemma {:induction false} SplitAtComma(x: string, t: string)
    requires CommaFree(x)
    ensures Split(x + "," + t) == [x] + Split(t)
  {
    if x == [] {
      assert x + "," + t == [','] + t;
      assert ([','] + t)[1..] == t;
    } else {
      assert (x + "," + t)[1..] == x[1..] + "," + t;
      SplitAtComma(x[1..], t);
      assert [x[0]] + x[1..] == x;
    }
  }

  /** Joining comma-free parts and cutting at the commas gives the parts back. */
  lemma {:induction false} SplitJoin(parts: seq<string>)
    requires parts != []
    requires forall i :: 0 <= i < |parts| ==> CommaFree(parts[i])
    ensures Split(Join(parts)) == parts
  {
    if |parts| == 1 {
      SplitCommaFree(parts[0]);
    } else {
      SplitAtComma(parts[0], Join(parts[1..]));
      SplitJoin(parts[1..]);
    }
  }

  lemma JoinPrepend(c: char, parts: seq<string>)
    requires parts != []
    ensures Join([[c] + parts[0]] + parts[1..]) == [c] + Join(parts)
  {
    var r := [[c] + parts[0]] + parts[1..];
    assert r[0] == [c] + parts[0] && r[1..] == parts[1..];
    if |parts| > 1 {
      assert Join(r) == r[0] + "," + Join(r[1..]);
    }
  }

  lemma JoinAfterEmpty(parts: seq<string>)
    requires parts != []
    ensures Join([""] + parts) == [','] + Join(parts)
  {
    assert ([""] + parts)[1..] == parts;
  }

  /** Joining the pieces of any string at its commas rebuilds the string. */
  lemma {:induction false} JoinSplit(s: string)
    ensures Join(Split(s)) == s
  {
    if s != [] {
      JoinSplit(s[1..]);
      var rest := Split(s[1..]);
      assert s == [s[0]] + s[1..];
      if s[0] == ',' {
        assert Split(s) == [""] + rest;
        JoinAfterEmpty(rest);
      } else {
        assert Split(s) == [[s[0]] + rest[0]] + rest[1..];
        JoinPrepend(s[0], rest);
      }
    }
  }

  /** With one key property the id is that value's string form, null when the value is null. */
  lemma SingleKeyId(e: TrackedEntry, k: string)
    requires e.entityType.primaryKey == Some([k])
    ensures Find(e.current, k) != Null ==> EntityId(e) == ToStringOrNull(Find(e.current, k))
    ensures Find(e.current, k) == Null ==> EntityId(e) == ToStringOrNull(Find(e.original, k))
  {
  }

  /**
   * With several key properties whose values contain no comma, cutting the id at its
   * commas recovers each key value's string, in declared key order.
   */
  lemma CompositeKeyId(e: TrackedEntry)
    requires e.entityType.primaryKey.Some? && |e.entityType.primaryKey.value| >= 2
    requires forall i :: 0 <= i < |e.entityType.primaryKey.value| ==>
               CommaFree(ToStringOrEmpty(KeyValue(e, e.entityType.primaryKey.value[i])))
    ensures EntityId(e).Some?
    ensures |Split(EntityId(e).value)| == |e.entityType.primaryKey.value|
    ensures forall i :: 0 <= i < |e.entityType.primaryKey.value| ==>
              Split(EntityId(e).value)[i] == ToStringOrEmpty(KeyValue(e, e.entityType.primaryKey.value[i]))
  {
    var key := e.entityType.primaryKey.value;
    var parts := KeyStrings(KeyValues(e, key));
    SplitJoin(parts);
  }

  /** A declared but empty key joins nothing and gives the empty id, not null. */
  lemma EmptyKeyId(e: TrackedEntry)
    requires e.entityType.primaryKey == Some([])
    ensures EntityId(e) == Some("")
  {
  }

  /** An entity type keyed by two properties `A` and `B`. */
  const PAIR_TYPE := EntityType("Pair", false, true, None, {}, Some(["A", "B"]))

  function PairEntry(a: string, b: string): TrackedEntry
  {
    TrackedEntry(PAIR_TYPE, Added, [Property("A", Obj(a)), Property("B", Obj(b))], [])
  }

  lemma PairId(a: string, b: string)
    ensures KeyValues(PairEntry(a, b), ["A", "B"]) == [Obj(a), Obj(b)]
    ensures EntityId(PairEntry(a, b)) == Some(a + "," + b)
  {
    var e := PairEntry(a, b);
    assert Find(e.current, "A") == Obj(a);
    assert e.current[1..] == [Property("B", Obj(b))];
    assert Find(e.current, "B") == Obj(b);
    assert KeyValues(e, ["A", "B"]) == [Obj(a), Obj(b)];
    assert KeyStrings([Obj(a), Obj(b)]) == [a, b];
    assert [a, b][1..] == [b];
    assert Join([a, b]) == a + "," + b;
  }

  /** The composite id is lossy: two entries with different key values can have the same id. */
  lemma CompositeKeyAmbiguous()
    ensures KeyValues(PairEntry("a,b", "c"), ["A", "B"]) != KeyValues(PairEntry("a", "b,c"), ["A", "B"])
    ensures EntityId(PairEntry("a,b", "c")) == EntityId(PairEntry("a", "b,c")) == Some("a,b,c")
  {
    PairId("a,b", "c");
    PairId("a", "b,c");
    assert "a,b" + "," + "c" == "a,b,c";
    assert "a" + "," + "b,c" == "a,b,c";
    assert |"a,b"| != |"a"|;
  }
}
