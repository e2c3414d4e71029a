/**
 * The audit entry builder and the save hook of the auditable database context.
 * `EntryFor` and `AuditEntries` are the specification of the builder loop;
 * `AuditableDbContext` holds the audit log that `SaveChanges` appends to.
 */
module AuditContext {
  import opened Wrappers
  import opened AuditTypes
  import opened Snapshots
  import opened EntityKeys

  /** A type takes part when it carries `[Auditable]` or implements `IAuditable`. */
  predicate IsAuditable(t: EntityType)
  {
    t.hasAuditableAttribute || t.implementsAuditable
  }

  /** The action string of a tracked state; states other than the three give null. */
  function ActionOf(state: EntityState): (a: Option<string>)
    ensures a.Some? <==> state == Added || state == Deleted || state == Modified
    ensures a.Some? ==> a.value == "Create" || a.value == "Update" || a.value == "Delete"
  {
    match state
    case Added => Some("Create")
    case Deleted => Some("Delete")
    case Modified => Some("Update")
    case _ => None
  }

  /** A reference definition of the state mapping, on the action enum. */
  function ActionKind(state: EntityState): Option<AuditActionType>
  {
    match state
    case Added => Some(Create)
    case Modified => Some(Update)
    case Deleted => Some(Delete)
    case Unchanged => None
    case Detached => None
  }

  /** The action string is the enum name of the state's action kind. */
  lemma ActionOfIsKindName(state: EntityState)
    ensures ActionOf(state).None? <==> ActionKind(state).None?
    ensures ActionOf(state).Some? ==> ActionOf(state).value == ActionKind(state).value.Name()
  {
  }

  /** An `[AuditAction]` restriction lets an action through when the enum's name equals it. */
  predicate Permits(restriction: Option<AuditActionType>, action: string)
  {
    restriction.None? || restriction.value.Name() == action
  }

  /** Comparing by name is the same as comparing the enum values. */
  lemma PermitsIffSameKind(restriction: Option<AuditActionType>, state: EntityState)
    requires ActionKind(state).Some?
    ensures Permits(restriction, ActionOf(state).value) <==>
            restriction.None? || restriction == ActionKind(state)
  {
    if restriction.Some? {
      NameInjective(restriction.value, ActionKind(state).value);
    }
  }

  /** The audit entry one tracked entry gives at time `now`, if any. */
  function EntryFor(e: TrackedEntry, now: Timestamp): (r: Option<AuditEntry>)
    ensures r.Some? <==> IsAuditable(e.entityType) && ActionOf(e.state).Some? &&
                         Permits(e.entityType.actionRestriction, ActionOf(e.state).value)
  {
    var t := e.entityType;
    if !IsAuditable(t) then None
    else
      match ActionOf(e.state)
      case None => None
      case Some(action) =>
        if !Permits(t.actionRestriction, action) then None
        else
          Some(AuditEntry(
            t.name,
            if e.state == Deleted || e.state == Modified then Serialize(Some(e.original), t.ignored) else None,
            if e.state == Added || e.state == Modified then Serialize(Some(e.current), t.ignored) else None,
            now,
            action,
            EntityId(e)))
  }

  /** No snapshot of the entry names a property that `ignored` lists. */
  predicate OmitsIgnored(r: AuditEntry, ignored: set<string>)
  {
    && (r.oldValue.Some? ==> forall p :: p in r.oldValue.value ==> p.name !in ignored)
    && (r.newValue.Some? ==> forall p :: p in r.newValue.value ==> p.name !in ignored)
  }

  /** Which snapshots an entry holds, by its action. */
  predicate WellShaped(r: AuditEntry)
  {
    && (r.action == "Create" || r.action == "Update" || r.action == "Delete")
    && (r.oldValue.Some? <==> r.action == "Delete" || r.action == "Update")
    && (r.newValue.Some? <==> r.action == "Create" || r.action == "Update")
  }

  /** What a produced entry holds, in terms of the tracked entry it comes from. */
  lemma EntryFacts(e: TrackedEntry, now: Timestamp)
    requires EntryFor(e, now).Some?
    ensures var r := EntryFor(e, now).value;
      && WellShaped(r)
      && r.action == ActionOf(e.state).value
      && OmitsIgnored(r, e.entityType.ignored)
      && r.entityName == e.entityType.name
      && r.createdAt == now
      && r.entityId == EntityId(e)
      && (r.action == "Create" ==> r.oldValue == None && r.newValue == Some(Included(e.current, e.entityType.ignored)))
      && (r.action == "Delete" ==> r.newValue == None && r.oldValue == Some(Included(e.original, e.entityType.ignored)))
      && (r.action == "Update" ==> (r.oldValue == Some(Included(e.original, e.entityType.ignored)) &&
                                   r.newValue == Some(Included(e.current, e.entityType.ignored))))
  {
  }

  /** A type without `[Auditable]` or `IAuditable` yields no entry, whatever its state. */
  lemma NotAuditableNoEntry(e: TrackedEntry, now: Timestamp)
    requires !IsAuditable(e.entityType)
    ensures EntryFor(e, now) == None
  {
  }

  /** A restricted type yields no entry for any other action. */
  lemma RestrictedAway(e: TrackedEntry, now: Timestamp)
    requires e.entityType.actionRestriction.Some?
    requires ActionKind(e.state) != e.entityType.actionRestriction
    ensures EntryFor(e, now) == None
  {
    if ActionKind(e.state).Some? {
      PermitsIffSameKind(e.entityType.actionRestriction, e.state);
    }
  }

  /** The entry of one tracked entry as a sequence of zero or one elements. */
  function EntriesOf(e: TrackedEntry, now: Timestamp): seq<AuditEntry>
  {
    match EntryFor(e, now)
    case None => []
    case Some(r) => [r]
  }

  /** The builder: the entries of the tracked entries, in tracked order. */
  function AuditEntries(tracked: seq<TrackedEntry>, now: Timestamp): (r: seq<AuditEntry>)
    ensures |r| <= |tracked|
  {
    if tracked == [] then [] else EntriesOf(tracked[0], now) + AuditEntries(tracked[1..], now)
  }

  /** One tracked entry gives its own entry, or nothing. */
  lemma SingleEntry(e: TrackedEntry, now: Timestamp)
    ensures AuditEntries([e], now) == if EntryFor(e, now).Some? then [EntryFor(e, now).value] else []
  {
    assert [e][1..] == [];
    assert AuditEntries([e], now) == EntriesOf(e, now) + AuditEntries([], now);
  }

  /** The positions of the tracked entries that produce an entry. */
  function EligibleIndices(tracked: seq<TrackedEntry>, now: Timestamp): set<nat>
  {
    set i: nat | i < |tracked| && EntryFor(tracked[i], now).Some?
  }

  /** Whether each tracked entry produces an entry, position by position. */
  function Eligibility(tracked: seq<TrackedEntry>, now: Timestamp): (f: seq<bool>)
    ensures |f| == |tracked|
    ensures forall i :: 0 <= i < |tracked| ==> f[i] == EntryFor(tracked[i], now).Some?
  {
    if tracked == [] then [] else [EntryFor(tracked[0], now).Some?] + Eligibility(tracked[1..], now)
  }

  function TrueCount(f: seq<bool>): nat
  {
    if f == [] then 0 else (if f[0] then 1 else 0) + TrueCount(f[1..])
  }

  function TrueIndices(f: seq<bool>): set<nat>
  {
    set i: nat | i < |f| && f[i]
  }

  function Shift(s: set<nat>): set<nat>
  {
    set i | i in s :: i + 1
  }

  /** Shifting a set of naturals by one keeps its size. */
  lemma {:induction false} ShiftSize(s: set<nat>)
    ensures |Shift(s)| == |s|
  {
    if s != {} {
      var x :| x in s;
      var rest := s - {x};
      ShiftSize(rest);
      forall y: nat ensures y in Shift(s) <==> y in Shift(rest) + {x + 1} {
        if y in Shift(s) {
          var j :| j in s && y == j + 1;
          if j != x {
            assert j in rest;
          }
        }
        if y in Shift(rest) {
          var j :| j in rest && y == j + 1;
          assert j in s;
        }
        if y == x + 1 {
          assert x in s;
        }
      }
      assert Shift(s) == Shift(rest) + {x + 1};
      assert x + 1 !in Shift(rest);
    }
  }

  /** The number of true flags is the size of the set of their positions. */
  lemma {:induction false} TrueIndicesSize(f: seq<bool>)
    ensures |TrueIndices(f)| == TrueCount(f)
  {
    if f != [] {
      var tail := f[1..];
      TrueIndicesSize(tail);
      ShiftSize(TrueIndices(tail));
      var head: set<nat> := if f[0] then {0} else {};
      forall i: nat ensures i in TrueIndices(f) <==> i in head + Shift(TrueIndices(tail)) {
        if i > 0 {
          assert i < |f| ==> f[i] == tail[i - 1];
          if i in TrueIndices(f) {
            assert (i - 1) in TrueIndices(tail);
          }
          if i in Shift(TrueIndices(tail)) {
            var j :| j in TrueIndices(tail) && i == j + 1;
          }
        }
      }
      assert TrueIndices(f) == head + Shift(TrueIndices(tail));
      assert 0 !in Shift(TrueIndices(tail));
    }
  }

  lemma {:induction false} AuditEntriesTrueCount(tracked: seq<TrackedEntry>, now: Timestamp)
    ensures |AuditEntries(tracked, now)| == TrueCount(Eligibility(tracked, now))
  {
    if tracked != [] {
      AuditEntriesTrueCount(tracked[1..], now);
      assert Eligibility(tracked, now)[1..] == Eligibility(tracked[1..], now);
      assert AuditEntries(tracked, now) == EntriesOf(tracked[0], now) + AuditEntries(tracked[1..], now);
    }
  }

  /** The builder over a concatenation is the concatenation of the builder's results. */
  lemma {:induction false} AuditEntriesAppend(a: seq<TrackedEntry>, b: seq<TrackedEntry>, now: Timestamp)
    ensures AuditEntries(a + b, now) == AuditEntries(a, now) + AuditEntries(b, now)
  {
    if a == [] {
      assert a + b == b;
    } else {
      var ab := a + b;
      assert ab[0] == a[0] && ab[1..] == a[1..] + b;
      AuditEntriesAppend(a[1..], b, now);
      assert AuditEntries(a, now) == EntriesOf(a[0], now) + AuditEntries(a[1..], now);
      assert AuditEntries(ab, now) == EntriesOf(a[0], now) + AuditEntries(a[1..] + b, now);
    }
  }

  /** Exactly one entry per eligible tracked entry. */
  lemma AuditEntriesCount(tracked: seq<TrackedEntry>, now: Timestamp)
    ensures |AuditEntries(tracked, now)| == |EligibleIndices(tracked, now)|
  {
    var f := Eligibility(tracked, now);
    AuditEntriesTrueCount(tracked, now);
    TrueIndicesSize(f);
    assert EligibleIndices(tracked, now) == TrueIndices(f);
  }

  /** Every eligible tracked entry's own entry is among the builder's results. */
  lemma AuditEntriesComplete(tracked: seq<TrackedEntry>, now: Timestamp, i: nat)
    requires i < |tracked| && EntryFor(tracked[i], now).Some?
    ensures EntryFor(tracked[i], now).value in AuditEntries(tracked, now)
  {
    assert tracked == tracked[..i] + [tracked[i]] + tracked[i + 1..];
    AuditEntriesAppend(tracked[..i] + [tracked[i]], tracked[i + 1..], now);
    AuditEntriesAppend(tracked[..i], [tracked[i]], now);
    SingleEntry(tracked[i], now);
  }

  /** Every produced entry is the entry of some tracked entry. */
  lemma {:induction false} AuditEntriesOrigin(tracked: seq<TrackedEntry>, now: Timestamp, k: nat)
    requires k < |AuditEntries(tracked, now)|
    ensures exists i :: 0 <= i < |tracked| && EntryFor(tracked[i], now) == Some(AuditEntries(tracked, now)[k])
  {
    var head := EntryFor(tracked[0], now);
    var rest := AuditEntries(tracked[1..], now);
    assert AuditEntries(tracked, now) == EntriesOf(tracked[0], now) + rest;
    if head.Some? && k == 0 {
      assert EntryFor(tracked[0], now) == Some(AuditEntries(tracked, now)[k]);
    } else {
      var k' := if head.Some? then k - 1 else k;
      assert AuditEntries(tracked, now)[k] == rest[k'];
      AuditEntriesOrigin(tracked[1..], now, k');
      var i :| 0 <= i < |tracked[1..]| && EntryFor(tracked[1..][i], now) == Some(rest[k']);
      assert tracked[1..][i] == tracked[i + 1];
    }
  }

  /**
   * Every produced entry has one of the three actions, holds exactly the snapshots
   * its action calls for, names no ignored property, and carries the type's name.
   */
  lemma AuditEntriesWellShaped(tracked: seq<TrackedEntry>, now: Timestamp, k: nat)
    requires k < |AuditEntries(tracked, now)|
    ensures var r := AuditEntries(tracked, now)[k];
      && WellShaped(r)
      && r.createdAt == now
      && exists i :: 0 <= i < |tracked| && OmitsIgnored(r, tracked[i].entityType.ignored) &&
                     r.entityName == tracked[i].entityType.name &&
                     ActionOf(tracked[i].state).Some? && r.action == ActionOf(tracked[i].state).value
  {
    AuditEntriesOrigin(tracked, now, k);
    var i :| 0 <= i < |tracked| && EntryFor(tracked[i], now) == Some(AuditEntries(tracked, now)[k]);
    EntryFacts(tracked[i], now);
  }

  /** Tracked entries none of whose types is auditable produce no entry at all. */
  lemma {:induction false} NoneAuditableNoEntries(tracked: seq<TrackedEntry>, now: Timestamp)
    requires forall i :: 0 <= i < |tracked| ==> !IsAuditable(tracked[i].entityType)
    ensures AuditEntries(tracked, now) == []
  {
    if tracked != [] {
      NoneAuditableNoEntries(tracked[1..], now);
    }
  }

  /** Entries in the unchanged or detached state produce no entry at all. */
  lemma {:induction false} UnchangedNoEntries(tracked: seq<TrackedEntry>, now: Timestamp)
    requires forall i :: 0 <= i < |tracked| ==> tracked[i].state == Unchanged || tracked[i].state == Detached
    ensures AuditEntries(tracked, now) == []
  {
    if tracked != [] {
      UnchangedNoEntries(tracked[1..], now);
    }
  }

  /** The context: the audit log collection (`AuditLogs`) the save hook appends to. */
  class AuditableDbContext {
    var auditLogs: seq<AuditEntry>

    /** Opens a context over a store whose audit table already holds `stored`. */
    constructor (stored: seq<AuditEntry>)
      ensures auditLogs == stored
    {
      auditLogs := stored;
    }

    /** Walks the tracked entries and builds one entry per eligible change. */
    method GetAuditEntries(changeTracker: seq<TrackedEntry>, now: Timestamp) returns (auditEntries: seq<AuditEntry>)
      ensures auditEntries == AuditEntries(changeTracker, now)
    {
      auditEntries := [];
      for i := 0 to |changeTracker|
        invariant auditEntries == AuditEntries(changeTracker[..i], now)
      {
        var entry := changeTracker[i];
        assert changeTracker[..i + 1] == changeTracker[..i] + [entry];
        AuditEntriesAppend(changeTracker[..i], [entry], now);
        SingleEntry(entry, now);

        var entryType := entry.entityType;
        var isAuditable := entryType.hasAuditableAttribute || entryType.implementsAuditable;
        if !isAuditable {
          continue;
        }

        var entityName := entryType.name;
        var actionType: Option<string> :=
          match entry.state
          case Added => Some("Create")
          case Deleted => Some("Delete")
          case Modified => Some("Update")
          case _ => None;
        if actionType == None {
          continue;
        }

        if entryType.actionRestriction.Some? && entryType.actionRestriction.value.Name() != actionType.value {
          continue;
        }

        var keyValues: Option<seq<Value>> :=
          if entryType.primaryKey.Some? then Some(KeyValues(entry, entryType.primaryKey.value)) else None;

        var auditEntry := AuditEntry(
          entityName,
          if entry.state == Deleted || entry.state == Modified then Serialize(Some(entry.original), entryType.ignored) else None,
          if entry.state == Added || entry.state == Modified then Serialize(Some(entry.current), entryType.ignored) else None,
          now,
          actionType.value,
          FormatEntityId(keyValues));
        assert EntryFor(entry, now) == Some(auditEntry);

        auditEntries := auditEntries + [auditEntry];
      }
      assert changeTracker[..|changeTracker|] == changeTracker;
    }

    /** Builds the entries from the pre-commit tracked state and appends them to the log. */
    method SaveChanges(changeTracker: seq<TrackedEntry>, now: Timestamp)
      modifies this
      ensures auditLogs == old(auditLogs) + AuditEntries(changeTracker, now)
    {
      var auditEntries := GetAuditEntries(changeTracker, now);
      auditLogs := auditLogs + auditEntries;
    }
  }
}
