/**
 * The declarations the audit builder works on: the action enum, the audit
 * record it emits, and the metadata and change-tracking state it reads.
 * Reflection over attributes and the marker interface is replaced by an
 * explicit per-type metadata record.
 */
module AuditTypes {
  import opened Wrappers

  /** The kind of change an audit entry records. */
  datatype AuditActionType = Create | Update | Delete {

    /** The enum member's name, which is what `ToString()` yields. */
    function Name(): (s: string)
      ensures s == "Create" || s == "Update" || s == "Delete"
    {
      match this
      case Create => "Create"
      case Update => "Update"
      case Delete => "Delete"
    }
  }

  /** A property value: `null`, or an object whose `ToString()` is `text`. */
  datatype Value = Null | Obj(text: string)

  /** One named property value of an entity. */
  datatype Property = Property(name: string, value: Value)

  /** The current or original values of an entity, in the order the change tracker lists its properties. */
  type PropertyValues = seq<Property>

  /** A serialized snapshot: the audited properties of an entity, keyed by name, in order. */
  type Snapshot = seq<Property>

  /** The point in time stamped on an entry (a `DateTimeOffset`). */
  type Timestamp = int

  /** The change-tracking state of an entity. */
  datatype EntityState = Detached | Unchanged | Deleted | Modified | Added

  /**
   * What reflection and the persistence model say about an entity's runtime type:
   * its name, the `[Auditable]` attribute, the `IAuditable` marker, an optional
   * `[AuditAction]` restriction, the names of its `[IgnoreAudit]` properties, and
   * its primary key (None when the model has no entity type or no primary key).
   */
  datatype EntityType = EntityType(
    name: string,
    hasAuditableAttribute: bool,
    implementsAuditable: bool,
    actionRestriction: Option<AuditActionType>,
    ignored: set<string>,
    primaryKey: Option<seq<string>>)

  /** One entry of the change tracker: the entity's type, its state and its values. */
  datatype TrackedEntry = TrackedEntry(
    entityType: EntityType,
    state: EntityState,
    current: PropertyValues,
    original: PropertyValues)

  /** The audit record; `Id` is assigned by the store and is not part of the model. */
  datatype AuditEntry = AuditEntry(
    entityName: string,
    oldValue: Option<Snapshot>,
    newValue: Option<Snapshot>,
    createdAt: Timestamp,
    action: string,
    entityId: Option<string>)

  lemma NameInjective(t: AuditActionType, u: AuditActionType)
    ensures t.Name() == u.Name() <==> t == u
  {
  }
}
