# Audit trail for an auditable database context — Dafny model

This project models the audit-entry builder of Kvali.AuditTrail and proves what it does. `AuditableDbContext.SaveChanges` walks the change tracker's entries before the real commit. For each entry of an auditable type whose change is an add, modify or delete, and which any `[AuditAction]` restriction allows, it builds one `AuditEntry`. That entry holds the type name, the action string, snapshots of the original and current values (without `[IgnoreAudit]` properties), the time, and the entity id read from the primary key. The entries are appended to `AuditLogs`.

Modules:

- `Wrappers`: `Option`, which stands for the source's nullable references.
- `AuditTypes`: the action enum `AuditActionType`, the `AuditEntry` record, the tracked state `EntityState`, and `TrackedEntry`. It also holds `EntityType`, an explicit metadata record that replaces reflection. The record gives the type name, the `[Auditable]` attribute, the `IAuditable` marker, the `[AuditAction]` restriction, the `[IgnoreAudit]` property names and the model's primary key.
- `Snapshots`: `Serialize`, the snapshot serializer. The JSON text is abstracted as the ordered name/value sequence it encodes.
- `EntityKeys`: the key resolver (`KeyValues`, `FormatEntityId`, `EntityId`). `Split` is the partner of the comma join: it is used to state that a composite id lists the key values in declared order.
- `AuditContext`: the state mapping, the eligibility filter, the specification functions `EntryFor` and `AuditEntries`, and the lemmas about them. It also holds the class `AuditableDbContext`, with the `auditLogs` field, the loop `GetAuditEntries` proved equal to `AuditEntries`, and `SaveChanges`.
- `AuditScenarios`: the scenarios of the test suite, driven through `SaveChanges`.

Two behaviours of the code worth noting:

- A declared key with zero properties gives the id `""`, not null, because `string.Join` of an empty array is empty (`EmptyKeyId`). The case cannot arise at run time: a primary key of the persistence model always has at least one property, and a keyless type takes the no-key branch, which gives null.
- Inside a composite id, a null key value becomes an empty string. A single null key gives a null id.

## Model

| member | source | states |
|---|---|---|
| AuditTypes.AuditActionType.Name | Kvali.AuditTrail/AuditActionType.cs:8-10 | the enum's name is one of "Create", "Update", "Delete" |
| AuditTypes.NameInjective | Kvali.AuditTrail/AuditableDbContext.cs:49-52 | two actions have the same name exactly when they are the same action, so a name comparison is an enum comparison |
| Snapshots.Included | Kvali.AuditTrail/AuditableDbContext.cs:90-93 | a property is in the snapshot iff it is in the values and its name is not ignored; the snapshot is no longer than the values |
| Snapshots.Serialize | Kvali.AuditTrail/AuditableDbContext.cs:85-95 | a null value set yields a null snapshot and only then; a snapshot holds exactly the non-ignored properties with their values |
| Snapshots.IncludedAppend | Kvali.AuditTrail/AuditableDbContext.cs:90-93 | filtering distributes over concatenation, so snapshot order is property order |
| Snapshots.IncludedKeepsAll | Kvali.AuditTrail/AuditableDbContext.cs:90-93 | with no ignored property present the snapshot equals the values |
| Snapshots.IgnoredChangeInvisible | Kvali.AuditTrail/AuditableDbContext.cs:90-93 | value sets that differ only in ignored properties give equal snapshots |
| EntityKeys.KeyValue | Kvali.AuditTrail/AuditableDbContext.cs:58 | a key value is the current value, or the original when the current is null; specified by KeyValues and SingleKeyId |
| EntityKeys.ToStringOrNull | Kvali.AuditTrail/AuditableDbContext.cs:74 | `?.ToString()`: null for a null value, the value's text otherwise; specified by SingleKeyId |
| EntityKeys.ToStringOrEmpty | Kvali.AuditTrail/AuditableDbContext.cs:75 | how `string.Join` renders one element, null as empty; specified by KeyStrings and CompositeKeyId |
| EntityKeys.Join | Kvali.AuditTrail/AuditableDbContext.cs:75 | `string.Join(",", …)`; specified by SplitJoin and JoinSplit |
| EntityKeys.FormatEntityId | Kvali.AuditTrail/AuditableDbContext.cs:72-76 | the `EntityId` expression over the key values; specified by SingleKeyId, CompositeKeyId and EmptyKeyId |
| EntityKeys.Find | Kvali.AuditTrail/AuditableDbContext.cs:58 | the property lookup gives the value of a property of that name when one exists, and null when none does |
| EntityKeys.KeyValues | Kvali.AuditTrail/AuditableDbContext.cs:57-59 | one key value per key property, in declared order, each the current value or else the original |
| EntityKeys.KeyStrings | Kvali.AuditTrail/AuditableDbContext.cs:75 | the join renders each key value by its string form, a null one as empty |
| EntityKeys.Split | Kvali.AuditTrail/AuditableDbContext.cs:75 | cutting at commas always yields at least one part (partner of the comma join) |
| EntityKeys.EntityId | Kvali.AuditTrail/AuditableDbContext.cs:55-76 | no primary key gives a null id; a null id arises only from a missing key or a single null key value |
| EntityKeys.SplitJoin | Kvali.AuditTrail/AuditableDbContext.cs:75 | joining comma-free parts and cutting at commas returns the parts |
| EntityKeys.JoinSplit | Kvali.AuditTrail/AuditableDbContext.cs:75 | joining the comma-separated pieces of any string rebuilds it |
| EntityKeys.SingleKeyId | Kvali.AuditTrail/AuditableDbContext.cs:57-74 | with one key property the id is the current value's string form, falling back to the original when the current is null |
| EntityKeys.CompositeKeyId | Kvali.AuditTrail/AuditableDbContext.cs:72-75 | with several key properties the id, cut at commas, lists each key value's string in declared order (when none contains a comma) |
| EntityKeys.EmptyKeyId | Kvali.AuditTrail/AuditableDbContext.cs:72-75 | a declared key with no properties gives the empty id, not null |
| EntityKeys.PairId | Kvali.AuditTrail/AuditableDbContext.cs:57-75 | an entity keyed by two properties has the id "a,b" made of its two key values in key order |
| EntityKeys.CompositeKeyAmbiguous | Kvali.AuditTrail/AuditableDbContext.cs:72-75 | two tracked entries with different key values can have the same entity id |
| AuditContext.IsAuditable | Kvali.AuditTrail/AuditableDbContext.cs:32-33 | a type takes part iff it has `[Auditable]` or implements `IAuditable`; specified by EntryFor, NotAuditableNoEntry and NoneAuditableNoEntries |
| AuditContext.Permits | Kvali.AuditTrail/AuditableDbContext.cs:49-52 | the `[AuditAction]` name comparison; specified by PermitsIffSameKind and RestrictedAway |
| AuditContext.ActionOf | Kvali.AuditTrail/AuditableDbContext.cs:38-47 | a state has an action iff it is Added, Deleted or Modified, and every action is "Create", "Update" or "Delete" |
| AuditContext.ActionOfIsKindName | Kvali.AuditTrail/AuditableDbContext.cs:38-44 | the action string is the enum name of Added→Create, Modified→Update, Deleted→Delete, and other states have none |
| AuditContext.PermitsIffSameKind | Kvali.AuditTrail/AuditableDbContext.cs:49-53 | a restriction lets an action through iff there is none or it is the state's own action kind |
| AuditContext.EntryFor | Kvali.AuditTrail/AuditableDbContext.cs:30-79 | an entry is produced iff the type is auditable, the state maps to an action, and the restriction permits it |
| AuditContext.EntryFacts | Kvali.AuditTrail/AuditableDbContext.cs:61-77 | a produced entry's action is its state's (Added→Create, Modified→Update, Deleted→Delete); it has the type's name, the time, the entity id, no ignored property, and the snapshots its action calls for (Create: new only; Delete: old only; Update: both) |
| AuditContext.NotAuditableNoEntry | Kvali.AuditTrail/AuditableDbContext.cs:32-35 | a type with neither `[Auditable]` nor `IAuditable` produces no entry in any state |
| AuditContext.RestrictedAway | Kvali.AuditTrail/AuditableDbContext.cs:49-53 | a restricted type produces no entry for any other action |
| AuditContext.AuditEntries | Kvali.AuditTrail/AuditableDbContext.cs:24-83 | the builder yields at most one entry per tracked entry |
| AuditContext.SingleEntry | Kvali.AuditTrail/AuditableDbContext.cs:28-79 | one tracked entry yields its own entry or nothing |
| AuditContext.AuditEntriesAppend | Kvali.AuditTrail/AuditableDbContext.cs:28-80 | the builder over a concatenation is the concatenation of results, so entries follow tracked-entry order |
| AuditContext.AuditEntriesCount | Kvali.AuditTrail/AuditableDbContext.cs:28-80 | the number of entries equals the size of the set of positions of eligible tracked entries |
| AuditContext.AuditEntriesComplete | Kvali.AuditTrail/AuditableDbContext.cs:28-80 | the entry of every eligible tracked entry is among the builder's results |
| AuditContext.AuditEntriesOrigin | Kvali.AuditTrail/AuditableDbContext.cs:28-80 | every produced entry is the entry of some tracked entry |
| AuditContext.AuditEntriesWellShaped | Kvali.AuditTrail/AuditableDbContext.cs:61-79 | every produced entry has a valid action and the snapshots it calls for, and comes from a tracked entry whose name it carries, whose state's action it records, and whose ignored properties it omits |
| AuditContext.NoneAuditableNoEntries | Kvali.AuditTrail/AuditableDbContext.cs:32-35 | tracked entries of non-auditable types yield no entries |
| AuditContext.UnchangedNoEntries | Kvali.AuditTrail/AuditableDbContext.cs:38-47 | unchanged or detached entries yield no entries |
| AuditContext.AuditableDbContext.constructor | Kvali.AuditTrail/AuditableDbContext.cs:11-13 | a context opened over a store lists the audit rows the store already holds |
| AuditContext.AuditableDbContext.GetAuditEntries | Kvali.AuditTrail/AuditableDbContext.cs:24-83 | the loop with its skips returns exactly the builder's entries |
| AuditContext.AuditableDbContext.SaveChanges | Kvali.AuditTrail/AuditableDbContext.cs:15-22 | the log afterwards is its old contents followed by exactly the entries built from the pre-commit tracked state |
| AuditScenarios.ProductEntry | Kvali.AuditTrail.Tests/Entities.cs:4-9 | a tracked test product yields one entry whose snapshots hold `Id` and `Name` but not the ignored `Price`, whose action is its state's, and whose id is its key |
| AuditScenarios.CreateIsLogged | Kvali.AuditTrail.Tests/AuditableDbContextTests.cs:14-34 | creating a product logs one Create entry with the name in the new value, no old value, and no `Price` |
| AuditScenarios.UpdateIsLogged | Kvali.AuditTrail.Tests/AuditableDbContextTests.cs:36-57 | renaming logs an Update with the old name in the old value and the new name in the new value |
| AuditScenarios.DeleteIsLogged | Kvali.AuditTrail.Tests/AuditableDbContextTests.cs:59-79 | removing logs a Delete with the old name in the old value and no new value |
| AuditScenarios.IgnoredPropertyIsLeftOut | Kvali.AuditTrail.Tests/AuditableDbContextTests.cs:81-100 | changing only `Price` still logs an Update whose two snapshots are equal, and no new value names `Price` |
| AuditScenarios.UserAuditedOnlyOnCreate | Kvali.AuditTrail.Tests/AuditableDbContextTests.cs:102-124 | a Create-only `User` is logged once across a create and an update |

## Left out

- The commit that `SaveChanges` delegates to (`base.SaveChanges()`), its returned row count and its atomicity belong to the host framework. The model stops after appending to the log.
- The change tracker is a parameter of `SaveChanges` and `GetAuditEntries`. It is the ordered sequence of its entries, not the framework's object.
- Reflection (`GetCustomAttributes`, `IAuditable`, `GetCustomAttribute<IgnoreAuditAttribute>`) and the model lookups (`FindEntityType`, `FindPrimaryKey`) are replaced by the `EntityType` record's fields, which hold their results.
- AuditContext.AuditableDbContext.GetAuditEntries: takes one instant `now` for the whole batch, while the source reads `DateTimeOffset.UtcNow` once per entry. The clock is an input.
- `AuditEntry.Id` is assigned by the store and is not modelled.
- Snapshots.Serialize: gives the ordered name/value sequence rather than `System.Text.Json` text. Escaping and number formatting are library behaviour.
- Snapshots.Serialize: always succeeds, while `JsonSerializer.Serialize` can throw on a value it cannot serialize; such an exception would leave `SaveChanges` before anything is appended or committed. Property values here are opaque scalars.
- Snapshots.Serialize: does not model `ToDictionary` throwing on a repeated property name. Property names of one entity are unique in the persistence model.
- EntityKeys.Find: an absent property reads as null, where the framework would throw. The persistence model guarantees that key properties exist.
- Property values (strings, numbers, decimals) are opaque: each is null or an object with a `ToString()` text.
- `[AuditAction]` with a value outside the three enum members (its `ToString()` would be a number, and nothing would be logged) is not modelled. The restriction is one of the three members.
- The in-memory test database and `TestDbContext` wiring are not part of this model.
