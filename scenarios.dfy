/**
 * The scenarios of the context's tests, driven through `SaveChanges`: a product
 * whose `Price` is `[IgnoreAudit]`, and a `User` audited on create only.
 */
module AuditScenarios {
  import opened Wrappers
  import opened AuditTypes
  import opened Snapshots
  import opened EntityKeys
  import opened AuditContext

  /** The test entity `Entities`: implements `IAuditable`, `Price` ignored, key `Id`. */
  const PRODUCT_TYPE := EntityType("Entities", false, true, None, {"Price"}, Some(["Id"]))

  /** The test entity `User`: implements `IAuditable`, restricted to Create, key `Id`. */
  const USER_TYPE := EntityType("User", false, true, Some(Create), {}, Some(["Id"]))

  function ProductValues(name: string, price: string): PropertyValues
  {
    [Property("Id", Obj("1")), Property("Name", Obj(name)), Property("Price", Obj(price))]
  }

  function UserValues(name: string): PropertyValues
  {
    [Property("Id", Obj("1")), Property("Name", Obj(name))]
  }

  /** What the product's snapshot holds: everything but `Price`. */
  function ProductAudited(name: string): Snapshot
  {
    [Property("Id", Obj("1")), Property("Name", Obj(name))]
  }

  lemma ProductSnapshot(name: string, price: string)
    ensures Included(ProductValues(name, price), {"Price"}) == ProductAudited(name)
  {
    var vs := ProductValues(name, price);
    assert vs[1..][1..][1..] == [];
    assert Included(vs[1..][1..], {"Price"}) == [];
    assert Included(vs[1..], {"Price"}) == [Property("Name", Obj(name))];
  }

  lemma ProductAuditedOmitsPrice(name: string)
    ensures !MentionsName(Some(ProductAudited(name)), "Price")
  {
    forall p | p in ProductAudited(name) ensures p.name != "Price" {
      assert p == Property("Id", Obj("1")) || p == Property("Name", Obj(name));
    }
  }

  /** The entry expected for a product in `state`, named `current` now and `original` before. */
  function ProductLogEntry(state: EntityState, current: string, original: string, now: Timestamp): AuditEntry
    requires state == Added || state == Modified || state == Deleted
  {
    AuditEntry("Entities",
               if state == Added then None else Some(ProductAudited(original)),
               if state == Deleted then None else Some(ProductAudited(current)),
               now, ActionOf(state).value, Some("1"))
  }

  /** The one entry the builder gives for a tracked product at time `now`. */
  lemma ProductEntry(state: EntityState, current: string, original: string, price: string, oldPrice: string, now: Timestamp)
    requires state == Added || state == Modified || state == Deleted
    ensures AuditEntries([TrackedEntry(PRODUCT_TYPE, state, ProductValues(current, price), ProductValues(original, oldPrice))], now)
         == [ProductLogEntry(state, current, original, now)]
  {
    var e := TrackedEntry(PRODUCT_TYPE, state, ProductValues(current, price), ProductValues(original, oldPrice));
    SingleEntry(e, now);
    EntryFacts(e, now);
    ProductSnapshot(current, price);
    ProductSnapshot(original, oldPrice);
    assert KeyValues(e, ["Id"]) == [Obj("1")];
  }

  predicate MentionsName(s: Option<Snapshot>, name: string)
  {
    s.Some? && exists p :: p in s.value && p.name == name
  }

  predicate HoldsText(s: Option<Snapshot>, text: string)
  {
    s.Some? && exists p :: p in s.value && p.value == Obj(text)
  }

  /** Adding a product logs one Create entry with the new name and no old value. */
  method CreateIsLogged() returns (logs: seq<AuditEntry>)
    ensures |logs| == 1
    ensures logs[0].action == "Create" && logs[0].oldValue == None
    ensures HoldsText(logs[0].newValue, "Test Product")
    ensures !MentionsName(logs[0].newValue, "Price")
    ensures logs[0].entityId == Some("1")
  {
    var context := new AuditableDbContext([]);  // a fresh database, as each test opens
    var created := ProductValues("Test Product", "10.99");
    ProductEntry(Added, "Test Product", "Test Product", "10.99", "10.99", 1);
    context.SaveChanges([TrackedEntry(PRODUCT_TYPE, Added, created, created)], 1);
    logs := context.auditLogs;
    assert Property("Name", Obj("Test Product")) in logs[0].newValue.value;
  }

  /** Renaming a product logs an Update entry with the old and the new name. */
  method UpdateIsLogged() returns (logs: seq<AuditEntry>)
    ensures |logs| == 2
    ensures logs[1].action == "Update"
    ensures HoldsText(logs[1].oldValue, "Test Product")
    ensures HoldsText(logs[1].newValue, "Updated Product")
  {
    var context := new AuditableDbContext([]);  // a fresh database, as each test opens
    var created := ProductValues("Test Product", "10.99");
    ProductEntry(Added, "Test Product", "Test Product", "10.99", "10.99", 1);
    context.SaveChanges([TrackedEntry(PRODUCT_TYPE, Added, created, created)], 1);
    var renamed := ProductValues("Updated Product", "10.99");
    ProductEntry(Modified, "Updated Product", "Test Product", "10.99", "10.99", 2);
    context.SaveChanges([TrackedEntry(PRODUCT_TYPE, Modified, renamed, created)], 2);
    logs := context.auditLogs;
    assert Property("Name", Obj("Test Product")) in logs[1].oldValue.value;
    assert Property("Name", Obj("Updated Product")) in logs[1].newValue.value;
  }

  /** Removing a product logs a Delete entry with the old name and no new value. */
  method DeleteIsLogged() returns (logs: seq<AuditEntry>)
    ensures |logs| == 2
    ensures logs[1].action == "Delete" && logs[1].newValue == None
    ensures HoldsText(logs[1].oldValue, "Test Product")
    ensures logs[1].entityId == Some("1")
  {
    var context := new AuditableDbContext([]);  // a fresh database, as each test opens
    var created := ProductValues("Test Product", "10.99");
    ProductEntry(Added, "Test Product", "Test Product", "10.99", "10.99", 1);
    context.SaveChanges([TrackedEntry(PRODUCT_TYPE, Added, created, created)], 1);
    ProductEntry(Deleted, "Test Product", "Test Product", "10.99", "10.99", 2);
    context.SaveChanges([TrackedEntry(PRODUCT_TYPE, Deleted, created, created)], 2);
    logs := context.auditLogs;
    assert Property("Name", Obj("Test Product")) in logs[1].oldValue.value;
  }

  /** The log of a create followed by an update that kept the name. */
  lemma SameNameLog(name: string, created: Timestamp, updated: Timestamp)
    ensures var logs := [ProductLogEntry(Added, name, name, created), ProductLogEntry(Modified, name, name, updated)];
      && logs[1].action == "Update" && logs[1].oldValue == logs[1].newValue
      && forall k :: 0 <= k < |logs| ==> !MentionsName(logs[k].newValue, "Price")
  {
    ProductAuditedOmitsPrice(name);
  }

  /**
   * Changing only the ignored `Price` still logs an Update entry, whose two
   * snapshots are equal, and no entry mentions `Price`.
   */
  method IgnoredPropertyIsLeftOut() returns (logs: seq<AuditEntry>)
    ensures |logs| == 2
    ensures logs[1].action == "Update" && logs[1].oldValue == logs[1].newValue
    ensures forall k :: 0 <= k < |logs| ==> !MentionsName(logs[k].newValue, "Price")
  {
    var context := new AuditableDbContext([]);  // a fresh database, as each test opens
    var name, price, newPrice := "Test Product", "10.99", "15.99";
    var created := ProductValues(name, price);
    ProductEntry(Added, name, name, price, price, 1);
    context.SaveChanges([TrackedEntry(PRODUCT_TYPE, Added, created, created)], 1);
    assert context.auditLogs == [ProductLogEntry(Added, name, name, 1)];
    var repriced := ProductValues(name, newPrice);
    ProductEntry(Modified, name, name, newPrice, price, 2);
    context.SaveChanges([TrackedEntry(PRODUCT_TYPE, Modified, repriced, created)], 2);
    logs := context.auditLogs;
    assert logs == [ProductLogEntry(Added, name, name, 1), ProductLogEntry(Modified, name, name, 2)];
    SameNameLog(name, 1, 2);
  }

  /** A Create-only user is logged once across a create followed by an update. */
  method UserAuditedOnlyOnCreate() returns (logs: seq<AuditEntry>)
    ensures |logs| == 1
    ensures logs[0].action == "Create" && logs[0].entityName == "User"
  {
    var context := new AuditableDbContext([]);  // a fresh database, as each test opens
    var created := UserValues("Test User");
    context.SaveChanges([TrackedEntry(USER_TYPE, Added, created, created)], 1);
    var renamed := UserValues("Updated User");
    context.SaveChanges([TrackedEntry(USER_TYPE, Modified, renamed, created)], 2);
    logs := context.auditLogs;
  }
}
