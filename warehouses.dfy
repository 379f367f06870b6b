/** WarehousesService (backend/src/warehouses/warehouses.service.ts): the
    warehouses table, scoped to a client through the location a warehouse
    sits in. */
module Warehouses {
  import opened Common
  import opened Tables
  import opened Store

  /** The body handed to create. */
  datatype WarehouseData = WarehouseData(
    name: string,
    locationId: int,
    aisle: Dimension,
    bay: Dimension,
    level: Dimension,
    bin: Dimension)

  /** The two columns of one dimension in an update body. */
  datatype DimensionPatch = DimensionPatch(kind: Patch<Option<string>>, count: Patch<Option<int>>)
  {
    function ApplyTo(d: Dimension): Dimension
    {
      Dimension(kind.ApplyTo(d.kind), count.ApplyTo(d.count))
    }
  }

  /** The body handed to update: each column is either left out or given. */
  datatype WarehousePatch = WarehousePatch(
    name: Patch<string>,
    locationId: Patch<int>,
    aisle: DimensionPatch,
    bay: DimensionPatch,
    level: DimensionPatch,
    bin: DimensionPatch)
  {
    /** The row after `repository.update(id, patch)`. */
    function ApplyTo(w: Warehouse): (r: Warehouse)
      ensures r.id == w.id
    {
      Warehouse(w.id, name.ApplyTo(w.name), locationId.ApplyTo(w.locationId),
        aisle.ApplyTo(w.aisle), bay.ApplyTo(w.bay), level.ApplyTo(w.level), bin.ApplyTo(w.bin))
    }
  }

  /** The query's client condition: none without a client (null or
      undefined), otherwise `location.clientId = clientId`. */
  predicate InScope(locations: seq<Location>, w: Warehouse, clientId: Option<int>)
  {
    clientId.None? || LocationOwned(locations, w.locationId, clientId.value)
  }

  function Visible(locations: seq<Location>, clientId: Option<int>): Warehouse -> bool
  {
    (w: Warehouse) => InScope(locations, w, clientId)
  }

  function IdVisible(locations: seq<Location>, id: int, clientId: Option<int>): Warehouse -> bool
  {
    (w: Warehouse) => w.id == id && InScope(locations, w, clientId)
  }

  /** `WHERE id = i` */
  function HasId(id: int): Warehouse -> bool
  {
    (w: Warehouse) => w.id == id
  }

  function NotId(id: int): Warehouse -> bool
  {
    (w: Warehouse) => w.id != id
  }

  /** The exclusions that survive the cascade when warehouse `id` is deleted. */
  function NotOfWarehouse(id: int): Exclusion -> bool
  {
    (e: Exclusion) => e.warehouseId != id
  }

  /** The relocation update refuses: a truthy locationId other than the
      current one that is not a location of the client. */
  predicate RelocationRefused(locations: seq<Location>, existing: Warehouse, patch: WarehousePatch, clientId: int)
  {
    && patch.locationId.Set?
    && Truthy(patch.locationId.value)
    && patch.locationId.value != existing.locationId
    && !LocationOwned(locations, patch.locationId.value, clientId)
  }

  /** A location belongs to at most one client, because location ids are keys. */
  lemma OwnerUnique(locations: seq<Location>, next: int, id: int, a: int, b: int)
    requires IdsValid(locations, LocationId, next)
    requires LocationOwned(locations, id, a) && LocationOwned(locations, id, b)
    ensures a == b
  {
    var la :| la in locations && la.id == id && la.clientId == a;
    var lb :| lb in locations && lb.id == id && lb.clientId == b;
    var i :| 0 <= i < |locations| && locations[i] == la;
    var j :| 0 <= j < |locations| && locations[j] == lb;
    IdsAreKeys(locations, LocationId, next, i);
  }

  class WarehousesService {
    const db: Database

    constructor (db: Database)
      ensures this.db == db
    {
      this.db := db;
    }

    /** findAll: every warehouse when no client is given, otherwise exactly
        the warehouses whose location belongs to that client. */
    function FindAll(clientId: Option<int>): (r: seq<Warehouse>)
      reads db
      ensures forall w :: w in r <==> w in db.warehouses && InScope(db.locations, w, clientId)
      ensures clientId.None? ==> r == db.warehouses
    {
      Filter(db.warehouses, Visible(db.locations, clientId))
    }

    /** findOne: the warehouse with that id, provided it is in the client's
        scope. */
    function FindOne(id: int, clientId: Option<int>): (r: Option<Warehouse>)
      reads db
      ensures r.Some? ==> r.value in db.warehouses && r.value.id == id && InScope(db.locations, r.value, clientId)
      ensures r.None? <==> forall w :: w in db.warehouses ==> !(w.id == id && InScope(db.locations, w, clientId))
    {
      Find(db.warehouses, IdVisible(db.locations, id, clientId))
    }

    /** No warehouse is visible to two different clients. */
    lemma TenantsDisjoint(w: Warehouse, a: int, b: int)
      requires db.Valid()
      requires w in FindAll(Some(a)) && w in FindAll(Some(b))
      ensures a == b
    {
      OwnerUnique(db.locations, db.nextLocationId, w.locationId, a, b);
    }

    /** create: fails without a client id, and fails when the location is not
        one of the client's; otherwise appends the warehouse and returns it
        as read back within the client's scope, which always finds it. */
    method Create(data: WarehouseData, clientId: int) returns (r: Result<Warehouse>)
      requires db.Valid()
      modifies db`warehouses, db`nextWarehouseId
      ensures db.Valid()
      ensures !Truthy(clientId) ==>
        && r == Err(ClientIdRequired("create a warehouse"))
        && db.warehouses == old(db.warehouses) && db.nextWarehouseId == old(db.nextWarehouseId)
      ensures Truthy(clientId) && !LocationOwned(db.locations, data.locationId, clientId) ==>
        && r == Err(LocationNotOwned)
        && db.warehouses == old(db.warehouses) && db.nextWarehouseId == old(db.nextWarehouseId)
      ensures Truthy(clientId) && LocationOwned(db.locations, data.locationId, clientId) ==>
        && r == Ok(Warehouse(old(db.nextWarehouseId), data.name, data.locationId,
                             data.aisle, data.bay, data.level, data.bin))
        && db.warehouses == old(db.warehouses) + [r.value]
        && db.nextWarehouseId == old(db.nextWarehouseId) + 1
        && r.value in FindAll(Some(clientId))
    {
      if !Truthy(clientId) {
        return Err(ClientIdRequired("create a warehouse"));
      }
      if !LocationOwned(db.locations, data.locationId, clientId) {
        return Err(LocationNotOwned);
      }
      var row := Warehouse(db.nextWarehouseId, data.name, data.locationId,
                           data.aisle, data.bay, data.level, data.bin);
      ghost var before := db.warehouses;
      AppendKeepsIdsValid(db.warehouses, WarehouseId, db.nextWarehouseId, row);
      db.warehouses := db.warehouses + [row];
      db.nextWarehouseId := db.nextWarehouseId + 1;
      forall e | e in db.exclusions ensures WarehouseExists(db.warehouses, e.warehouseId) {
        var w :| w in before && w.id == e.warehouseId;
        assert w in db.warehouses;
      }
      var reloaded := FindOne(row.id, Some(clientId));
      IdsAreKeys(db.warehouses, WarehouseId, db.nextWarehouseId, |db.warehouses| - 1);
      assert reloaded.Some? by {
        assert IdVisible(db.locations, row.id, Some(clientId))(row);
      }
      r := Ok(reloaded.value);
    }

    /** update: fails without a client id, fails when the warehouse is not
        the client's, fails when the patch moves it to a location outside
        the client's; a locationId of 0 slips past that check and the store
        refuses it. Otherwise rewrites that one row, and reading it back in
        the client's scope always finds it as patched. */
    method Update(id: int, patch: WarehousePatch, clientId: int) returns (r: Result<Warehouse>)
      requires db.Valid()
      modifies db`warehouses
      ensures db.Valid()
      ensures !Truthy(clientId) ==>
        r == Err(ClientIdRequired("update a warehouse")) && db.warehouses == old(db.warehouses)
      ensures Truthy(clientId) && old(FindOne(id, Some(clientId))).None? ==>
        r == Err(WarehouseNotOwned) && db.warehouses == old(db.warehouses)
      ensures Truthy(clientId) && old(FindOne(id, Some(clientId))).Some? ==>
        var existing := old(FindOne(id, Some(clientId))).value;
        if RelocationRefused(db.locations, existing, patch, clientId) then
          r == Err(LocationNotOwned) && db.warehouses == old(db.warehouses)
        else if patch.locationId == Set(0) then
          r == Err(ForeignKeyViolation) && db.warehouses == old(db.warehouses)
        else
          && r == Ok(patch.ApplyTo(existing))
          && r.value in FindAll(Some(clientId))
          && db.warehouses == UpdateWhere(old(db.warehouses), HasId(id), patch.ApplyTo)
    {
      if !Truthy(clientId) {
        return Err(ClientIdRequired("update a warehouse"));
      }
      var existing := FindOne(id, Some(clientId));
      if existing.None? {
        return Err(WarehouseNotOwned);
      }
      var w := existing.value;
      if patch.locationId.Set? && Truthy(patch.locationId.value) && patch.locationId.value != w.locationId {
        if !LocationOwned(db.locations, patch.locationId.value, clientId) {
          return Err(LocationNotOwned);
        }
      }
      RelocationTarget(db.locations, db.nextLocationId, w, patch, clientId);
      if patch.locationId.Set? && !LocationExists(db.locations, patch.locationId.value) {
        return Err(ForeignKeyViolation);
      }
      r := Save(w, patch, clientId);
    }

    /** The write of update once every check has passed: the row is patched
        in place, and reading it back in the client's scope finds it. */
    method Save(w: Warehouse, patch: WarehousePatch, clientId: int) returns (r: Result<Warehouse>)
      requires db.Valid() && w in db.warehouses && LocationOwned(db.locations, w.locationId, clientId)
      requires !RelocationRefused(db.locations, w, patch, clientId) && patch.locationId != Set(0)
      modifies db`warehouses
      ensures db.Valid()
      ensures r == Ok(patch.ApplyTo(w)) && r.value in FindAll(Some(clientId))
      ensures db.warehouses == UpdateWhere(old(db.warehouses), HasId(w.id), patch.ApplyTo)
    {
      var after := UpdateWhere(db.warehouses, HasId(w.id), patch.ApplyTo);
      UpdateSound(db.locations, db.warehouses, db.exclusions, db.nextLocationId, db.nextWarehouseId,
                  db.nextExclusionId, w, clientId, patch);
      db.warehouses := after;
      db.ValidFrom();
      var reloaded := FindOne(w.id, Some(clientId));
      r := Ok(reloaded.value);
    }

    /** remove: fails without a client id and fails when the warehouse is not
        the client's; otherwise deletes it, and the store's cascade deletes
        its exclusions with it. */
    method Remove(id: int, clientId: int) returns (r: Result<()>)
      requires db.Valid()
      modifies db`warehouses, db`exclusions
      ensures db.Valid()
      ensures !Truthy(clientId) ==>
        && r == Err(ClientIdRequired("remove a warehouse"))
        && db.warehouses == old(db.warehouses) && db.exclusions == old(db.exclusions)
      ensures Truthy(clientId) && old(FindOne(id, Some(clientId))).None? ==>
        && r == Err(WarehouseNotOwned)
        && db.warehouses == old(db.warehouses) && db.exclusions == old(db.exclusions)
      ensures Truthy(clientId) && old(FindOne(id, Some(clientId))).Some? ==>
        && r == Ok(())
        && (forall w :: w in db.warehouses <==> w in old(db.warehouses) && w.id != id)
        && (forall e :: e in db.exclusions <==> e in old(db.exclusions) && e.warehouseId != id)
    {
      if !Truthy(clientId) {
        return Err(ClientIdRequired("remove a warehouse"));
      }
      var existing := FindOne(id, Some(clientId));
      if existing.None? {
        return Err(WarehouseNotOwned);
      }
      ghost var before := db.warehouses;
      FilterKeepsIdsValid(db.warehouses, WarehouseId, db.nextWarehouseId, NotId(id));
      FilterKeepsIdsValid(db.exclusions, ExclusionId, db.nextExclusionId, NotOfWarehouse(id));
      db.warehouses := Filter(db.warehouses, NotId(id));
      db.exclusions := Filter(db.exclusions, NotOfWarehouse(id));
      forall e | e in db.exclusions ensures WarehouseExists(db.warehouses, e.warehouseId) {
        var w :| w in before && w.id == e.warehouseId;
        assert w in db.warehouses;
      }
      r := Ok(());
    }
  }

  /** What update does to a consistent store once the checks have passed:
      the store stays consistent, and reading the row back in the client's
      scope finds it as patched. */
  lemma UpdateSound(locations: seq<Location>, rows: seq<Warehouse>, exclusions: seq<Exclusion>,
                    nl: int, nw: int, ne: int, row: Warehouse, clientId: int, patch: WarehousePatch)
    requires Consistent(locations, rows, exclusions, nl, nw, ne)
    requires row in rows && LocationOwned(locations, row.locationId, clientId)
    requires !RelocationRefused(locations, row, patch, clientId)
    requires patch.locationId != Set(0)
    ensures var after := UpdateWhere(rows, HasId(row.id), patch.ApplyTo);
      && Consistent(locations, after, exclusions, nl, nw, ne)
      && LocationOwned(locations, patch.ApplyTo(row).locationId, clientId)
      && Find(after, IdVisible(locations, row.id, Some(clientId))) == Some(patch.ApplyTo(row))
  {
    var id := row.id;
    var after := UpdateWhere(rows, HasId(id), patch.ApplyTo);
    UpdateKeepsIdsValid(rows, WarehouseId, nw, HasId(id), patch.ApplyTo);
    UpdateKeepsWarehouseIds(rows, HasId(id), patch.ApplyTo);
    forall w | w in after ensures LocationExists(locations, w.locationId) {
      var i :| 0 <= i < |after| && after[i] == w;
      assert rows[i] in rows;
    }
    var k :| 0 <= k < |rows| && rows[k] == row;
    FindAfterUpdate(rows, WarehouseId, nw, k, HasId(id), patch.ApplyTo, IdVisible(locations, id, Some(clientId)));
  }

  /** Once the ownership check has passed, the location a patch names
      exists exactly when it is not 0: 0 is the one falsy id that skips the
      check, and no row has it. */
  lemma RelocationTarget(locations: seq<Location>, next: int, row: Warehouse, patch: WarehousePatch, clientId: int)
    requires IdsValid(locations, LocationId, next)
    requires LocationOwned(locations, row.locationId, clientId)
    requires !RelocationRefused(locations, row, patch, clientId)
    ensures patch.locationId.Set? ==> (LocationExists(locations, patch.locationId.value) <==> patch.locationId.value != 0)
  {
    if patch.locationId.Set? && LocationExists(locations, patch.locationId.value) {
      var l :| l in locations && l.id == patch.locationId.value;
      var i :| 0 <= i < |locations| && locations[i] == l;
      assert 1 <= LocationId(locations[i]);
    }
  }
}
