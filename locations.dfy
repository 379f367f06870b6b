/** LocationsService (backend/src/locations/locations.service.ts): the
    locations table, each row owned by one client. */
module Locations {
  import opened Common
  import opened Tables
  import opened Store

  /** The body handed to create: a name, and a clientId that create
      overrides with its own argument. */
  datatype LocationData = LocationData(name: string, clientId: Option<int>)

  /** The body handed to update: each column is either left out or given. */
  datatype LocationPatch = LocationPatch(name: Patch<string>, clientId: Patch<int>)
  {
    /** The row after `repository.update(criteria, patch)`. */
    function ApplyTo(l: Location): (r: Location)
      ensures r.id == l.id
    {
      Location(l.id, name.ApplyTo(l.name), clientId.ApplyTo(l.clientId))
    }
  }

  /** The `where` of findAll and findOne: no client condition when the
      client is null or undefined, otherwise `clientId = c`. */
  predicate InScope(l: Location, clientId: Option<int>)
  {
    clientId.None? || l.clientId == clientId.value
  }

  function Visible(clientId: Option<int>): Location -> bool
  {
    (l: Location) => InScope(l, clientId)
  }

  /** `{ id, clientId }`: the criteria of findOne, update and delete. */
  function IdVisible(id: int, clientId: Option<int>): Location -> bool
  {
    (l: Location) => l.id == id && InScope(l, clientId)
  }

  /** The rows a delete with criteria `{ id, clientId }` leaves. */
  function Outside(id: int, clientId: int): Location -> bool
  {
    (l: Location) => !(l.id == id && l.clientId == clientId)
  }

  /** Some warehouse sits in the location with that id. */
  predicate Referenced(warehouses: seq<Warehouse>, locationId: int)
  {
    exists w :: w in warehouses && w.locationId == locationId
  }

  class LocationsService {
    const db: Database

    constructor (db: Database)
      ensures this.db == db
    {
      this.db := db;
    }

    /** findAll: every location when no client is given, otherwise exactly
        that client's. */
    function FindAll(clientId: Option<int>): (r: seq<Location>)
      reads db
      ensures forall l :: l in r <==> l in db.locations && InScope(l, clientId)
      ensures clientId.None? ==> r == db.locations
    {
      Filter(db.locations, Visible(clientId))
    }

    /** findOne: the location with that id, provided it is in the client's
        scope. */
    function FindOne(id: int, clientId: Option<int>): (r: Option<Location>)
      reads db
      ensures r.Some? ==> r.value in db.locations && r.value.id == id && InScope(r.value, clientId)
      ensures r.None? <==> forall l :: l in db.locations ==> !(l.id == id && InScope(l, clientId))
    {
      Find(db.locations, IdVisible(id, clientId))
    }

    /** create: fails without a client id; otherwise appends a location owned
        by the argument's client, whatever clientId the body holds. */
    method Create(data: LocationData, clientId: int) returns (r: Result<Location>)
      requires db.Valid()
      modifies db`locations, db`nextLocationId
      ensures db.Valid()
      ensures !Truthy(clientId) ==>
        && r == Err(ClientIdRequired("create a location"))
        && db.locations == old(db.locations) && db.nextLocationId == old(db.nextLocationId)
      ensures Truthy(clientId) ==>
        && r == Ok(Location(old(db.nextLocationId), data.name, clientId))
        && db.locations == old(db.locations) + [r.value]
        && db.nextLocationId == old(db.nextLocationId) + 1
        && r.value in FindAll(Some(clientId))
    {
      if !Truthy(clientId) {
        return Err(ClientIdRequired("create a location"));
      }
      var row := Location(db.nextLocationId, data.name, clientId);
      ghost var before := db.locations;
      AppendKeepsIdsValid(db.locations, LocationId, db.nextLocationId, row);
      db.locations := db.locations + [row];
      db.nextLocationId := db.nextLocationId + 1;
      forall w | w in db.warehouses ensures LocationExists(db.locations, w.locationId) {
        var l :| l in before && l.id == w.locationId;
        assert l in db.locations;
      }
      r := Ok(row);
    }

    /** update: fails without a client id; otherwise rewrites the location
        only when it is the client's, then reads it back in the client's
        scope, which fails when there was no such location or when the
        patch gave it to another client. */
    method Update(id: int, patch: LocationPatch, clientId: int) returns (r: Result<Location>)
      requires db.Valid()
      modifies db`locations
      ensures db.Valid()
      ensures !Truthy(clientId) ==>
        r == Err(ClientIdRequired("update a location")) && db.locations == old(db.locations)
      ensures Truthy(clientId) && old(FindOne(id, Some(clientId))).None? ==>
        r == Err(LocationNotFound) && db.locations == old(db.locations)
      ensures Truthy(clientId) && old(FindOne(id, Some(clientId))).Some? ==>
        var updated := patch.ApplyTo(old(FindOne(id, Some(clientId))).value);
        && db.locations == UpdateWhere(old(db.locations), IdVisible(id, Some(clientId)), patch.ApplyTo)
        && r == if updated.clientId == clientId then Ok(updated) else Err(LocationNotFound)
    {
      if !Truthy(clientId) {
        return Err(ClientIdRequired("update a location"));
      }
      ghost var existing := FindOne(id, Some(clientId));
      if existing.Some? {
        UpdateSound(db.locations, db.warehouses, db.exclusions, db.nextLocationId, db.nextWarehouseId,
                    db.nextExclusionId, existing.value, patch);
      } else {
        forall i | 0 <= i < |db.locations| ensures !IdVisible(id, Some(clientId))(db.locations[i]) {
          assert db.locations[i] in db.locations;
        }
      }
      db.locations := UpdateWhere(db.locations, IdVisible(id, Some(clientId)), patch.ApplyTo);
      assert db.Valid();
      var reloaded := FindOne(id, Some(clientId));
      if reloaded.None? {
        return Err(LocationNotFound);
      }
      r := Ok(reloaded.value);
    }

    /** remove: fails without a client id; the store refuses to delete a
        location of the client that a warehouse still sits in; otherwise
        deletes the location when it is the client's and silently does
        nothing when it is not. */
    method Remove(id: int, clientId: int) returns (r: Result<()>)
      requires db.Valid()
      modifies db`locations
      ensures db.Valid()
      ensures !Truthy(clientId) ==>
        r == Err(ClientIdRequired("remove a location")) && db.locations == old(db.locations)
      ensures Truthy(clientId) && old(LocationOwned(db.locations, id, clientId)) && Referenced(db.warehouses, id) ==>
        r == Err(ForeignKeyViolation) && db.locations == old(db.locations)
      ensures Truthy(clientId) && !old(LocationOwned(db.locations, id, clientId)) ==>
        r == Ok(()) && db.locations == old(db.locations)
      ensures Truthy(clientId) && !Referenced(db.warehouses, id) ==>
        && r == Ok(())
        && forall l :: l in db.locations <==> l in old(db.locations) && !(l.id == id && l.clientId == clientId)
    {
      if !Truthy(clientId) {
        return Err(ClientIdRequired("remove a location"));
      }
      if LocationOwned(db.locations, id, clientId) && Referenced(db.warehouses, id) {
        return Err(ForeignKeyViolation);
      }
      ghost var before := db.locations;
      FilterKeepsIdsValid(db.locations, LocationId, db.nextLocationId, Outside(id, clientId));
      db.locations := Filter(db.locations, Outside(id, clientId));
      forall w | w in db.warehouses ensures LocationExists(db.locations, w.locationId) {
        var l :| l in before && l.id == w.locationId;
        assert l in db.locations;
      }
      r := Ok(());
    }
  }

  /** What update does to a consistent store when the client owns the row:
      the store stays consistent (ids are untouched, so every warehouse's
      location still exists), and reading the row back in the client's
      scope finds it exactly when the patch left it with that client. */
  lemma UpdateSound(rows: seq<Location>, warehouses: seq<Warehouse>, exclusions: seq<Exclusion>,
                    nl: int, nw: int, ne: int, row: Location, patch: LocationPatch)
    requires Consistent(rows, warehouses, exclusions, nl, nw, ne)
    requires row in rows
    ensures var after := UpdateWhere(rows, IdVisible(row.id, Some(row.clientId)), patch.ApplyTo);
      var updated := patch.ApplyTo(row);
      && Consistent(after, warehouses, exclusions, nl, nw, ne)
      && Find(after, IdVisible(row.id, Some(row.clientId)))
           == if updated.clientId == row.clientId then Some(updated) else None
  {
    var p := IdVisible(row.id, Some(row.clientId));
    UpdateKeepsIdsValid(rows, LocationId, nl, p, patch.ApplyTo);
    UpdateKeepsLocationIds(rows, p, patch.ApplyTo);
    var k :| 0 <= k < |rows| && rows[k] == row;
    FindAfterUpdate(rows, LocationId, nl, k, p, patch.ApplyTo, p);
  }
}
