/** The rows of the location, warehouse and warehouse_exclusions tables and
    the relational store that holds them. Each table is kept in creation
    order (the `createdAt` order) with auto-increment ids. */
module Store {
  import opened Common
  import opened Tables

  /** One dimension of a warehouse's slot matrix: its `…Type` column
      ('numeric', 'alphabetic', or anything else the varchar holds) and
      its `…Count` column, both nullable. */
  datatype Dimension = Dimension(kind: Option<string>, count: Option<int>)

  datatype Location = Location(id: int, name: string, clientId: int)

  datatype Warehouse = Warehouse(
    id: int,
    name: string,
    locationId: int,
    aisle: Dimension,
    bay: Dimension,
    level: Dimension,
    bin: Dimension)

  /** The eight nullable range columns of an exclusion row. Nothing gives
      them a meaning the services check: they are stored as given. */
  datatype Ranges = Ranges(
    aisleFrom: Option<string>, aisleTo: Option<string>,
    bayFrom: Option<string>, bayTo: Option<string>,
    levelFrom: Option<string>, levelTo: Option<string>,
    binFrom: Option<string>, binTo: Option<string>)

  datatype Exclusion = Exclusion(id: int, warehouseId: int, ranges: Ranges)

  function LocationId(l: Location): int { l.id }
  function WarehouseId(w: Warehouse): int { w.id }
  function ExclusionId(e: Exclusion): int { e.id }

  predicate LocationExists(locations: seq<Location>, id: int)
  {
    exists l :: l in locations && l.id == id
  }

  predicate WarehouseExists(warehouses: seq<Warehouse>, id: int)
  {
    exists w :: w in warehouses && w.id == id
  }

  /** `findOne({ where: { id, clientId } })` on the locations table finds a row. */
  predicate LocationOwned(locations: seq<Location>, id: int, clientId: int)
  {
    exists l :: l in locations && l.id == id && l.clientId == clientId
  }

  /** Ids of a table: positive, below the next auto-increment value, and
      strictly increasing in creation order (so each id names one row). */
  ghost predicate IdsValid<T>(rows: seq<T>, id: T -> int, next: int)
  {
    && 1 <= next
    && (forall i :: 0 <= i < |rows| ==> 1 <= id(rows[i]) < next)
    && Pairwise(rows, (a, b) => id(a) < id(b))
  }

  /** Unique ids, and the two foreign keys: every warehouse's location
      exists, every exclusion's warehouse exists. */
  ghost predicate Consistent(locations: seq<Location>, warehouses: seq<Warehouse>, exclusions: seq<Exclusion>,
                             nextLocationId: int, nextWarehouseId: int, nextExclusionId: int)
  {
    && IdsValid(locations, LocationId, nextLocationId)
    && IdsValid(warehouses, WarehouseId, nextWarehouseId)
    && IdsValid(exclusions, ExclusionId, nextExclusionId)
    && (forall w :: w in warehouses ==> LocationExists(locations, w.locationId))
    && (forall e :: e in exclusions ==> WarehouseExists(warehouses, e.warehouseId))
  }

  class Database {
    var locations: seq<Location>
    var warehouses: seq<Warehouse>
    var exclusions: seq<Exclusion>
    var nextLocationId: int
    var nextWarehouseId: int
    var nextExclusionId: int

    ghost predicate Valid()
      reads this
    {
      Consistent(locations, warehouses, exclusions, nextLocationId, nextWarehouseId, nextExclusionId)
    }

    /** The store is valid when its tables are consistent. */
    lemma ValidFrom()
      requires Consistent(locations, warehouses, exclusions, nextLocationId, nextWarehouseId, nextExclusionId)
      ensures Valid()
    {
    }

    constructor ()
      ensures Valid()
      ensures locations == [] && warehouses == [] && exclusions == []
    {
      locations, warehouses, exclusions := [], [], [];
      nextLocationId, nextWarehouseId, nextExclusionId := 1, 1, 1;
    }
  }

  /** A row with a fresh id appended at the end keeps the ids valid. */
  lemma AppendKeepsIdsValid<T>(rows: seq<T>, id: T -> int, next: int, row: T)
    requires IdsValid(rows, id, next) && id(row) == next
    ensures IdsValid(rows + [row], id, next + 1)
  {
    var r := rows + [row];
    forall i, j | 0 <= i < j < |r| ensures id(r[i]) < id(r[j]) {
      assert r[i] == rows[i];
    }
  }

  /** Dropping rows keeps the ids valid. */
  lemma FilterKeepsIdsValid<T(!new)>(rows: seq<T>, id: T -> int, next: int, p: T -> bool)
    requires IdsValid(rows, id, next)
    ensures IdsValid(Filter(rows, p), id, next)
  {
    FilterPairwise(rows, p, (a, b) => id(a) < id(b));
  }

  /** Rewriting rows without touching their ids keeps the ids valid. */
  lemma UpdateKeepsIdsValid<T>(rows: seq<T>, id: T -> int, next: int, p: T -> bool, f: T -> T)
    requires IdsValid(rows, id, next)
    requires forall x :: id(f(x)) == id(x)
    ensures IdsValid(UpdateWhere(rows, p, f), id, next)
  {
    var r := UpdateWhere(rows, p, f);
    forall i, j | 0 <= i < j < |r| ensures id(r[i]) < id(r[j]) {
      assert id(r[i]) == id(rows[i]) && id(r[j]) == id(rows[j]);
    }
  }

  /** In a table with valid ids, the row at index k is the only row with its id. */
  lemma IdsAreKeys<T>(rows: seq<T>, id: T -> int, next: int, k: nat)
    requires IdsValid(rows, id, next)
    requires k < |rows|
    ensures forall i :: 0 <= i < |rows| && i != k ==> id(rows[i]) != id(rows[k])
  {
    forall i | 0 <= i < |rows| && i != k ensures id(rows[i]) != id(rows[k]) {
      if i < k {
        assert id(rows[i]) < id(rows[k]);
      } else {
        assert id(rows[k]) < id(rows[i]);
      }
    }
  }

  /** Reading back by key after an in-place update of the row with that key
      finds the row as updated, exactly when it still matches the read. */
  lemma FindAfterUpdate<T(!new)>(rows: seq<T>, id: T -> int, next: int, k: nat,
                                 p: T -> bool, f: T -> T, q: T -> bool)
    requires IdsValid(rows, id, next) && k < |rows|
    requires forall x :: p(x) ==> id(x) == id(rows[k])
    requires forall x :: q(x) ==> id(x) == id(rows[k])
    requires forall x :: id(f(x)) == id(x)
    ensures var u := if p(rows[k]) then f(rows[k]) else rows[k];
      Find(UpdateWhere(rows, p, f), q) == if q(u) then Some(u) else None
  {
    var after := UpdateWhere(rows, p, f);
    IdsAreKeys(rows, id, next, k);
    var found := Find(after, q);
    if found.Some? {
      var i :| 0 <= i < |after| && after[i] == found.value;
      assert id(after[i]) == id(rows[i]);
    } else {
      assert !q(after[k]);
    }
  }

  /** Rewriting locations without touching their ids keeps every id that
      a warehouse may point to. */
  lemma UpdateKeepsLocationIds(rows: seq<Location>, p: Location -> bool, f: Location -> Location)
    requires forall x :: f(x).id == x.id
    ensures forall i :: LocationExists(UpdateWhere(rows, p, f), i) <==> LocationExists(rows, i)
  {
    var after := UpdateWhere(rows, p, f);
    forall i ensures LocationExists(after, i) <==> LocationExists(rows, i) {
      if LocationExists(rows, i) {
        var l :| l in rows && l.id == i;
        var k :| 0 <= k < |rows| && rows[k] == l;
        assert after[k] in after;
      }
      if LocationExists(after, i) {
        var l :| l in after && l.id == i;
        var k :| 0 <= k < |after| && after[k] == l;
        assert rows[k] in rows;
      }
    }
  }

  /** Rewriting warehouses without touching their ids keeps every id that
      an exclusion may point to. */
  lemma UpdateKeepsWarehouseIds(rows: seq<Warehouse>, p: Warehouse -> bool, f: Warehouse -> Warehouse)
    requires forall x :: f(x).id == x.id
    ensures forall i :: WarehouseExists(UpdateWhere(rows, p, f), i) <==> WarehouseExists(rows, i)
  {
    var after := UpdateWhere(rows, p, f);
    forall i ensures WarehouseExists(after, i) <==> WarehouseExists(rows, i) {
      if WarehouseExists(rows, i) {
        var w :| w in rows && w.id == i;
        var k :| 0 <= k < |rows| && rows[k] == w;
        assert after[k] in after;
      }
      if WarehouseExists(after, i) {
        var w :| w in after && w.id == i;
        var k :| 0 <= k < |after| && after[k] == w;
        assert rows[k] in rows;
      }
    }
  }
}
