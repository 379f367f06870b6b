/** ExclusionsService (backend/src/warehouses/exclusions.service.ts): the
    warehouse_exclusions table, every lookup scoped by warehouseId, and the
    per-warehouse `possibleValues` record the exclusions route assembles. */
module Exclusions {
  import opened Common
  import opened Tables
  import opened Store
  import opened WarehouseUtils

  /** The body handed to create: the range columns, and a warehouseId that
      create overrides with its own argument. */
  datatype ExclusionData = ExclusionData(warehouseId: Option<int>, ranges: Ranges)

  /** The body handed to update: each column is either left out or given. */
  datatype ExclusionPatch = ExclusionPatch(
    warehouseId: Patch<int>,
    aisleFrom: Patch<Option<string>>, aisleTo: Patch<Option<string>>,
    bayFrom: Patch<Option<string>>, bayTo: Patch<Option<string>>,
    levelFrom: Patch<Option<string>>, levelTo: Patch<Option<string>>,
    binFrom: Patch<Option<string>>, binTo: Patch<Option<string>>)
  {
    /** The row after `repository.update(id, patch)`. */
    function ApplyTo(e: Exclusion): (r: Exclusion)
      ensures r.id == e.id
    {
      var g := e.ranges;
      Exclusion(e.id, warehouseId.ApplyTo(e.warehouseId),
        Ranges(aisleFrom.ApplyTo(g.aisleFrom), aisleTo.ApplyTo(g.aisleTo),
               bayFrom.ApplyTo(g.bayFrom), bayTo.ApplyTo(g.bayTo),
               levelFrom.ApplyTo(g.levelFrom), levelTo.ApplyTo(g.levelTo),
               binFrom.ApplyTo(g.binFrom), binTo.ApplyTo(g.binTo)))
    }
  }

  /** `WHERE warehouseId = w` */
  function InWarehouse(warehouseId: int): Exclusion -> bool
  {
    (e: Exclusion) => e.warehouseId == warehouseId
  }

  /** `WHERE id = i AND warehouseId = w` */
  function IdInWarehouse(id: int, warehouseId: int): Exclusion -> bool
  {
    (e: Exclusion) => e.id == id && e.warehouseId == warehouseId
  }

  /** `WHERE id = i` */
  function HasId(id: int): Exclusion -> bool
  {
    (e: Exclusion) => e.id == id
  }

  /** Every row but the one with id `i`. */
  function NotId(id: int): Exclusion -> bool
  {
    (e: Exclusion) => e.id != id
  }

  class ExclusionsService {
    const db: Database

    constructor (db: Database)
      ensures this.db == db
    {
      this.db := db;
    }

    /** findAllByWarehouse: exactly the rows of that warehouse, oldest first. */
    function FindAllByWarehouse(warehouseId: int): (r: seq<Exclusion>)
      requires db.Valid()
      reads db
      ensures forall e :: e in r <==> e in db.exclusions && e.warehouseId == warehouseId
      ensures forall i, j :: 0 <= i < j < |r| ==> r[i].id < r[j].id
    {
      FilterPairwise(db.exclusions, InWarehouse(warehouseId), (a: Exclusion, b: Exclusion) => ExclusionId(a) < ExclusionId(b));
      Filter(db.exclusions, InWarehouse(warehouseId))
    }

    /** findOne: a row only when both its id and its warehouse match. */
    function FindOne(id: int, warehouseId: int): (r: Option<Exclusion>)
      reads db
      ensures r.Some? ==> r.value in db.exclusions && r.value.id == id && r.value.warehouseId == warehouseId
      ensures r.None? <==> forall e :: e in db.exclusions ==> !(e.id == id && e.warehouseId == warehouseId)
    {
      Find(db.exclusions, IdInWarehouse(id, warehouseId))
    }

    /** create: fails with "Warehouse not found." and writes nothing when no
        warehouse has that id; otherwise appends one row holding the
        argument's warehouseId and the given range columns, whatever they
        are. */
    method Create(data: ExclusionData, warehouseId: int) returns (r: Result<Exclusion>)
      requires db.Valid()
      modifies db`exclusions, db`nextExclusionId
      ensures db.Valid()
      ensures r.Ok? <==> WarehouseExists(db.warehouses, warehouseId)
      ensures r.Err? ==> (
        && r.error == WarehouseNotFound
        && db.exclusions == old(db.exclusions)
        && db.nextExclusionId == old(db.nextExclusionId))
      ensures r.Ok? ==> (
        && r.value == Exclusion(old(db.nextExclusionId), warehouseId, data.ranges)
        && db.exclusions == old(db.exclusions) + [r.value]
        && db.nextExclusionId == old(db.nextExclusionId) + 1)
    {
      if !WarehouseExists(db.warehouses, warehouseId) {
        return Err(WarehouseNotFound);
      }
      var row := Exclusion(db.nextExclusionId, warehouseId, data.ranges);
      AppendKeepsIdsValid(db.exclusions, ExclusionId, db.nextExclusionId, row);
      db.exclusions := db.exclusions + [row];
      db.nextExclusionId := db.nextExclusionId + 1;
      r := Ok(row);
    }

    /** update: fails with no write when the exclusion is not in that
        warehouse, or when the patch names a warehouse that does not exist
        (the foreign key); otherwise rewrites only the row with that id, then
        reads it back within the warehouse, which fails when the patch moved
        it to another warehouse. No range column is checked. */
    method Update(id: int, patch: ExclusionPatch, warehouseId: int) returns (r: Result<Exclusion>)
      requires db.Valid()
      modifies db`exclusions
      ensures db.Valid()
      ensures old(FindOne(id, warehouseId)).None? ==>
        r == Err(ExclusionNotInWarehouse) && db.exclusions == old(db.exclusions)
      ensures (old(FindOne(id, warehouseId)).Some? && patch.warehouseId.Set? &&
               !WarehouseExists(db.warehouses, patch.warehouseId.value)) ==>
        r == Err(ForeignKeyViolation) && db.exclusions == old(db.exclusions)
      ensures (old(FindOne(id, warehouseId)).Some? &&
               (patch.warehouseId.Set? ==> WarehouseExists(db.warehouses, patch.warehouseId.value))) ==>
        && |db.exclusions| == |old(db.exclusions)|
        && (forall i :: 0 <= i < |db.exclusions| ==>
              db.exclusions[i] == if old(db.exclusions[i]).id == id then patch.ApplyTo(old(db.exclusions[i]))
                                  else old(db.exclusions[i]))
        && r == (var updated := patch.ApplyTo(old(FindOne(id, warehouseId)).value);
                 if updated.warehouseId == warehouseId then Ok(updated) else Err(ExclusionNotFoundAfterUpdate))
    {
      var existing := FindOne(id, warehouseId);
      if existing.None? {
        return Err(ExclusionNotInWarehouse);
      }
      if patch.warehouseId.Set? && !WarehouseExists(db.warehouses, patch.warehouseId.value) {
        return Err(ForeignKeyViolation);
      }
      r := Save(existing.value, patch, warehouseId);
    }

    /** The write of update once both checks have passed: the row is
        patched in place, then read back within the warehouse. */
    method Save(row: Exclusion, patch: ExclusionPatch, warehouseId: int) returns (r: Result<Exclusion>)
      requires db.Valid() && row in db.exclusions
      requires patch.warehouseId.Set? ==> WarehouseExists(db.warehouses, patch.warehouseId.value)
      modifies db`exclusions
      ensures db.Valid()
      ensures db.exclusions == UpdateWhere(old(db.exclusions), HasId(row.id), patch.ApplyTo)
      ensures r == if patch.ApplyTo(row).warehouseId == warehouseId then Ok(patch.ApplyTo(row))
                   else Err(ExclusionNotFoundAfterUpdate)
    {
      UpdateSound(db.exclusions, db.warehouses, db.nextExclusionId, row, warehouseId, patch);
      db.exclusions := UpdateWhere(db.exclusions, HasId(row.id), patch.ApplyTo);
      db.ValidFrom();
      var reloaded := FindOne(row.id, warehouseId);
      if reloaded.None? {
        return Err(ExclusionNotFoundAfterUpdate);
      }
      r := Ok(reloaded.value);
    }

    /** remove: fails with no deletion when the exclusion is not in that
        warehouse; otherwise deletes that one row and keeps every other. */
    method Remove(id: int, warehouseId: int) returns (r: Result<()>)
      requires db.Valid()
      modifies db`exclusions
      ensures db.Valid()
      ensures old(FindOne(id, warehouseId)).None? ==>
        r == Err(ExclusionNotInWarehouse) && db.exclusions == old(db.exclusions)
      ensures old(FindOne(id, warehouseId)).Some? ==>
        r == Ok(()) && forall e :: e in db.exclusions <==> e in old(db.exclusions) && e.id != id
    {
      var existing := FindOne(id, warehouseId);
      if existing.None? {
        return Err(ExclusionNotInWarehouse);
      }
      FilterKeepsIdsValid(db.exclusions, ExclusionId, db.nextExclusionId, NotId(id));
      db.exclusions := Filter(db.exclusions, NotId(id));
      r := Ok(());
    }
  }

  /** What an in-place update of the row `row` does to a valid table: the
      ids stay valid, every exclusion's warehouse still exists, only that
      row changes, and reading it back within `warehouseId` finds it
      exactly when the patch left it in that warehouse. */
  lemma UpdateSound(rows: seq<Exclusion>, warehouses: seq<Warehouse>, next: int, row: Exclusion,
                    warehouseId: int, patch: ExclusionPatch)
    requires IdsValid(rows, ExclusionId, next)
    requires forall e :: e in rows ==> WarehouseExists(warehouses, e.warehouseId)
    requires patch.warehouseId.Set? ==> WarehouseExists(warehouses, patch.warehouseId.value)
    requires row in rows
    ensures var after := UpdateWhere(rows, HasId(row.id), patch.ApplyTo);
      && IdsValid(after, ExclusionId, next)
      && (forall e :: e in after ==> WarehouseExists(warehouses, e.warehouseId))
      && Find(after, IdInWarehouse(row.id, warehouseId))
           == if patch.ApplyTo(row).warehouseId == warehouseId then Some(patch.ApplyTo(row)) else None
  {
    var id := row.id;
    var after := UpdateWhere(rows, HasId(id), patch.ApplyTo);
    UpdateKeepsIdsValid(rows, ExclusionId, next, HasId(id), patch.ApplyTo);
    forall e | e in after ensures WarehouseExists(warehouses, e.warehouseId) {
      var i :| 0 <= i < |after| && after[i] == e;
      assert rows[i] in rows;
    }
    var k :| 0 <= k < |rows| && rows[k] == row;
    FindAfterUpdate(rows, ExclusionId, next, k, HasId(id), patch.ApplyTo, IdInWarehouse(id, warehouseId));
  }

  // ---------------------------------------------------------------------
  // The possibleValues record of GET /warehouse/:warehouseId
  // ---------------------------------------------------------------------

  datatype PossibleValues = PossibleValues(aisle: seq<string>, bay: seq<string>, level: seq<string>, bin: seq<string>)

  /** One call of generatePossibleValues per dimension, each with that
      dimension's own type and count. */
  method PossibleValuesOf(w: Warehouse) returns (pv: PossibleValues)
    ensures pv.aisle == DimensionValues(w.aisle.kind, w.aisle.count)
    ensures pv.bay == DimensionValues(w.bay.kind, w.bay.count)
    ensures pv.level == DimensionValues(w.level.kind, w.level.count)
    ensures pv.bin == DimensionValues(w.bin.kind, w.bin.count)
  {
    var aisle := GeneratePossibleValues(w.aisle.kind, w.aisle.count);
    var bay := GeneratePossibleValues(w.bay.kind, w.bay.count);
    var level := GeneratePossibleValues(w.level.kind, w.level.count);
    var bin := GeneratePossibleValues(w.bin.kind, w.bin.count);
    pv := PossibleValues(aisle, bay, level, bin);
  }

  /** A warehouse with three numeric aisles, 26 alphabetic bins and no bay
      or level configuration offers aisles "1".."3", no bays or levels, and
      bins "A".."Z". */
  lemma PossibleValuesExample(w: Warehouse)
    requires w.aisle == Dimension(Some("numeric"), Some(3))
    requires w.bay == Dimension(None, None) && w.level == Dimension(None, None)
    requires w.bin == Dimension(Some("alphabetic"), Some(26))
    ensures DimensionValues(w.aisle.kind, w.aisle.count) == ["1", "2", "3"]
    ensures DimensionValues(w.bay.kind, w.bay.count) == []
    ensures DimensionValues(w.level.kind, w.level.count) == []
    ensures |DimensionValues(w.bin.kind, w.bin.count)| == 26
    ensures DimensionValues(w.bin.kind, w.bin.count)[0] == "A"
    ensures DimensionValues(w.bin.kind, w.bin.count)[25] == "Z"
  {
    AlphabeticExamples();
  }
}
