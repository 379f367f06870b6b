/** PermissionsService.syncFromRoutes
    (backend/src/permissions/permissions.service.ts): reconciles the
    permissions table with the route table, one upsert by name per route,
    then the removal of every permission no route names. */
module Permissions {
  import opened Common
  import opened Tables
  import opened Store
  import opened RouteScanner

  /** A row of the permissions table; `name` carries a unique constraint. */
  datatype Permission = Permission(id: int, name: string, resource: string, description: Option<string>)

  function PermissionId(p: Permission): int
  {
    p.id
  }

  /** The description sync writes: the method, a space, the path. */
  function Description(r: RouteInfo): string
  {
    r.httpMethod + " " + r.path
  }

  /** The permission holds what sync writes for route `r`. */
  predicate Describes(p: Permission, r: RouteInfo)
  {
    p.name == r.action && p.resource == r.resource && p.description == Some(Description(r))
  }

  /** An existing permission after sync assigns the route's resource and
      description to it: its id and name stay. */
  function Refreshed(p: Permission, r: RouteInfo): (q: Permission)
    requires p.name == r.action
    ensures q.id == p.id && Describes(q, r)
  {
    p.(resource := r.resource, description := Some(Description(r)))
  }

  /** `WHERE name = n` */
  function HasName(name: string): Permission -> bool
  {
    (p: Permission) => p.name == name
  }

  /** `WHERE id = i` */
  function HasId(id: int): Permission -> bool
  {
    (p: Permission) => p.id == id
  }

  /** What `save` writes over the row it matches by id. */
  function Replace(q: Permission): Permission -> Permission
  {
    (p: Permission) => q
  }

  /** A permission some route still names. */
  function Routed(actions: set<string>): Permission -> bool
  {
    (p: Permission) => p.name in actions
  }

  /** A permission no route names any more. */
  function Orphan(actions: set<string>): Permission -> bool
  {
    (p: Permission) => p.name !in actions
  }

  ghost predicate UniqueNames(t: seq<Permission>)
  {
    Pairwise(t, (a: Permission, b: Permission) => a.name != b.name)
  }

  function Names(t: seq<Permission>): set<string>
  {
    set p | p in t :: p.name
  }

  /** The set of route actions sync keeps permissions for. */
  function Actions(routes: seq<RouteInfo>): set<string>
  {
    set r | r in routes :: r.action
  }

  /** The table, its id counter, and the permissions saved so far. */
  datatype SyncState = SyncState(table: seq<Permission>, nextId: int, saved: seq<Permission>)

  ghost predicate Inv(s: SyncState)
  {
    IdsValid(s.table, PermissionId, s.nextId) && UniqueNames(s.table)
  }

  /** The permission one route's upsert saves: the existing one of that
      name, refreshed, or a new one with the next id. */
  function Upserted(t: seq<Permission>, nextId: int, r: RouteInfo): (q: Permission)
    ensures Describes(q, r)
  {
    match Find(t, HasName(r.action))
    case Some(p) => Refreshed(p, r)
    case None => Permission(nextId, r.action, r.resource, Some(Description(r)))
  }

  /** One pass of the loop: find the permission by name, then save it,
      in place when it existed and appended otherwise. */
  function Upsert(s: SyncState, r: RouteInfo): SyncState
  {
    var q := Upserted(s.table, s.nextId, r);
    match Find(s.table, HasName(r.action))
    case Some(p) => SyncState(UpdateWhere(s.table, HasId(p.id), Replace(q)), s.nextId, s.saved + [q])
    case None => SyncState(s.table + [q], s.nextId + 1, s.saved + [q])
  }

  /** The upsert loop over a list of routes, in order. */
  function UpsertAll(s: SyncState, routes: seq<RouteInfo>): SyncState
    decreases |routes|
  {
    if routes == [] then s
    else Upsert(UpsertAll(s, routes[..|routes| - 1]), routes[|routes| - 1])
  }

  /** The removal of orphans: only the permissions some route names stay. */
  function Prune(t: seq<Permission>, routes: seq<RouteInfo>): seq<Permission>
  {
    Filter(t, Routed(Actions(routes)))
  }

  /** The whole of syncFromRoutes: the upsert loop, then the removal of
      orphans; `saved` is the list it returns. */
  function Synced(t: seq<Permission>, nextId: int, routes: seq<RouteInfo>): SyncState
  {
    var s := UpsertAll(SyncState(t, nextId, []), routes);
    s.(table := Prune(s.table, routes))
  }

  /** The last route of the list with that action: the one whose resource
      and description the permission ends up with. */
  function Last(routes: seq<RouteInfo>, action: string): (r: Option<RouteInfo>)
    ensures r.Some? ==> r.value in routes && r.value.action == action
    ensures r.None? <==> action !in Actions(routes)
    decreases |routes|
  {
    if routes == [] then None
    else if routes[|routes| - 1].action == action then Some(routes[|routes| - 1])
    else
      var rest := Last(routes[..|routes| - 1], action);
      assert forall x :: x in routes && x.action == action ==> x in routes[..|routes| - 1] by {
        assert routes == routes[..|routes| - 1] + [routes[|routes| - 1]];
      }
      rest
  }

  class PermissionsService {
    var table: seq<Permission>
    var nextId: int

    ghost predicate Valid()
      reads this
    {
      Inv(SyncState(table, nextId, []))
    }

    /** The service attaches to the permissions table as it stands: any
        rows with unique ids and names, and the counter the next insert
        takes its id from. */
    constructor (table: seq<Permission>, nextId: int)
      requires Inv(SyncState(table, nextId, []))
      ensures Valid() && this.table == table && this.nextId == nextId
    {
      this.table := table;
      this.nextId := nextId;
    }

    /** `findOne({ where: { name } })` */
    function FindByName(name: string): (r: Option<Permission>)
      reads this
      ensures r.Some? ==> r.value in table && r.value.name == name
      ensures r.None? <==> name !in Names(table)
    {
      Find(table, HasName(name))
    }

    /** syncFromRoutes, over the route table it is given: upserts one
        permission per route, in order, then removes the orphans, and
        returns the permissions it saved. */
    method SyncFromRoutes(routes: seq<RouteInfo>) returns (saved: seq<Permission>)
      requires Valid()
      modifies this
      ensures Valid()
      ensures var s := Synced(old(table), old(nextId), routes);
        table == s.table && nextId == s.nextId && saved == s.saved
    {
      saved := UpsertRoutes(routes);
      var routeActions := Actions(routes);
      var orphaned := Filter(table, Orphan(routeActions));
      PruneValid(SyncState(table, nextId, saved), routes);
      if |orphaned| > 0 {
        table := Filter(table, Routed(routeActions));
      } else {
        assert forall p :: p in table ==> Routed(routeActions)(p);
      }
    }

    /** The upsert loop of syncFromRoutes: one save per route, in order. */
    method UpsertRoutes(routes: seq<RouteInfo>) returns (saved: seq<Permission>)
      requires Valid()
      modifies this
      ensures Valid()
      ensures SyncState(table, nextId, saved) == UpsertAll(SyncState(old(table), old(nextId), []), routes)
    {
      ghost var start := SyncState(table, nextId, []);
      saved := [];
      var i := 0;
      while i < |routes|
        invariant 0 <= i <= |routes|
        invariant SyncState(table, nextId, saved) == UpsertAll(start, routes[..i])
        invariant Valid()
      {
        var permission := UpsertOne(routes[i], saved);
        saved := saved + [permission];
        assert routes[..i + 1][..i] == routes[..i];
        i := i + 1;
      }
      assert routes[..i] == routes;
    }

    /** One pass of the upsert loop: the permission named by the route's
        action is refreshed in place, or a new one is appended. */
    method UpsertOne(route: RouteInfo, ghost prior: seq<Permission>) returns (permission: Permission)
      requires Valid()
      modifies this
      ensures Valid()
      ensures SyncState(table, nextId, prior + [permission]) == Upsert(SyncState(old(table), old(nextId), prior), route)
    {
      ghost var after := Upsert(SyncState(table, nextId, prior), route);
      UpsertStep(SyncState(table, nextId, prior), route);
      var existing := FindByName(route.action);
      if existing.Some? {
        permission := Refreshed(existing.value, route);
        table := UpdateWhere(table, HasId(permission.id), Replace(permission));
      } else {
        permission := Permission(nextId, route.action, route.resource, Some(Description(route)));
        table := table + [permission];
        nextId := nextId + 1;
      }
      assert SyncState(table, nextId, prior + [permission]) == after;
    }
  }

  // ---------------------------------------------------------------------
  // One upsert
  // ---------------------------------------------------------------------

  /** With unique names, the row a lookup by name finds is the one row of
      that name. */
  lemma FoundByName(t: seq<Permission>, x: Permission)
    requires UniqueNames(t) && x in t
    ensures Find(t, HasName(x.name)) == Some(x)
  {
    var y := Find(t, HasName(x.name)).value;
    var i :| 0 <= i < |t| && t[i] == x;
    var j :| 0 <= j < |t| && t[j] == y;
    NamesAreKeys(t, i, j);
  }

  lemma NamesAreKeys(t: seq<Permission>, i: nat, j: nat)
    requires UniqueNames(t) && i < |t| && j < |t|
    ensures t[i].name == t[j].name ==> i == j
  {
    if i < j {
      assert t[i].name != t[j].name;
    } else if j < i {
      assert t[j].name != t[i].name;
    }
  }

  /** Saving over row k, by its id, replaces exactly that row. */
  lemma SaveOverRow(t: seq<Permission>, nextId: int, k: nat, q: Permission)
    requires IdsValid(t, PermissionId, nextId) && k < |t|
    ensures UpdateWhere(t, HasId(t[k].id), Replace(q)) == t[k := q]
  {
    IdsAreKeys(t, PermissionId, nextId, k);
  }

  /** Replacing row k by a row of the same id and name keeps the table
      valid, and only lookups of that name see a difference. */
  lemma ReplaceRow(t: seq<Permission>, nextId: int, k: nat, q: Permission)
    requires IdsValid(t, PermissionId, nextId) && UniqueNames(t) && k < |t|
    requires q.id == t[k].id && q.name == t[k].name
    ensures IdsValid(t[k := q], PermissionId, nextId) && UniqueNames(t[k := q])
    ensures Find(t[k := q], HasName(q.name)) == Some(q)
    ensures forall n :: n != q.name ==> Find(t[k := q], HasName(n)) == Find(t, HasName(n))
    ensures forall i :: 0 <= i < |t| ==> t[k := q][i].id == t[i].id && t[k := q][i].name == t[i].name
  {
    var u := t[k := q];
    ReplaceRowValid(t, nextId, k, q);
    assert u[k] == q;
    FoundByName(u, q);
    forall n | n != q.name ensures Find(u, HasName(n)) == Find(t, HasName(n)) {
      var f := Find(t, HasName(n));
      if f.Some? {
        var j :| 0 <= j < |t| && t[j] == f.value;
        assert u[j] == f.value;
        FoundByName(u, f.value);
      } else {
        forall x | x in u ensures x.name != n {
          var j :| 0 <= j < |u| && u[j] == x;
          if j != k {
            assert t[j] in t;
          }
        }
      }
    }
  }

  lemma ReplaceRowValid(t: seq<Permission>, nextId: int, k: nat, q: Permission)
    requires IdsValid(t, PermissionId, nextId) && UniqueNames(t) && k < |t|
    requires q.id == t[k].id && q.name == t[k].name
    ensures IdsValid(t[k := q], PermissionId, nextId) && UniqueNames(t[k := q])
    ensures forall i :: 0 <= i < |t| ==> t[k := q][i].id == t[i].id && t[k := q][i].name == t[i].name
  {
    var u := t[k := q];
    forall i | 0 <= i < |t| ensures u[i].id == t[i].id && u[i].name == t[i].name {
    }
    forall i, j | 0 <= i < j < |u| ensures u[i].id < u[j].id && u[i].name != u[j].name {
      assert t[i].id < t[j].id && t[i].name != t[j].name;
    }
  }

  /** Appending a row of a new name and the next id keeps the table valid,
      and only lookups of that name see a difference. */
  lemma AppendRow(t: seq<Permission>, nextId: int, q: Permission)
    requires IdsValid(t, PermissionId, nextId) && UniqueNames(t)
    requires q.id == nextId && q.name !in Names(t)
    ensures IdsValid(t + [q], PermissionId, nextId + 1) && UniqueNames(t + [q])
    ensures Find(t + [q], HasName(q.name)) == Some(q)
    ensures forall n :: n != q.name ==> Find(t + [q], HasName(n)) == Find(t, HasName(n))
  {
    var u := t + [q];
    AppendKeepsIdsValid(t, PermissionId, nextId, q);
    forall i, j | 0 <= i < j < |u| ensures u[i].name != u[j].name {
      assert u[i] == t[i] && t[i] in t;
      if j < |t| {
        assert u[j] == t[j];
      }
    }
    assert u[|t|] == q;
    FoundByName(u, q);
    forall n | n != q.name ensures Find(u, HasName(n)) == Find(t, HasName(n)) {
      var f := Find(t, HasName(n));
      if f.Some? {
        FoundByName(u, f.value);
      } else {
        forall x | x in u ensures x.name != n {
          var j :| 0 <= j < |u| && u[j] == x;
          if j < |t| {
            assert t[j] in t;
          }
        }
      }
    }
  }

  /** One upsert keeps the table valid, saves a permission that holds the
      route's fields under its action's name and the id of the existing
      permission of that name if there was one, and leaves every other
      name's permission as it was. */
  lemma UpsertStep(s: SyncState, r: RouteInfo)
    requires Inv(s)
    ensures var u := Upsert(s, r); var q := Upserted(s.table, s.nextId, r);
      && Inv(u)
      && u.saved == s.saved + [q]
      && Find(u.table, HasName(r.action)) == Some(q)
      && (forall n :: n != r.action ==> Find(u.table, HasName(n)) == Find(s.table, HasName(n)))
      && (r.action in Names(s.table) ==>
            && q.id == Find(s.table, HasName(r.action)).value.id
            && u.nextId == s.nextId && |u.table| == |s.table|
            && forall i :: 0 <= i < |s.table| ==> u.table[i].id == s.table[i].id && u.table[i].name == s.table[i].name)
  {
    var f := Find(s.table, HasName(r.action));
    if f.Some? {
      var k :| 0 <= k < |s.table| && s.table[k] == f.value;
      UpsertExisting(s, r, k);
      ReplaceRow(s.table, s.nextId, k, Refreshed(s.table[k], r));
    } else {
      UpsertNew(s, r);
      AppendRow(s.table, s.nextId, Upserted(s.table, s.nextId, r));
    }
  }

  /** The upsert of a route whose name has a permission, at row k. */
  lemma UpsertExisting(s: SyncState, r: RouteInfo, k: nat)
    requires Inv(s) && k < |s.table| && s.table[k].name == r.action
    ensures var q := Refreshed(s.table[k], r);
      && Upserted(s.table, s.nextId, r) == q
      && Upsert(s, r) == SyncState(s.table[k := q], s.nextId, s.saved + [q])
  {
    FoundByName(s.table, s.table[k]);
    SaveOverRow(s.table, s.nextId, k, Refreshed(s.table[k], r));
  }

  /** The upsert of a route whose name has no permission yet. */
  lemma UpsertNew(s: SyncState, r: RouteInfo)
    requires r.action !in Names(s.table)
    ensures var q := Permission(s.nextId, r.action, r.resource, Some(Description(r)));
      && Upserted(s.table, s.nextId, r) == q
      && Upsert(s, r) == SyncState(s.table + [q], s.nextId + 1, s.saved + [q])
  {
  }

  // ---------------------------------------------------------------------
  // The upsert loop
  // ---------------------------------------------------------------------

  lemma {:induction false} UpsertAllInv(s: SyncState, routes: seq<RouteInfo>)
    requires Inv(s)
    ensures Inv(UpsertAll(s, routes))
    decreases |routes|
  {
    if routes != [] {
      UpsertAllInv(s, routes[..|routes| - 1]);
      UpsertStep(UpsertAll(s, routes[..|routes| - 1]), routes[|routes| - 1]);
    }
  }

  /** The loop saves one permission per route, in route order, each
      holding that route's name, resource and description. */
  lemma {:induction false} UpsertAllSaved(s: SyncState, routes: seq<RouteInfo>)
    ensures var u := UpsertAll(s, routes);
      && |u.saved| == |s.saved| + |routes|
      && u.saved[..|s.saved|] == s.saved
      && forall i :: 0 <= i < |routes| ==> Describes(u.saved[|s.saved| + i], routes[i])
    decreases |routes|
  {
    if routes != [] {
      var pre := routes[..|routes| - 1];
      UpsertAllSaved(s, pre);
      var v := UpsertAll(s, pre);
      var u := Upsert(v, routes[|routes| - 1]);
      assert u.saved == v.saved + [Upserted(v.table, v.nextId, routes[|routes| - 1])];
      forall i | 0 <= i < |routes| ensures Describes(u.saved[|s.saved| + i], routes[i]) {
        if i < |pre| {
          assert u.saved[|s.saved| + i] == v.saved[|s.saved| + i];
          assert routes[i] == pre[i];
        }
      }
    }
  }

  /** After the loop, the permission of a name that some route carries
      holds the fields of the last such route, under the id it had when it
      already existed; the permission of any other name is untouched. */
  lemma {:induction false} UpsertAllRows(s: SyncState, routes: seq<RouteInfo>, n: string)
    requires Inv(s)
    ensures var f := Find(UpsertAll(s, routes).table, HasName(n)); var f0 := Find(s.table, HasName(n));
      && (Last(routes, n).None? ==> f == f0)
      && (Last(routes, n).Some? ==>
            && f.Some? && Describes(f.value, Last(routes, n).value)
            && (f0.Some? ==> f.value.id == f0.value.id))
    decreases |routes|
  {
    if routes != [] {
      var pre := routes[..|routes| - 1];
      var r := routes[|routes| - 1];
      UpsertAllRows(s, pre, n);
      UpsertAllInv(s, pre);
      var v := UpsertAll(s, pre);
      UpsertStep(v, r);
      if n == r.action {
        var f0 := Find(s.table, HasName(n));
        if f0.Some? {
          assert r.action in Names(v.table);
        }
      }
    }
  }

  /** When every route's name already has a permission, the loop adds no
      row and rewrites every row in place. */
  lemma {:induction false} UpsertAllInPlace(s: SyncState, routes: seq<RouteInfo>)
    requires Inv(s)
    requires Actions(routes) <= Names(s.table)
    ensures var u := UpsertAll(s, routes);
      && u.nextId == s.nextId && |u.table| == |s.table|
      && forall i :: 0 <= i < |s.table| ==> u.table[i].id == s.table[i].id && u.table[i].name == s.table[i].name
    decreases |routes|
  {
    if routes != [] {
      var pre := routes[..|routes| - 1];
      var r := routes[|routes| - 1];
      assert Actions(pre) <= Actions(routes);
      UpsertAllInPlace(s, pre);
      UpsertAllInv(s, pre);
      var v := UpsertAll(s, pre);
      assert r.action in Names(v.table) by {
        assert r in routes;
        assert r.action in Actions(routes);
        assert r.action in Names(s.table);
        var p :| p in s.table && p.name == r.action;
        var j :| 0 <= j < |s.table| && s.table[j] == p;
        assert v.table[j] in v.table;
      }
      UpsertStep(v, r);
    }
  }

  // ---------------------------------------------------------------------
  // The removal of orphans, and the whole sync
  // ---------------------------------------------------------------------

  lemma PruneValid(s: SyncState, routes: seq<RouteInfo>)
    requires Inv(s)
    ensures Inv(s.(table := Prune(s.table, routes)))
  {
    FilterKeepsIdsValid(s.table, PermissionId, s.nextId, Routed(Actions(routes)));
    FilterPairwise(s.table, Routed(Actions(routes)), (a: Permission, b: Permission) => a.name != b.name);
  }

  lemma SyncedValid(t: seq<Permission>, nextId: int, routes: seq<RouteInfo>)
    requires Inv(SyncState(t, nextId, []))
    ensures Inv(Synced(t, nextId, routes))
  {
    UpsertAllInv(SyncState(t, nextId, []), routes);
    PruneValid(UpsertAll(SyncState(t, nextId, []), routes), routes);
  }

  /** After sync, a name has a permission exactly when some route carries
      it; that permission holds the fields of the last route with that
      name, and keeps its id when it existed before. */
  lemma SyncedRows(t: seq<Permission>, nextId: int, routes: seq<RouteInfo>, n: string)
    requires Inv(SyncState(t, nextId, []))
    ensures var f := Find(Synced(t, nextId, routes).table, HasName(n));
      && (n !in Actions(routes) ==> f.None?)
      && (n in Actions(routes) ==>
            && f.Some? && Describes(f.value, Last(routes, n).value)
            && (Find(t, HasName(n)).Some? ==> f.value.id == Find(t, HasName(n)).value.id))
  {
    var s := SyncState(t, nextId, []);
    var u := UpsertAll(s, routes);
    UpsertAllRows(s, routes, n);
    UpsertAllInv(s, routes);
    var f := Find(u.table, HasName(n));
    if n in Actions(routes) {
      FoundByName(Prune(u.table, routes), f.value) by {
        PruneValid(u, routes);
      }
    }
  }

  /** After sync the permission names are exactly the route actions. */
  lemma SyncedNames(t: seq<Permission>, nextId: int, routes: seq<RouteInfo>)
    requires Inv(SyncState(t, nextId, []))
    ensures Names(Synced(t, nextId, routes).table) == Actions(routes)
  {
    var t' := Synced(t, nextId, routes).table;
    forall n ensures n in Names(t') <==> n in Actions(routes) {
      SyncedRows(t, nextId, routes, n);
    }
  }

  /** Sync updates a permission whose name some route carries in place:
      afterwards a permission of the same id and name holds the last such
      route's fields. Every other permission is gone. */
  lemma SyncedKeepsIdentity(t: seq<Permission>, nextId: int, routes: seq<RouteInfo>, p: Permission)
    requires Inv(SyncState(t, nextId, []))
    requires p in t
    ensures p.name in Actions(routes) ==>
      exists q :: q in Synced(t, nextId, routes).table && q.id == p.id && Describes(q, Last(routes, p.name).value)
    ensures p.name !in Actions(routes) ==>
      forall q :: q in Synced(t, nextId, routes).table ==> q.name != p.name
  {
    SyncedRows(t, nextId, routes, p.name);
    FoundByName(t, p);
    SyncedNames(t, nextId, routes);
  }

  /** Sync returns one saved permission per route, in route order, each
      holding that route's name, resource and description. */
  lemma SyncedSaved(t: seq<Permission>, nextId: int, routes: seq<RouteInfo>)
    ensures |Synced(t, nextId, routes).saved| == |routes|
    ensures forall i :: 0 <= i < |routes| ==> Describes(Synced(t, nextId, routes).saved[i], routes[i])
  {
    var u := UpsertAll(SyncState(t, nextId, []), routes);
    UpsertAllSaved(SyncState(t, nextId, []), routes);
    assert Synced(t, nextId, routes).saved == u.saved;
  }

  /** Syncing a second time with the same routes changes nothing: the
      same table, the same id counter. */
  lemma SyncIdempotent(t: seq<Permission>, nextId: int, routes: seq<RouteInfo>)
    requires Inv(SyncState(t, nextId, []))
    ensures var s1 := Synced(t, nextId, routes);
      var s2 := Synced(s1.table, s1.nextId, routes);
      s2.table == s1.table && s2.nextId == s1.nextId
  {
    var s1 := Synced(t, nextId, routes);
    var t1 := s1.table;
    SyncedValid(t, nextId, routes);
    SyncedNames(t, nextId, routes);
    var start := SyncState(t1, s1.nextId, []);
    UpsertAllInPlace(start, routes);
    UpsertAllInv(start, routes);
    var u := UpsertAll(start, routes).table;
    forall i | 0 <= i < |t1| ensures u[i] == t1[i] {
      var n := t1[i].name;
      assert n in Names(t1);
      SyncedRows(t, nextId, routes, n);
      FoundByName(t1, t1[i]);
      UpsertAllRows(start, routes, n);
      assert u[i] in u;
      FoundByName(u, u[i]);
    }
    assert u == t1;
    assert forall p :: p in u ==> Routed(Actions(routes))(p);
  }
}
