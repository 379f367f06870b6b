# Warehouse back office: storage coordinates, tenant-scoped tables, permissions and migrations

This project models the rule-carrying core of a multi-tenant warehouse back
office written in TypeScript (Express, TypeORM), and proves properties of
that model in Dafny. Each client (tenant) owns locations. Warehouses sit in
locations. Each warehouse defines a slot matrix of aisles, bays, levels and
bins, and keeps a list of exclusion rules over ranges of those coordinates.

The model covers:

- **Coordinate labels** (`warehouse_utils.dfy`, module `WarehouseUtils`).
  `generatePossibleValues` turns one dimension (numeric or alphabetic, with
  a count) into its ordered labels: `"1".."n"`, or the bijective base-26
  words `A..Z, AA, AB, …` that `numberToAlphabetic` produces. Both source
  loops are kept as Dafny loops, proved against the functions `DimensionValues`,
  `DecimalString` and `AlphaLabel`. Those functions have inverses
  (`DecimalValue`, `AlphaValue`), so labels are proved injective.
- **The relational store** (`store.dfy`, `tables.dfy`). The locations,
  warehouses and warehouse_exclusions tables are sequences in creation
  order, with auto-increment ids. They live in one `Database` object that
  the three services share. `Consistent` states that ids are unique keys
  and that both foreign keys hold: a warehouse's location exists, and an
  exclusion's warehouse exists. Deleting a warehouse cascades to its
  exclusions.
- **Three services over that store**, each a class whose methods change
  the tables in place: `Exclusions.ExclusionsService` (scoped by warehouse),
  `Warehouses.WarehousesService` (scoped by client through the warehouse's
  location) and `Locations.LocationsService` (scoped by client). Every
  mutating method keeps `Consistent`. An error raised before the write
  states that no table changed. The two read-back errors raised after an
  update (`ExclusionNotFoundAfterUpdate`, and `LocationNotFound` from
  `update`) state the table as written. Every success path states the new
  table exactly, for the request bodies the model's data records can
  express (see "## Left out" on a body carrying `id`).
- **Route naming** (`route_scanner.dfy`). This covers the classifier
  `extractResourceAndAction`, the `${resource}_${action}` permission name,
  and the constant route table of `getRoutesFromApp`.
- **Permission sync** (`permissions.dfy`). `syncFromRoutes` is a loop of
  upserts by name followed by the removal of orphans. The loop is proved
  against the function `Synced`. Afterwards the permission names are
  exactly the route actions, and existing permissions keep their ids. A
  second sync with the same routes changes nothing.
- **The migration runner** (`migrations.dfy`). It loads the registry in
  sorted name order, keeps the migrations not yet executed, and runs them
  in order. Each migration is recorded after its `up` completes, and the
  first failure stops the run.

Errors are values: each service method returns a `Result` whose `Err`
carries one constructor per distinct message the source throws. Nullable
columns and optional arguments are `Option`. A `Partial<Entity>` handed to
`repository.update` is a patch record of `Patch` fields (`Keep` or `Set`).
JavaScript truthiness of a numeric id is `Truthy`, which is false only for
0.

## Model

| member | source | states |
|---|---|---|
| WarehouseUtils.NumberToAlphabetic | backend/src/warehouses/warehouse-utils.ts:40-48 | the loop returns "" for n <= 0; for n >= 1 it returns `AlphaLabel(n)`, a non-empty word over 'A'..'Z' that decodes back to n |
| WarehouseUtils.AlphaLabelShape | backend/src/warehouses/warehouse-utils.ts:42-46 | every label is made of letters 'A'..'Z' (65 + d, 0 <= d < 26), and it is non-empty exactly for positive positions |
| WarehouseUtils.AlphaValueOfLabel | backend/src/warehouses/warehouse-utils.ts:42-47 | decoding the label of n, each letter read as digit d + 1 in base 26, gives back n |
| WarehouseUtils.LabelOfAlphaValue | backend/src/warehouses/warehouse-utils.ts:42-47 | every word over 'A'..'Z' is the label of the position it decodes to, so labels and positions are in bijection |
| WarehouseUtils.AlphaLabelInjective | backend/src/warehouses/warehouse-utils.ts:42-47 | two positions have the same label if and only if they are equal |
| WarehouseUtils.AlphaLabelExamples | backend/src/warehouses/warehouse-utils.ts:26 | 1→A, 2→B, 26→Z, 27→AA, 28→AB, 52→AZ, 53→BA, 702→ZZ, 703→AAA |
| WarehouseUtils.DecimalRoundTrip | backend/src/warehouses/warehouse-utils.ts:23 | `toString` of n >= 0 is a non-empty digit string with no leading zero unless n is 0, and it reads back as n |
| WarehouseUtils.DecimalStringInjective | backend/src/warehouses/warehouse-utils.ts:23 | two numbers have the same decimal string if and only if they are equal |
| WarehouseUtils.GeneratePossibleValues | backend/src/warehouses/warehouse-utils.ts:11-35 | the two loops return exactly `DimensionValues(type, count)`, whose properties the lemmas below state |
| WarehouseUtils.DimensionValuesLength | backend/src/warehouses/warehouse-utils.ts:15-34 | the list is empty if and only if type or count is missing, count <= 0, or type is neither "numeric" nor "alphabetic"; otherwise it has exactly `count` labels |
| WarehouseUtils.NumericValuesAt | backend/src/warehouses/warehouse-utils.ts:21-24 | element i of a numeric dimension is the unpadded decimal string of i + 1, and it reads back as i + 1 |
| WarehouseUtils.AlphabeticValuesAt | backend/src/warehouses/warehouse-utils.ts:25-32 | element i of an alphabetic dimension is `numberToAlphabetic(i + 1)`: a non-empty word over 'A'..'Z' that decodes to i + 1 |
| WarehouseUtils.DimensionValuesDistinct | backend/src/warehouses/warehouse-utils.ts:21-32 | no label occurs twice in a dimension's list |
| WarehouseUtils.AlphabeticExamples | backend/src/warehouses/warehouse-utils.ts:21-32 | one alphabetic label is ["A"]; the 26th is "Z"; the 27th and 28th are "AA" and "AB"; three numeric labels are ["1", "2", "3"] |
| Exclusions.PossibleValuesOf | backend/src/routes/exclusions.routes.ts:45-50 | the possibleValues record holds, per dimension, the labels of that dimension's own type and count |
| Exclusions.PossibleValuesExample | backend/src/routes/exclusions.routes.ts:45-50 | 3 numeric aisles, no bay or level configuration, 26 alphabetic bins give aisles "1".."3", no bays or levels, and bins "A".."Z" |
| Exclusions.ExclusionsService.FindAllByWarehouse | backend/src/warehouses/exclusions.service.ts:12-17 | exactly the rows of that warehouse, in ascending creation order (ascending ids) |
| Exclusions.ExclusionsService.FindOne | backend/src/warehouses/exclusions.service.ts:19-23 | a row only when both its id and its warehouseId match; none if and only if no row matches both |
| Exclusions.ExclusionsService.Create | backend/src/warehouses/exclusions.service.ts:25-42 | succeeds if and only if the warehouse exists; on failure "Warehouse not found." and nothing is written; on success one row is appended, holding the argument's warehouseId (not the body's) and the range columns as given, unchecked |
| Exclusions.ExclusionsService.Update | backend/src/warehouses/exclusions.service.ts:44-56 | not in that warehouse: error, no write; a patch naming a missing warehouse: the store refuses, no write; otherwise only the row with that id is patched, and the read-back fails exactly when the patch moved it to another warehouse |
| Exclusions.ExclusionsService.Save | backend/src/warehouses/exclusions.service.ts:50-55 | the write and the read-back: only the row with that id is patched, the store stays valid, and the patched row is returned unless the patch moved it to another warehouse |
| Exclusions.ExclusionsService.Remove | backend/src/warehouses/exclusions.service.ts:58-65 | not in that warehouse: error, no deletion; otherwise exactly that row is deleted and every other row stays |
| Exclusions.UpdateSound | backend/src/warehouses/exclusions.service.ts:50-55 | patching one row by id keeps ids valid and the foreign key intact, and the read-back within the warehouse finds the patched row exactly when it stayed in that warehouse |
| Warehouses.WarehousesService.FindAll | backend/src/warehouses/warehouses.service.ts:12-24 | with a client, exactly the warehouses whose location belongs to that client; without one, every warehouse |
| Warehouses.WarehousesService.FindOne | backend/src/warehouses/warehouses.service.ts:26-39 | the warehouse with that id, only when it is in the client's scope; none if and only if no such warehouse is visible |
| Warehouses.WarehousesService.TenantsDisjoint | backend/src/warehouses/warehouses.service.ts:12-24 | no warehouse is visible to two different clients |
| Warehouses.WarehousesService.Create | backend/src/warehouses/warehouses.service.ts:41-66 | a falsy client id (0) or a location not owned by the client: error, nothing inserted; otherwise one row is appended and it is visible to that client |
| Warehouses.WarehousesService.Update | backend/src/warehouses/warehouses.service.ts:68-98 | a falsy client id or a warehouse not owned: error, no write; a move to a location outside the client's: error, no write; a locationId of 0 skips that check and the store refuses it; otherwise only that row is patched and stays visible to the client |
| Warehouses.WarehousesService.Save | backend/src/warehouses/warehouses.service.ts:92-97 | the write and the read-back: only that row is patched, the store stays valid, and the patched row is returned and is among the client's warehouses |
| Warehouses.WarehousesService.Remove | backend/src/warehouses/warehouses.service.ts:100-112 | a falsy client id or a warehouse not owned: error, nothing deleted; otherwise exactly that warehouse is deleted, and the cascade deletes exactly its exclusions |
| Warehouses.UpdateSound | backend/src/warehouses/warehouses.service.ts:80-97 | once the ownership checks pass, patching the row keeps the store consistent, the new location is still the client's, and the read-back finds the patched row |
| Warehouses.RelocationTarget | backend/src/warehouses/warehouses.service.ts:80-90 | after the relocation check, the location a patch names exists if and only if its id is not 0, the one falsy id that skips the check |
| Warehouses.OwnerUnique | backend/src/warehouses/warehouses.service.ts:47-55 | a location id belongs to at most one client |
| Locations.LocationsService.FindAll | backend/src/locations/locations.service.ts:12-20 | with a client, exactly that client's locations; without one, every location |
| Locations.LocationsService.FindOne | backend/src/locations/locations.service.ts:22-31 | a location only when its id matches and, when a client is given, it is that client's; none if and only if no such location |
| Locations.LocationsService.Create | backend/src/locations/locations.service.ts:33-39 | a falsy client id: error, nothing written; otherwise one row is appended with the caller's clientId (not the body's), visible to that client |
| Locations.LocationsService.Update | backend/src/locations/locations.service.ts:41-52 | a falsy client id or no row matching id and client: error, table unchanged; otherwise only that row is patched, and the read-back fails exactly when the patch gave it to another client |
| Locations.LocationsService.Remove | backend/src/locations/locations.service.ts:54-60 | a falsy client id: error; a non-matching (id, client) pair: silent no-op; an owned location a warehouse sits in: the store refuses; otherwise exactly that row is deleted |
| Locations.UpdateSound | backend/src/locations/locations.service.ts:46-51 | patching the owned row keeps the store consistent, and the read-back finds it exactly when it stayed with the client |
| RouteScanner.StripApiPrefix | backend/src/utils/route-scanner.ts:19 | one leading "/api/" is removed, and nothing else changes |
| RouteScanner.Split | backend/src/utils/route-scanner.ts:22 | `split('/')` gives a non-empty list of slash-free parts that join back to the string |
| RouteScanner.SplitJoin | backend/src/utils/route-scanner.ts:22 | splitting the join of slash-free parts gives those parts back |
| RouteScanner.LowerOfUpper | backend/src/utils/route-scanner.ts:58-60 | lower-casing an upper-cased method is lower-casing the method, and upper-casing is idempotent |
| RouteScanner.ExtractResourceAndAction | backend/src/utils/route-scanner.ts:17-47 | the resource is "root" or a kept part of the path; the action is one of the fixed names or the lower-cased method |
| RouteScanner.RouteFor | backend/src/utils/route-scanner.ts:58-64 | the recorded method is upper-cased, the path is kept, and the name starts with the resource followed by "_" |
| RouteScanner.PathSegments | backend/src/utils/route-scanner.ts:19-22 | for "/api/" + parts, the kept segments are the parts that are non-empty and do not start with ':' |
| RouteScanner.RootRule | backend/src/utils/route-scanner.ts:24-26 | any path of slash-free parts with no kept segment (`/api/`, `/api/:id`, and, without the prefix, `""` or `/`): resource "root", action the lower-cased method |
| RouteScanner.CollectionRule | backend/src/utils/route-scanner.ts:32-35 | one segment: GET lists, POST creates, any other method names itself |
| RouteScanner.CollectionGet | backend/src/utils/route-scanner.ts:32-35 | for any kept resource, GET on `/api/<resource>` is named `<resource>_list`, as written and corrected |
| RouteScanner.PermissionsRule | backend/src/utils/route-scanner.ts:36-38 | any path whose kept segments are [r, "permissions"], whatever `:param` parts lie between: resource r, manage_permissions for every method |
| RouteScanner.MemberRule | backend/src/utils/route-scanner.ts:39-44 | two plain segments: GET reads, PUT updates, DELETE deletes, any other method names itself |
| RouteScanner.DeepRule | backend/src/utils/route-scanner.ts:28-29 | any path with three or more kept segments, `:param` parts anywhere: the first kept segment is the resource, the lower-cased method is the action |
| RouteScanner.ParamRouteAsWritten | backend/src/utils/route-scanner.ts:22-44 | as written, `/api/r/:id` is classified like `/api/r`: GET gives r_list and PUT gives r_put |
| RouteScanner.IntendedResourceAndAction | backend/src/utils/route-scanner.ts:36-44 | the corrected classifier agrees with the written one on the resource, and on every path except those with one kept segment and one `:param` part (in either order, so `/api/:x/users` too), which it names as member routes |
| RouteScanner.IntendedRouteFor | backend/src/utils/route-scanner.ts:58-64 | the corrected record keeps the upper-cased method and the path, and its name starts with the resource followed by "_" |
| RouteScanner.IntendedCollectionRule | backend/src/utils/route-scanner.ts:32-35 | the correction keeps the one-segment names |
| RouteScanner.IntendedParamRule | backend/src/utils/route-scanner.ts:39-44 | corrected, `/api/r/:id` gives read, update and delete for GET, PUT and DELETE, so GET on it differs from GET on `/api/r` |
| RouteScanner.UserRoutesAreCrud | backend/src/utils/route-scanner.ts:96-101 | the users entries are the five CRUD entries of "users" |
| RouteScanner.RoleRoutesAreCrud | backend/src/utils/route-scanner.ts:103-108 | the first five roles entries are the CRUD entries of "roles" |
| RouteScanner.RolePermissionsRoute | backend/src/utils/route-scanner.ts:109 | the last roles entry is POST `/api/roles/:id/permissions`, named roles_manage_permissions |
| RouteScanner.PermissionRoutesAreCrud | backend/src/utils/route-scanner.ts:111-116 | the permissions entries are the CRUD entries of "permissions" |
| RouteScanner.ClientRoutesAreCrud | backend/src/utils/route-scanner.ts:118-123 | the clients entries are the CRUD entries of "clients" |
| RouteScanner.LocationRoutesAreCrud | backend/src/utils/route-scanner.ts:125-130 | the locations entries are the CRUD entries of "locations" |
| RouteScanner.CrudRoutesPrefixed | backend/src/utils/route-scanner.ts:96-130 | each CRUD entry's name starts with its resource followed by "_" |
| RouteScanner.UserRoutesPrefixed | backend/src/utils/route-scanner.ts:96-101 | each users entry's name starts with its resource followed by "_" |
| RouteScanner.RoleRoutesPrefixed | backend/src/utils/route-scanner.ts:103-109 | each roles entry's name starts with its resource followed by "_" |
| RouteScanner.PermissionRoutesPrefixed | backend/src/utils/route-scanner.ts:111-116 | each permissions entry's name starts with its resource followed by "_" |
| RouteScanner.ClientRoutesPrefixed | backend/src/utils/route-scanner.ts:118-123 | each clients entry's name starts with its resource followed by "_" |
| RouteScanner.LocationRoutesPrefixed | backend/src/utils/route-scanner.ts:125-130 | each locations entry's name starts with its resource followed by "_" |
| RouteScanner.RoutesFromAppPrefixed | backend/src/utils/route-scanner.ts:92-138 | every entry of the constant table has a name that starts with its resource followed by "_" |
| RouteScanner.IntendedCrudList | backend/src/utils/route-scanner.ts:32-34 | corrected, GET `/api/r` is recorded exactly as the table's list entry |
| RouteScanner.IntendedCrudRead | backend/src/utils/route-scanner.ts:39-41 | corrected, GET `/api/r/:id` is recorded exactly as the table's read entry |
| RouteScanner.IntendedCrudCreate | backend/src/utils/route-scanner.ts:32-35 | corrected, POST `/api/r` is recorded exactly as the table's create entry |
| RouteScanner.IntendedCrudUpdate | backend/src/utils/route-scanner.ts:39-42 | corrected, PUT `/api/r/:id` is recorded exactly as the table's update entry |
| RouteScanner.IntendedCrudDelete | backend/src/utils/route-scanner.ts:39-43 | corrected, DELETE `/api/r/:id` is recorded exactly as the table's delete entry |
| RouteScanner.IntendedCrud | backend/src/utils/route-scanner.ts:32-44 | corrected, every CRUD entry of a resource is recorded exactly as the table lists it |
| RouteScanner.IntendedRolePermissions | backend/src/utils/route-scanner.ts:36-38 | corrected, POST `/api/roles/:id/permissions` is recorded exactly as the table lists it |
| RouteScanner.UserRoutesMatchIntended | backend/src/utils/route-scanner.ts:96-101 | every users entry is what the corrected scanner records for its method and path |
| RouteScanner.RoleRoutesMatchIntended | backend/src/utils/route-scanner.ts:103-109 | every roles entry is what the corrected scanner records for its method and path |
| RouteScanner.PermissionRoutesMatchIntended | backend/src/utils/route-scanner.ts:111-116 | every permissions entry is what the corrected scanner records for its method and path |
| RouteScanner.ClientRoutesMatchIntended | backend/src/utils/route-scanner.ts:118-123 | every clients entry is what the corrected scanner records for its method and path |
| RouteScanner.LocationRoutesMatchIntended | backend/src/utils/route-scanner.ts:125-130 | every locations entry is what the corrected scanner records for its method and path |
| RouteScanner.RoutesFromAppMatchIntendedScanner | backend/src/utils/route-scanner.ts:92-138 | every table entry except the health check is what the corrected scanner records for its method and path |
| RouteScanner.HealthEntryDiffers | backend/src/utils/route-scanner.ts:94 | the health entry of the table is a GET named health_read, while the scanner, as written and corrected, names its path health_list |
| RouteScanner.UsersReadAsWritten | backend/src/utils/route-scanner.ts:97-98 | for each GET entry of the users table (users_list and users_read), the scanner as written names its path users_list, so GET /api/users/:id loses its users_read name |
| Permissions.Refreshed | backend/src/permissions/permissions.service.ts:28-31 | an existing permission gets the route's resource and description, and keeps its id and name |
| Permissions.Upserted | backend/src/permissions/permissions.service.ts:24-39 | the permission one upsert saves holds the route's name, resource and "METHOD path" description |
| Permissions.Last | backend/src/permissions/permissions.service.ts:22-43 | the last route with a given action is a route with that action, and there is none exactly when no route has that action |
| Permissions.PermissionsService.constructor | backend/src/permissions/permissions.service.ts:10-12 | the service attaches to the permissions table as it stands, any rows with unique ids and names and their id counter, and leaves it unchanged |
| Permissions.PermissionsService.FindByName | backend/src/permissions/permissions.service.ts:24-26 | the lookup finds a permission of that name, and none exactly when no permission has that name |
| Permissions.PermissionsService.SyncFromRoutes | backend/src/permissions/permissions.service.ts:18-55 | the upsert loop and the orphan removal leave the table, the id counter and the returned list equal to `Synced` of the old state, and the table keeps unique ids and unique names |
| Permissions.PermissionsService.UpsertRoutes | backend/src/permissions/permissions.service.ts:22-43 | the loop leaves the table, the id counter and the returned list equal to `UpsertAll` of the old state over the routes, and keeps ids and names unique |
| Permissions.PermissionsService.UpsertOne | backend/src/permissions/permissions.service.ts:24-42 | one pass: the state after it is `Upsert` of the state before, so the named permission is refreshed in place or appended with the next id |
| Permissions.FoundByName | backend/src/permissions/permissions.service.ts:24-26 | with unique names, a lookup by name finds the one row of that name |
| Permissions.SaveOverRow | backend/src/permissions/permissions.service.ts:41 | saving over a row, matched by its id, replaces exactly that row |
| Permissions.ReplaceRow | backend/src/permissions/permissions.service.ts:28-31 | an in-place save keeps ids and names valid, and only lookups of that name see a change |
| Permissions.AppendRow | backend/src/permissions/permissions.service.ts:32-39 | inserting a new name with the next id keeps ids and names valid, and only lookups of that name see a change |
| Permissions.UpsertStep | backend/src/permissions/permissions.service.ts:22-43 | one upsert keeps the table valid, saves a permission describing the route under the existing id when there was one, and leaves every other name's permission unchanged |
| Permissions.UpsertExisting | backend/src/permissions/permissions.service.ts:28-31 | the upsert of an existing name rewrites that row in place and keeps the id counter |
| Permissions.UpsertNew | backend/src/permissions/permissions.service.ts:32-39 | the upsert of a new name appends a row with the next id |
| Permissions.UpsertAllInv | backend/src/permissions/permissions.service.ts:22-43 | the upsert loop keeps ids and names unique |
| Permissions.UpsertAllSaved | backend/src/permissions/permissions.service.ts:20-42 | the loop saves one permission per route, in route order, each describing its route |
| Permissions.UpsertAllRows | backend/src/permissions/permissions.service.ts:22-43 | after the loop, a name some route carries holds the last such route's fields, under its old id if it existed; other names are untouched |
| Permissions.UpsertAllInPlace | backend/src/permissions/permissions.service.ts:24-31 | when every route's name already exists, the loop adds no row and rewrites rows in place |
| Permissions.PruneValid | backend/src/permissions/permissions.service.ts:45-52 | removing the orphans keeps ids and names unique |
| Permissions.SyncedValid | backend/src/permissions/permissions.service.ts:22-52 | a whole sync keeps ids and names unique |
| Permissions.SyncedRows | backend/src/permissions/permissions.service.ts:22-52 | after sync a name has a permission if and only if some route carries it; that permission describes the last such route and keeps its old id |
| Permissions.SyncedNames | backend/src/permissions/permissions.service.ts:45-52 | after sync the set of permission names equals the set of route actions |
| Permissions.SyncedKeepsIdentity | backend/src/permissions/permissions.service.ts:24-31 | an existing permission some route names is updated in place, same id, and not duplicated; one no route names is gone |
| Permissions.SyncedSaved | backend/src/permissions/permissions.service.ts:20-54 | the returned list has one saved permission per route, in route order, each describing its route |
| Permissions.SyncIdempotent | backend/src/permissions/permissions.service.ts:22-52 | syncing twice with the same routes leaves the same table and id counter as syncing once |
| Migrations.LessIrreflexive | backend/src/migrations/migration-runner.ts:31 | no name sorts before itself |
| Migrations.LessTransitive | backend/src/migrations/migration-runner.ts:31 | the sort order is transitive |
| Migrations.LessTotal | backend/src/migrations/migration-runner.ts:31 | of two different names, one sorts before the other |
| Migrations.LessAsymmetric | backend/src/migrations/migration-runner.ts:31 | two names never sort before each other |
| Migrations.AtMostTransitive | backend/src/migrations/migration-runner.ts:31 | "sorts no later than" is transitive |
| Migrations.PrependAscending | backend/src/migrations/migration-runner.ts:31 | a name no later than every element of an ascending list can be put in front of it |
| Migrations.Insert | backend/src/migrations/migration-runner.ts:31 | insertion into an ascending list gives an ascending list with that name added |
| Migrations.SortStrings | backend/src/migrations/migration-runner.ts:31 | `.sort()` returns an ascending permutation of its input |
| Migrations.AscendingUnique | backend/src/migrations/migration-runner.ts:31 | two ascending lists with the same elements are equal, so the sort has one outcome |
| Migrations.DistinctOnce | backend/src/migrations/migration-runner.ts:31 | a list without repeats holds each name at most once |
| Migrations.OnceDistinct | backend/src/migrations/migration-runner.ts:31 | a list holding each name at most once has no repeats |
| Migrations.CountedTwice | backend/src/migrations/migration-runner.ts:31 | a name at two positions occurs at least twice |
| Migrations.StrictlyAscending | backend/src/migrations/migration-runner.ts:31 | an ascending list without repeats strictly increases |
| Migrations.LoadMigrations | backend/src/migrations/migration-runner.ts:27-45 | the loop over the sorted names returns exactly `Loaded(registry, keys)` |
| Migrations.LoadedFromMembers | backend/src/migrations/migration-runner.ts:33-42 | the loop collects exactly the listed names that the registry holds with an `up` function, with their `down` flag |
| Migrations.LoadedFromOrdered | backend/src/migrations/migration-runner.ts:31-42 | names that strictly increase load into migrations whose names strictly increase |
| Migrations.LoadedSpec | backend/src/migrations/migration-runner.ts:27-45 | loadMigrations returns exactly the registry entries with an `up` function, in strictly ascending name order |
| Migrations.SortedKeys | backend/src/migrations/migration-runner.ts:31 | the sorted keys are the registry's names, each once, strictly ascending |
| Migrations.LoadedIgnoresKeyOrder | backend/src/migrations/migration-runner.ts:27-45 | two enumerations of the same keys load the same list |
| Migrations.Pending | backend/src/migrations/migration-runner.ts:143-145 | a migration is pending if and only if it is loaded and its name is not in the executed list |
| Migrations.PendingOrdered | backend/src/migrations/migration-runner.ts:143-145 | pending migrations keep the ascending name order of the loaded ones |
| Migrations.FirstFailure | backend/src/migrations/migration-runner.ts:155-165 | the index of the first migration whose `up` or recording fails: every earlier one succeeds, and it fails unless it is the length |
| Migrations.FirstFailureUnique | backend/src/migrations/migration-runner.ts:155-165 | the first failure is the one index with those two properties |
| Migrations.RunAllClosed | backend/src/migrations/migration-runner.ts:155-165 | the loop in closed form: before the first failure every migration runs and is recorded; the failing one runs and is not recorded; none after it runs |
| Migrations.ClosedAfterFailure | backend/src/migrations/migration-runner.ts:161-164 | after a failure, a further migration changes nothing |
| Migrations.ClosedAfterSuccesses | backend/src/migrations/migration-runner.ts:156-160 | after only successes, the next migration runs, and it is recorded unless it fails |
| Migrations.RunAllStopped | backend/src/migrations/migration-runner.ts:161-164 | once a prefix has failed, the rest of the pending list changes nothing |
| Migrations.RunInOrder | backend/src/migrations/migration-runner.ts:155-165 | the run starts a prefix of the pending migrations in their order, and records a prefix of what it started |
| Migrations.RunRecordsCompleted | backend/src/migrations/migration-runner.ts:157-159 | a migration is recorded only when its `up` and its recording completed |
| Migrations.RunStopsAtFailure | backend/src/migrations/migration-runner.ts:155-165 | either every pending migration is recorded, or the run stops at a failing one that ran, was not recorded and was the last to run |
| Migrations.MigrationRunner.constructor | backend/src/migrations/migration-runner.ts:139-140 | the runner starts from the given executed list |
| Migrations.MigrationRunner.RunMigrations | backend/src/migrations/migration-runner.ts:126-172 | nothing loaded or nothing pending: nothing runs and nothing is recorded; otherwise the run is `RunAll` of the pending list, the table gains exactly the recorded names, and the outcome is the failing name or the count of pending migrations |
| Migrations.MigrationRunner.RunPending | backend/src/migrations/migration-runner.ts:155-165 | the loop over pending migrations: `ran`, the recorded names and the outcome are those of `RunAll`; it stops at the first failure of `up` or of the recording |
| Migrations.RunSkipsExecuted | backend/src/migrations/migration-runner.ts:143-160 | every migration the runner starts is a loaded one not yet in the executed list |
| Migrations.RegistryKeyList | backend/src/migrations/migration-runner.ts:17-22 | the registry's declared names are each listed once |
| Migrations.RegistryLoaded | backend/src/migrations/migration-runner.ts:17-45 | the registry as declared loads 0001-initial-setup, 0002-add-example-index and 0003-seed-initial-data, each with a `down`, in ascending order |

## Left out

- Exclusion ranges are not validated anywhere in the source. No check ties a from/to value to the dimension's labels or orders `from` before `to`, and no check refuses an all-null rule. The model stores the eight nullable range columns as given and adds no such predicate.
- Express routers are not part of this model: HTTP status mapping, `parseInt` of route parameters, the `X-Client-Id` header and the tenant join check in `exclusions.routes.ts`. The one exception is the `possibleValues` record of `exclusions.routes.ts:45-50`, which `Exclusions.PossibleValuesOf` models.
- `scanStack` and the walk over Express's internal router stacks (`route-scanner.ts:50-78`) are left out. They depend on Express internals and a regular expression over `layer.regexp.source`. The classifier it calls is modelled directly.
- The database side of migrations is left out: the SQL in the migration files, `ensureMigrationsTable`, and the console output. `up` and `recordMigration` are abstract steps. Whether each fails is the parameter `upFails` or `recordFails`.
- Migrations.MigrationRunner.RunMigrations: `getExecutedMigrations` is the runner's `executed` field. Its fallback to an empty list when the query throws is not modelled. A throw from `ensureMigrationsTable` is not modelled either.
- Migrations.Registry: the registry declares only 0001-0003, although migration files 0004-0012 exist next to them. The model follows the registry as declared, so loading never sees the later files.
- Migrations.SortStrings: `.sort()` compares UTF-16 code units. The model compares Dafny characters. The two orders agree on the ASCII names the registry uses.
- Exclusions.ExclusionsService.Create, Exclusions.ExclusionsService.Update, Warehouses.WarehousesService.Create, Warehouses.WarehousesService.Update, Locations.LocationsService.Create and Locations.LocationsService.Update: the request body's `id`, `createdAt` and `updatedAt` are not modelled. The routes pass the raw body as a `Partial` entity, and the data and patch records have no such fields. In the source, `create` copies a body `id` into the new entity, and `save` of an entity whose key is set updates the existing row with that id instead of inserting. So POST `/api/locations` with an `id` takes over that location for the caller's client, a warehouse body with an `id` rewrites that warehouse, and an exclusion body with an `id` moves that exclusion into the given warehouse. In `update`, an `id` in the patch rewrites the row's key. The contracts "one row is appended" and "only that row is patched" hold for bodies without these fields.
- Timestamps (`createdAt`, `updatedAt`) are left out. Creation order is the order of the table sequence, and ids increase along it.
- Joined relations (a warehouse's `location`, a permission's `roles`) are not returned.
- Permissions.PermissionsService.SyncFromRoutes takes the route table as a parameter. It does not take the Express `app`, which `getRoutesFromApp` ignores anyway.
- Permissions.PermissionsService.SyncFromRoutes: orphans are removed by filtering the table. The model does not re-read the table through a separate `find`, which returns the same rows in a sequential run.
- Locations.LocationsService.Create and Locations.LocationsService.Update: the foreign key from a location to its client (`location.entity.ts`, migration 0007) is not modelled, because the clients table is outside the core. `Create` stores the caller's non-zero client id. `Update` writes any `clientId` the patch carries, including 0 or an id that names no client. The database refuses such an update, so the source writes nothing and throws a database error rather than "Location not found".
- Warehouses.WarehousesService.Create and Warehouses.WarehousesService.Update re-read the saved row and throw when it is missing. In a sequential model that read always succeeds, so those error branches are not modelled; the contracts prove the read succeeds.
- Concurrency is left out: two requests interleaving between a check and the write that follows it.
- TypeORM's refusal of an update whose patch sets no column is not modelled. Such a patch leaves the row unchanged.
- RouteScanner.ToLower and RouteScanner.ToUpper map only the ASCII letters. JavaScript's case mapping also covers non-ASCII letters. HTTP method names are ASCII.
- RouteScanner.RoutesFromApp: the number of table entries and the distinctness of their names are not stated as lemmas. The per-group lemmas state each entry exactly.
- RouteScanner.HealthEntryDiffers records that the table's health_read differs from the scanner's health_list. This is not claimed as a defect: the table is written by hand, and nothing shows which name was intended.
- The unscoped CRUD services (users, roles, clients, products, orders), seeding, authentication and the web and mobile front ends are outside the core.

## Findings

| source | as written | input that shows it | evidently intended | confidence | as-written member | corrected member |
|---|---|---|---|---|---|---|
| backend/src/utils/route-scanner.ts:22-44 | `:param` parts are dropped before the parts are counted, so `/api/users/:id` has one part and takes the collection branch | GET `/api/users/:id` is named users_list, like GET `/api/users`; PUT `/api/users/:id` is named users_put | the comment at line 40 and the hand-written table give read, update and delete for GET, PUT and DELETE on `/api/r/:id` | medium, not executed | RouteScanner.ParamRouteAsWritten | RouteScanner.IntendedParamRule |

`RouteScanner.UsersReadAsWritten` shows the same discrepancy on the route table itself. The discrepancy produces no permission name today. `scanRoutes` has no caller in the source: `main.ts:85` and `permissions.routes.ts:21` reach `getRoutesFromApp` through `syncFromRoutes`, and that function returns the hand-written table. It matters only if the scanner replaces the table. `RouteScanner.RoutesFromAppMatchIntendedScanner` proves that the corrected classifier reproduces every table entry except the health check.
