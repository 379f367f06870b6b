/** The route-to-permission naming of backend/src/utils/route-scanner.ts:
    the classifier extractResourceAndAction, the `resource_action` name a
    route is recorded under, and the static route table getRoutesFromApp
    hands to the permission sync. */
module RouteScanner {
  import opened Tables

  datatype ResourceAction = ResourceAction(resource: string, action: string)

  /** One route: its upper-case HTTP method, its path, and the permission
      resource and name it stands for. */
  datatype RouteInfo = RouteInfo(httpMethod: string, path: string, resource: string, action: string)

  const ApiPrefix: string := "/api/"

  // ---------------------------------------------------------------------
  // Path handling
  // ---------------------------------------------------------------------

  /** `fullPath.replace(/^\/api\//, '')`: one leading "/api/" removed. */
  function StripApiPrefix(path: string): (r: string)
    ensures ApiPrefix <= path ==> ApiPrefix + r == path
    ensures !(ApiPrefix <= path) ==> r == path
  {
    if ApiPrefix <= path then path[|ApiPrefix|..] else path
  }

  /** The parts of `s` between slashes. */
  function Join(parts: seq<string>): string
    requires |parts| >= 1
  {
    if |parts| == 1 then parts[0] else parts[0] + "/" + Join(parts[1..])
  }

  /** `s.split('/')`: never empty, no part holds a slash, and joining the
      parts with slashes gives `s` back. */
  function Split(s: string): (parts: seq<string>)
    ensures |parts| >= 1
    ensures forall p :: p in parts ==> '/' !in p
    ensures Join(parts) == s
  {
    if s == [] then [""]
    else
      var rest := Split(s[1..]);
      if s[0] == '/' then [""] + rest
      else
        assert |rest| > 1 ==> Join(rest) == rest[0] + "/" + Join(rest[1..]);
        [[s[0]] + rest[0]] + rest[1..]
  }

  /** A string without a slash splits into itself. */
  lemma {:induction false} SplitWord(w: string)
    requires '/' !in w
    ensures Split(w) == [w]
  {
    if w != [] {
      SplitWord(w[1..]);
    }
  }

  /** Splitting at the first slash. */
  lemma {:induction false} SplitCons(w: string, t: string)
    requires '/' !in w
    ensures Split(w + "/" + t) == [w] + Split(t)
  {
    if w == [] {
      assert (w + "/" + t)[1..] == t;
    } else {
      SplitCons(w[1..], t);
      assert (w + "/" + t)[1..] == w[1..] + "/" + t;
      var rest := [w[1..]] + Split(t);
      assert rest[0] == w[1..] && rest[1..] == Split(t);
      assert [w[0]] + w[1..] == w;
    }
  }

  lemma JoinTwo(a: string, b: string)
    ensures Join([a, b]) == a + "/" + b
  {
    assert [a, b][1..] == [b];
  }

  lemma JoinThree(a: string, b: string, c: string)
    ensures Join([a, b, c]) == a + "/" + b + "/" + c
  {
    assert [a, b, c][1..] == [b, c];
    JoinTwo(b, c);
  }

  /** Split undoes Join on slash-free parts: the two are inverse. */
  lemma {:induction false} SplitJoin(parts: seq<string>)
    requires |parts| >= 1
    requires forall p :: p in parts ==> '/' !in p
    ensures Split(Join(parts)) == parts
  {
    if |parts| == 1 {
      SplitWord(parts[0]);
    } else {
      SplitCons(parts[0], Join(parts[1..]));
      SplitJoin(parts[1..]);
    }
  }

  /** The filter `p && !p.startsWith(':')`. */
  predicate IsKept(part: string)
  {
    part != "" && part[0] != ':'
  }

  predicate NonEmpty(part: string)
  {
    part != ""
  }

  /** The parts of the path after "/api/" that are neither empty nor a
      `:param` placeholder. */
  function Segments(fullPath: string): seq<string>
  {
    Filter(Split(StripApiPrefix(fullPath)), IsKept)
  }

  // ---------------------------------------------------------------------
  // Case mapping of HTTP method names (ASCII)
  // ---------------------------------------------------------------------

  function LowerChar(c: char): char
  {
    if 'A' <= c <= 'Z' then (c as int + 32) as char else c
  }

  function UpperChar(c: char): char
  {
    if 'a' <= c <= 'z' then (c as int - 32) as char else c
  }

  function ToLower(s: string): (r: string)
    ensures |r| == |s|
    ensures forall i :: 0 <= i < |s| ==> !('A' <= r[i] <= 'Z')
  {
    seq(|s|, i requires 0 <= i < |s| => LowerChar(s[i]))
  }

  function ToUpper(s: string): (r: string)
    ensures |r| == |s|
    ensures forall i :: 0 <= i < |s| ==> !('a' <= r[i] <= 'z')
  {
    seq(|s|, i requires 0 <= i < |s| => UpperChar(s[i]))
  }

  /** Lower-casing an upper-cased method is lower-casing the method: the
      case a method is registered in does not matter. */
  lemma LowerOfUpper(s: string)
    ensures ToLower(ToUpper(s)) == ToLower(s)
    ensures ToUpper(ToUpper(s)) == ToUpper(s)
  {
    assert forall i :: 0 <= i < |s| ==> ToLower(ToUpper(s))[i] == ToLower(s)[i];
  }

  // ---------------------------------------------------------------------
  // extractResourceAndAction and the permission name
  // ---------------------------------------------------------------------

  /** extractResourceAndAction as written: the resource is the first kept
      segment ("root" when there is none), and the action is chosen by the
      number of kept segments and the (upper-case) method. */
  function ExtractResourceAndAction(fullPath: string, httpMethod: string): (r: ResourceAction)
    ensures r.resource == "root" || (IsKept(r.resource) && r.resource in Split(StripApiPrefix(fullPath)))
    ensures r.action in {"list", "create", "read", "update", "delete", "manage_permissions"} || r.action == ToLower(httpMethod)
  {
    var parts := Segments(fullPath);
    if |parts| == 0 then ResourceAction("root", ToLower(httpMethod))
    else
      var action :=
        if |parts| == 1 then
          if httpMethod == "GET" then "list" else if httpMethod == "POST" then "create" else ToLower(httpMethod)
        else if |parts| == 2 && parts[1] == "permissions" then "manage_permissions"
        else if |parts| == 2 then
          if httpMethod == "GET" then "read" else if httpMethod == "PUT" then "update"
          else if httpMethod == "DELETE" then "delete" else ToLower(httpMethod)
        else ToLower(httpMethod);
      ResourceAction(parts[0], action)
  }

  /** The route a handler is recorded as: upper-case method, the path, and
      the permission name `${resource}_${action}`. */
  function RouteFor(path: string, httpMethod: string): (r: RouteInfo)
    ensures r.httpMethod == ToUpper(httpMethod) && r.path == path
    ensures r.resource + "_" <= r.action
  {
    var m := ToUpper(httpMethod);
    var ra := ExtractResourceAndAction(path, m);
    RouteInfo(m, path, ra.resource, ra.resource + "_" + ra.action)
  }

  /** A path made of the given slash-free parts after "/api/" splits into
      exactly those parts, and its segments are the kept ones among them. */
  lemma PathSegments(parts: seq<string>)
    requires |parts| >= 1 && forall p :: p in parts ==> '/' !in p
    ensures Split(StripApiPrefix(ApiPrefix + Join(parts))) == parts
    ensures Segments(ApiPrefix + Join(parts)) == Filter(parts, IsKept)
    ensures Parts(ApiPrefix + Join(parts)) == Filter(parts, NonEmpty)
  {
    SplitJoin(parts);
    assert StripApiPrefix(ApiPrefix + Join(parts)) == Join(parts) by {
      assert ApiPrefix <= ApiPrefix + Join(parts);
    }
  }

  /** The branches of the classifier that do not look at the method,
      stated on the kept segments of any path. */
  lemma SegmentCases(path: string, httpMethod: string)
    ensures Segments(path) == [] ==>
      ExtractResourceAndAction(path, httpMethod) == ResourceAction("root", ToLower(httpMethod))
    ensures |Segments(path)| == 2 && Segments(path)[1] == "permissions" ==>
      ExtractResourceAndAction(path, httpMethod) == ResourceAction(Segments(path)[0], "manage_permissions")
    ensures |Segments(path)| >= 3 ==>
      ExtractResourceAndAction(path, httpMethod) == ResourceAction(Segments(path)[0], ToLower(httpMethod))
  {
  }

  /** No kept segment (`/api/`, `/api/:id`, and paths without the prefix
      such as `""` or `/`): resource "root", the lower-cased method as
      action. */
  lemma RootRule(parts: seq<string>, httpMethod: string)
    requires |parts| >= 1 && forall p :: p in parts ==> '/' !in p
    requires Filter(parts, IsKept) == []
    ensures ExtractResourceAndAction(ApiPrefix + Join(parts), httpMethod) == ResourceAction("root", ToLower(httpMethod))
    ensures !(ApiPrefix <= Join(parts)) ==>
      ExtractResourceAndAction(Join(parts), httpMethod) == ResourceAction("root", ToLower(httpMethod))
  {
    PathSegments(parts);
    SegmentCases(ApiPrefix + Join(parts), httpMethod);
    if !(ApiPrefix <= Join(parts)) {
      SplitJoin(parts);
      SegmentCases(Join(parts), httpMethod);
    }
  }

  /** `/api/users` has the one segment "users". */
  lemma CollectionSegments(resource: string)
    requires '/' !in resource && IsKept(resource)
    ensures Segments(ApiPrefix + Join([resource])) == [resource]
    ensures Parts(ApiPrefix + Join([resource])) == [resource]
  {
    PathSegments([resource]);
    FilterCons(resource, [], IsKept);
    FilterCons(resource, [], NonEmpty);
  }

  /** One segment (`/api/users`): GET lists, POST creates, any other method
      names itself. */
  lemma CollectionRule(resource: string, httpMethod: string)
    requires '/' !in resource && IsKept(resource)
    ensures ExtractResourceAndAction(ApiPrefix + Join([resource]), httpMethod) == ResourceAction(resource,
      if httpMethod == "GET" then "list" else if httpMethod == "POST" then "create" else ToLower(httpMethod))
  {
    CollectionSegments(resource);
  }

  /** `/api/users/:id` has the one kept segment "users" and the two
      non-empty parts "users" and ":id". */
  lemma ParamSegments(resource: string, param: string)
    requires '/' !in resource && IsKept(resource) && '/' !in param
    ensures Segments(ApiPrefix + Join([resource, ":" + param])) == [resource]
    ensures Parts(ApiPrefix + Join([resource, ":" + param])) == [resource, ":" + param]
  {
    var parts := [resource, ":" + param];
    PathSegments(parts);
    FilterCons(":" + param, [], IsKept);
    FilterCons(resource, [":" + param], IsKept);
    FilterCons(":" + param, [], NonEmpty);
    FilterCons(resource, [":" + param], NonEmpty);
  }

  /** `/api/roles/:id/permissions` has the kept segments "roles" and
      "permissions": a `:param` between two plain parts is dropped. */
  lemma ParamBetweenSegments(resource: string, param: string, tail: string)
    requires '/' !in resource && IsKept(resource) && '/' !in param && '/' !in tail && IsKept(tail)
    ensures Segments(ApiPrefix + Join([resource, ":" + param, tail])) == [resource, tail]
  {
    var parts := [resource, ":" + param, tail];
    PathSegments(parts);
    FilterCons(tail, [], IsKept);
    FilterCons(":" + param, [tail], IsKept);
    FilterCons(resource, [":" + param, tail], IsKept);
  }

  /** Two kept segments of which the second is "permissions"
      (`/api/roles/:id/permissions`, `/api/roles/permissions`, ...):
      manage_permissions, whatever the method. */
  lemma PermissionsRule(parts: seq<string>, httpMethod: string)
    requires |parts| >= 1 && forall p :: p in parts ==> '/' !in p
    requires |Filter(parts, IsKept)| == 2 && Filter(parts, IsKept)[1] == "permissions"
    ensures ExtractResourceAndAction(ApiPrefix + Join(parts), httpMethod)
      == ResourceAction(Filter(parts, IsKept)[0], "manage_permissions")
  {
    PathSegments(parts);
    SegmentCases(ApiPrefix + Join(parts), httpMethod);
  }

  /** Two plain segments (`/api/users/profile`): GET reads, PUT updates,
      DELETE deletes, any other method names itself. */
  lemma MemberRule(resource: string, sub: string, httpMethod: string)
    requires '/' !in resource && IsKept(resource) && '/' !in sub && IsKept(sub) && sub != "permissions"
    ensures ExtractResourceAndAction(ApiPrefix + Join([resource, sub]), httpMethod) == ResourceAction(resource,
      if httpMethod == "GET" then "read" else if httpMethod == "PUT" then "update"
      else if httpMethod == "DELETE" then "delete" else ToLower(httpMethod))
  {
    var parts := [resource, sub];
    PathSegments(parts);
    FilterCons(sub, [], IsKept);
    FilterCons(resource, [sub], IsKept);
  }

  /** Three or more kept segments: the first is the resource, the
      lower-cased method the action, whatever it is. */
  lemma DeepRule(parts: seq<string>, httpMethod: string)
    requires |parts| >= 1 && forall p :: p in parts ==> '/' !in p
    requires |Filter(parts, IsKept)| >= 3
    ensures ExtractResourceAndAction(ApiPrefix + Join(parts), httpMethod)
      == ResourceAction(Filter(parts, IsKept)[0], ToLower(httpMethod))
  {
    PathSegments(parts);
    SegmentCases(ApiPrefix + Join(parts), httpMethod);
  }

  /** The upper-case method names the routes use, and their lower-case forms. */
  lemma MethodNames()
    ensures ToUpper("GET") == "GET" && ToUpper("POST") == "POST"
    ensures ToUpper("PUT") == "PUT" && ToUpper("DELETE") == "DELETE"
    ensures ToLower("PUT") == "put" && ToLower("DELETE") == "delete"
  {
  }

  /** A `:param` after the resource (`/api/users/:id`) is dropped before
      the segments are counted, so the path is classified as the
      collection itself: GET /api/users/:id is named like GET /api/users,
      and PUT /api/users/:id is named "users_put". */
  lemma ParamRouteAsWritten(resource: string, param: string)
    requires '/' !in resource && IsKept(resource) && '/' !in param
    ensures RouteFor(ApiPrefix + Join([resource, ":" + param]), "GET").action
         == RouteFor(ApiPrefix + Join([resource]), "GET").action == resource + "_" + "list"
    ensures RouteFor(ApiPrefix + Join([resource, ":" + param]), "PUT").action == resource + "_" + "put"
  {
    ParamSegments(resource, param);
    CollectionRule(resource, "GET");
    MethodNames();
  }

  // ---------------------------------------------------------------------
  // The classification the comments describe
  // ---------------------------------------------------------------------

  /** The non-empty parts of the path after "/api/", `:param` placeholders
      included. */
  function Parts(fullPath: string): seq<string>
  {
    Filter(Split(StripApiPrefix(fullPath)), NonEmpty)
  }

  /** extractResourceAndAction with a path of one kept segment and one
      `:param` part counted as a member route, as the comments at lines
      36-43 of route-scanner.ts describe (`/api/users/:id -> GET = read,
      PUT = update, DELETE = delete`). The `:param` may also come first
      (`/api/:x/users`). Every other path is classified as before. */
  function IntendedResourceAndAction(fullPath: string, httpMethod: string): (r: ResourceAction)
    ensures r.resource == ExtractResourceAndAction(fullPath, httpMethod).resource
    ensures !(|Segments(fullPath)| == 1 && |Parts(fullPath)| == 2) ==> r == ExtractResourceAndAction(fullPath, httpMethod)
  {
    var parts := Segments(fullPath);
    if |parts| == 1 && |Parts(fullPath)| == 2 then
      ResourceAction(parts[0],
        if httpMethod == "GET" then "read" else if httpMethod == "PUT" then "update"
        else if httpMethod == "DELETE" then "delete" else ToLower(httpMethod))
    else ExtractResourceAndAction(fullPath, httpMethod)
  }

  function IntendedRouteFor(path: string, httpMethod: string): (r: RouteInfo)
    ensures r.httpMethod == ToUpper(httpMethod) && r.path == path
    ensures r.resource + "_" <= r.action
  {
    var m := ToUpper(httpMethod);
    var ra := IntendedResourceAndAction(path, m);
    RouteInfo(m, path, ra.resource, ra.resource + "_" + ra.action)
  }

  /** `/api/users` keeps its collection names under the intended rule. */
  lemma IntendedCollectionRule(resource: string, httpMethod: string)
    requires '/' !in resource && IsKept(resource)
    ensures IntendedResourceAndAction(ApiPrefix + Join([resource]), httpMethod) == ResourceAction(resource,
      if httpMethod == "GET" then "list" else if httpMethod == "POST" then "create" else ToLower(httpMethod))
  {
    CollectionSegments(resource);
    CollectionRule(resource, httpMethod);
  }

  /** `/api/users/:id` as the comments describe it: GET reads, PUT updates,
      DELETE deletes; so GET on it is no longer named like GET on
      `/api/users`. */
  lemma IntendedParamRule(resource: string, param: string, httpMethod: string)
    requires '/' !in resource && IsKept(resource) && '/' !in param
    ensures IntendedResourceAndAction(ApiPrefix + Join([resource, ":" + param]), httpMethod) == ResourceAction(resource,
      if httpMethod == "GET" then "read" else if httpMethod == "PUT" then "update"
      else if httpMethod == "DELETE" then "delete" else ToLower(httpMethod))
    ensures IntendedRouteFor(ApiPrefix + Join([resource, ":" + param]), "GET").action
         != IntendedRouteFor(ApiPrefix + Join([resource]), "GET").action
  {
    ParamSegments(resource, param);
    IntendedCollectionRule(resource, "GET");
    MethodNames();
    assert (resource + "_" + "read")[|resource| + 1..] == "read";
    assert (resource + "_" + "list")[|resource| + 1..] == "list";
  }

  // ---------------------------------------------------------------------
  // getRoutesFromApp
  // ---------------------------------------------------------------------

  function Route(httpMethod: string, path: string, resource: string, action: string): RouteInfo
  {
    RouteInfo(httpMethod, path, resource, action)
  }

  /** getRoutesFromApp: the same constant table whatever the application
      passed in, one entry per registered handler, in the groups the
      source lists them in. */
  function RoutesFromApp(): seq<RouteInfo>
  {
    HealthRoutes() + UserRoutes() + RoleRoutes() + PermissionRoutes() + ClientRoutes() + LocationRoutes()
  }

  function HealthRoutes(): seq<RouteInfo>
  {
    [Route("GET", "/api/health", "health", "health_read")]
  }

  function UserRoutes(): seq<RouteInfo>
  {
    [
      Route("GET", "/api/users", "users", "users_list"),
      Route("GET", "/api/users/:id", "users", "users_read"),
      Route("POST", "/api/users", "users", "users_create"),
      Route("PUT", "/api/users/:id", "users", "users_update"),
      Route("DELETE", "/api/users/:id", "users", "users_delete")
    ]
  }

  function RoleRoutes(): seq<RouteInfo>
  {
    [
      Route("GET", "/api/roles", "roles", "roles_list"),
      Route("GET", "/api/roles/:id", "roles", "roles_read"),
      Route("POST", "/api/roles", "roles", "roles_create"),
      Route("PUT", "/api/roles/:id", "roles", "roles_update"),
      Route("DELETE", "/api/roles/:id", "roles", "roles_delete"),
      Route("POST", "/api/roles/:id/permissions", "roles", "roles_manage_permissions")
    ]
  }

  function PermissionRoutes(): seq<RouteInfo>
  {
    [
      Route("GET", "/api/permissions", "permissions", "permissions_list"),
      Route("GET", "/api/permissions/:id", "permissions", "permissions_read"),
      Route("POST", "/api/permissions", "permissions", "permissions_create"),
      Route("PUT", "/api/permissions/:id", "permissions", "permissions_update"),
      Route("DELETE", "/api/permissions/:id", "permissions", "permissions_delete")
    ]
  }

  function ClientRoutes(): seq<RouteInfo>
  {
    [
      Route("GET", "/api/clients", "clients", "clients_list"),
      Route("GET", "/api/clients/:id", "clients", "clients_read"),
      Route("POST", "/api/clients", "clients", "clients_create"),
      Route("PUT", "/api/clients/:id", "clients", "clients_update"),
      Route("DELETE", "/api/clients/:id", "clients", "clients_delete")
    ]
  }

  function LocationRoutes(): seq<RouteInfo>
  {
    [
      Route("GET", "/api/locations", "locations", "locations_list"),
      Route("GET", "/api/locations/:id", "locations", "locations_read"),
      Route("POST", "/api/locations", "locations", "locations_create"),
      Route("PUT", "/api/locations/:id", "locations", "locations_update"),
      Route("DELETE", "/api/locations/:id", "locations", "locations_delete")
    ]
  }

  /** The five entries the table lists for a resource `r`: list, read,
      create, update and delete, on `/api/r` and `/api/r/:id`. */
  function CrudRoutes(r: string): seq<RouteInfo>
  {
    [
      Route("GET", ApiPrefix + Join([r]), r, r + "_" + "list"),
      Route("GET", ApiPrefix + Join([r, ":" + "id"]), r, r + "_" + "read"),
      Route("POST", ApiPrefix + Join([r]), r, r + "_" + "create"),
      Route("PUT", ApiPrefix + Join([r, ":" + "id"]), r, r + "_" + "update"),
      Route("DELETE", ApiPrefix + Join([r, ":" + "id"]), r, r + "_" + "delete")
    ]
  }

  // The groups of the table are the CRUD entries of their resource.

  lemma UserRoutesAreCrud()
    ensures UserRoutes() == CrudRoutes("users")
  {
    JoinTwo("users", ":" + "id");
    assert Join(["users"]) == "users";
    assert ApiPrefix + Join(["users"]) == "/api/users";
    assert ApiPrefix + Join(["users", ":" + "id"]) == "/api/users/:id";
    assert "users" + "_" + "list" == "users_list";
    assert "users" + "_" + "read" == "users_read";
    assert "users" + "_" + "create" == "users_create";
    assert "users" + "_" + "update" == "users_update";
    assert "users" + "_" + "delete" == "users_delete";
  }

  lemma RoleRoutesAreCrud()
    ensures RoleRoutes()[..5] == CrudRoutes("roles")
  {
    JoinTwo("roles", ":" + "id");
    assert Join(["roles"]) == "roles";
    assert ApiPrefix + Join(["roles"]) == "/api/roles";
    assert ApiPrefix + Join(["roles", ":" + "id"]) == "/api/roles/:id";
    assert "roles" + "_" + "list" == "roles_list";
    assert "roles" + "_" + "read" == "roles_read";
    assert "roles" + "_" + "create" == "roles_create";
    assert "roles" + "_" + "update" == "roles_update";
    assert "roles" + "_" + "delete" == "roles_delete";
  }

  lemma PermissionRoutesAreCrud()
    ensures PermissionRoutes() == CrudRoutes("permissions")
  {
    JoinTwo("permissions", ":" + "id");
    assert Join(["permissions"]) == "permissions";
    assert ApiPrefix + Join(["permissions"]) == "/api/permissions";
    assert ApiPrefix + Join(["permissions", ":" + "id"]) == "/api/permissions/:id";
    assert "permissions" + "_" + "list" == "permissions_list";
    assert "permissions" + "_" + "read" == "permissions_read";
    assert "permissions" + "_" + "create" == "permissions_create";
    assert "permissions" + "_" + "update" == "permissions_update";
    assert "permissions" + "_" + "delete" == "permissions_delete";
  }

  lemma ClientRoutesAreCrud()
    ensures ClientRoutes() == CrudRoutes("clients")
  {
    JoinTwo("clients", ":" + "id");
    assert Join(["clients"]) == "clients";
    assert ApiPrefix + Join(["clients"]) == "/api/clients";
    assert ApiPrefix + Join(["clients", ":" + "id"]) == "/api/clients/:id";
    assert "clients" + "_" + "list" == "clients_list";
    assert "clients" + "_" + "read" == "clients_read";
    assert "clients" + "_" + "create" == "clients_create";
    assert "clients" + "_" + "update" == "clients_update";
    assert "clients" + "_" + "delete" == "clients_delete";
  }

  lemma LocationRoutesAreCrud()
    ensures LocationRoutes() == CrudRoutes("locations")
  {
    JoinTwo("locations", ":" + "id");
    assert Join(["locations"]) == "locations";
    assert ApiPrefix + Join(["locations"]) == "/api/locations";
    assert ApiPrefix + Join(["locations", ":" + "id"]) == "/api/locations/:id";
    assert "locations" + "_" + "list" == "locations_list";
    assert "locations" + "_" + "read" == "locations_read";
    assert "locations" + "_" + "create" == "locations_create";
    assert "locations" + "_" + "update" == "locations_update";
    assert "locations" + "_" + "delete" == "locations_delete";
  }

  /** The last roles entry: POST on `/api/roles/:id/permissions`. */
  lemma RolePermissionsRoute()
    ensures RoleRoutes()[5] == Route("POST", ApiPrefix + Join(["roles", ":" + "id", "permissions"]),
                                     "roles", "roles" + "_" + "manage_permissions")
  {
    JoinThree("roles", ":" + "id", "permissions");
    RolePermissionsStrings();
  }

  lemma RolePermissionsStrings()
    ensures ApiPrefix + ("roles" + "/" + (":" + "id") + "/" + "permissions") == "/api/roles/:id/permissions"
    ensures "roles" + "_" + "manage_permissions" == "roles_manage_permissions"
  {
  }

  /** The CRUD entries of a resource are named resource, "_", action. */
  lemma CrudRoutesPrefixed(r: string)
    ensures forall e :: e in CrudRoutes(r) ==> e.resource + "_" <= e.action
  {
    forall a | a in ["list", "read", "create", "update", "delete"] ensures r + "_" <= r + "_" + a {
      assert (r + "_" + a)[..|r| + 1] == r + "_";
    }
  }

  // The scanner, read as its comments describe it, names each CRUD entry
  // exactly as the table does.

  lemma IntendedCrudList(r: string)
    requires '/' !in r && IsKept(r)
    ensures IntendedRouteFor(CrudRoutes(r)[0].path, "GET") == CrudRoutes(r)[0]
  {
    MethodNames();
    IntendedCollectionRule(r, "GET");
  }

  lemma IntendedCrudRead(r: string)
    requires '/' !in r && IsKept(r)
    ensures IntendedRouteFor(CrudRoutes(r)[1].path, "GET") == CrudRoutes(r)[1]
  {
    MethodNames();
    IntendedParamRule(r, "id", "GET");
  }

  lemma IntendedCrudCreate(r: string)
    requires '/' !in r && IsKept(r)
    ensures IntendedRouteFor(CrudRoutes(r)[2].path, "POST") == CrudRoutes(r)[2]
  {
    MethodNames();
    IntendedCollectionRule(r, "POST");
  }

  lemma IntendedCrudUpdate(r: string)
    requires '/' !in r && IsKept(r)
    ensures IntendedRouteFor(CrudRoutes(r)[3].path, "PUT") == CrudRoutes(r)[3]
  {
    MethodNames();
    IntendedParamRule(r, "id", "PUT");
  }

  lemma IntendedCrudDelete(r: string)
    requires '/' !in r && IsKept(r)
    ensures IntendedRouteFor(CrudRoutes(r)[4].path, "DELETE") == CrudRoutes(r)[4]
  {
    MethodNames();
    IntendedParamRule(r, "id", "DELETE");
  }

  /** The scanner, read as its comments describe it, names every CRUD
      entry exactly as the table does. */
  lemma IntendedCrud(r: string)
    requires '/' !in r && IsKept(r)
    ensures forall e :: e in CrudRoutes(r) ==> IntendedRouteFor(e.path, e.httpMethod) == e
  {
    forall e | e in CrudRoutes(r) ensures IntendedRouteFor(e.path, e.httpMethod) == e {
      var k :| 0 <= k < 5 && CrudRoutes(r)[k] == e;
      if k == 0 {
        IntendedCrudList(r);
      } else if k == 1 {
        IntendedCrudRead(r);
      } else if k == 2 {
        IntendedCrudCreate(r);
      } else if k == 3 {
        IntendedCrudUpdate(r);
      } else {
        IntendedCrudDelete(r);
      }
    }
  }

  /** Every table entry's permission name is its resource followed by "_"
      and an action. */
  lemma UserRoutesPrefixed()
    ensures forall e :: e in UserRoutes() ==> e.resource + "_" <= e.action
  {
    UserRoutesAreCrud();
    CrudRoutesPrefixed("users");
  }

  lemma PermissionRoutesPrefixed()
    ensures forall e :: e in PermissionRoutes() ==> e.resource + "_" <= e.action
  {
    PermissionRoutesAreCrud();
    CrudRoutesPrefixed("permissions");
  }

  lemma ClientRoutesPrefixed()
    ensures forall e :: e in ClientRoutes() ==> e.resource + "_" <= e.action
  {
    ClientRoutesAreCrud();
    CrudRoutesPrefixed("clients");
  }

  lemma LocationRoutesPrefixed()
    ensures forall e :: e in LocationRoutes() ==> e.resource + "_" <= e.action
  {
    LocationRoutesAreCrud();
    CrudRoutesPrefixed("locations");
  }

  lemma RoleRoutesPrefixed()
    ensures forall e :: e in RoleRoutes() ==> e.resource + "_" <= e.action
  {
    RoleRoutesAreCrud();
    RolePermissionsRoute();
    CrudRoutesPrefixed("roles");
    assert RoleRoutes() == RoleRoutes()[..5] + [RoleRoutes()[5]];
    assert "roles" + "_" <= "roles" + "_" + "manage_permissions";
  }

  lemma RoutesFromAppPrefixed()
    ensures forall e :: e in RoutesFromApp() ==> e.resource + "_" <= e.action
  {
    assert "health" + "_" <= "health_read";
    UserRoutesPrefixed();
    RoleRoutesPrefixed();
    PermissionRoutesPrefixed();
    ClientRoutesPrefixed();
    LocationRoutesPrefixed();
  }

  lemma UserRoutesMatchIntended()
    ensures forall e :: e in UserRoutes() ==> IntendedRouteFor(e.path, e.httpMethod) == e
  {
    UserRoutesAreCrud();
    IntendedCrud("users");
  }

  lemma PermissionRoutesMatchIntended()
    ensures forall e :: e in PermissionRoutes() ==> IntendedRouteFor(e.path, e.httpMethod) == e
  {
    PermissionRoutesAreCrud();
    IntendedCrud("permissions");
  }

  lemma ClientRoutesMatchIntended()
    ensures forall e :: e in ClientRoutes() ==> IntendedRouteFor(e.path, e.httpMethod) == e
  {
    ClientRoutesAreCrud();
    IntendedCrud("clients");
  }

  lemma LocationRoutesMatchIntended()
    ensures forall e :: e in LocationRoutes() ==> IntendedRouteFor(e.path, e.httpMethod) == e
  {
    LocationRoutesAreCrud();
    IntendedCrud("locations");
  }

  lemma IntendedRolePermissions()
    ensures IntendedRouteFor(RoleRoutes()[5].path, "POST") == RoleRoutes()[5]
  {
    RolePermissionsRoute();
    MethodNames();
    ParamBetweenSegments("roles", "id", "permissions");
    SegmentCases(ApiPrefix + Join(["roles", ":" + "id", "permissions"]), "POST");
  }

  lemma RoleRoutesMatchIntended()
    ensures forall e :: e in RoleRoutes() ==> IntendedRouteFor(e.path, e.httpMethod) == e
  {
    forall e | e in RoleRoutes() ensures IntendedRouteFor(e.path, e.httpMethod) == e {
      var k :| 0 <= k < 6 && RoleRoutes()[k] == e;
      if k < 5 {
        RoleRoutesAreCrud();
        assert e in CrudRoutes("roles");
        IntendedCrud("roles");
      } else {
        IntendedRolePermissions();
      }
    }
  }

  /** Every table entry except the health check is the route the scanner,
      read as its comments describe it, records for that method and path:
      the table and the scanner agree on every permission name but one. */
  lemma RoutesFromAppMatchIntendedScanner()
    ensures forall e :: e in RoutesFromApp() && e !in HealthRoutes() ==> IntendedRouteFor(e.path, e.httpMethod) == e
  {
    UserRoutesMatchIntended();
    RoleRoutesMatchIntended();
    PermissionRoutesMatchIntended();
    ClientRoutesMatchIntended();
    LocationRoutesMatchIntended();
  }

  /** GET on a collection path is named `resource_list`, by the scanner
      as written and as its comments describe it. */
  lemma CollectionGet(resource: string)
    requires '/' !in resource && IsKept(resource)
    ensures RouteFor(ApiPrefix + Join([resource]), "GET").action == resource + "_" + "list"
    ensures IntendedRouteFor(ApiPrefix + Join([resource]), "GET").action == resource + "_" + "list"
  {
    MethodNames();
    CollectionRule(resource, "GET");
    IntendedCollectionRule(resource, "GET");
  }

  /** The health entry is named health_read, while the scanner, as written
      and as intended, names GET /api/health "health_list". */
  lemma HealthEntryDiffers(e: RouteInfo)
    requires e in HealthRoutes()
    ensures e.action == "health_read" && e.httpMethod == "GET"
    ensures RouteFor(e.path, e.httpMethod).action == "health_list"
    ensures IntendedRouteFor(e.path, e.httpMethod).action == "health_list"
  {
    assert e.path == ApiPrefix + Join(["health"]);
    CollectionGet("health");
    HealthListName();
  }

  lemma HealthListName()
    ensures "health" + "_" + "list" == "health_list"
  {
  }

  /** As written, the scanner names both GET entries of the users group
      "users_list", while the table names them users_list and users_read. */
  lemma UsersReadAsWritten(e: RouteInfo)
    requires e in UserRoutes() && e.httpMethod == "GET"
    ensures RouteFor(e.path, e.httpMethod).action == "users_list"
    ensures e.action == "users_list" || e.action == "users_read"
  {
    UserRoutesAreCrud();
    var k :| 0 <= k < 5 && UserRoutes()[k] == e;
    ParamRouteAsWritten("users", "id");
    UsersListName();
    if k == 0 {
      assert e == CrudRoutes("users")[0];
    } else if k == 1 {
      assert e == CrudRoutes("users")[1];
      UsersNames();
    } else {
      assert false;
    }
  }

  lemma UsersNames()
    ensures "users" + "_" + "read" == "users_read"
  {
  }

  lemma UsersListName()
    ensures "users" + "_" + "list" == "users_list"
  {
  }
}
