/**
 * The projects API client (src/app/core/projects/project.service.ts): the query string of the
 * paged listing, the item and collection routes, and the five requests the service issues.
 */
module ProjectService {
  import opened Wrappers
  import opened Strings
  import opened Http

  /** A project as the API returns it; `value` and `endDate` are None when null or absent. */
  datatype Project = Project(
    id: nat,
    name: string,
    description: string,
    value: Option<int>,
    active: bool,
    startDate: string,
    endDate: Option<string>)

  /** The body of a create or update (`Partial<Project>`); the project's `value` is taken as an integer. */
  datatype ProjectPayload = ProjectPayload(
    name: string,
    description: string,
    value: Option<int>,
    active: bool,
    startDate: Option<string>,
    endDate: Option<string>)

  /** `ListProjectsParams`; every member may be absent, and `active` may also be null (both None). */
  datatype ListParams = ListParams(
    active: Option<bool>,
    q: Option<string>,
    page: Option<int>,
    size: Option<int>,
    sort: Option<string>)

  const DefaultPage := 0
  const DefaultSize := 10
  const ListKeys: set<string> := {"active", "q", "page", "size", "sort"}

  // --------------------------------------------------------------- query

  /** The value `HttpParams.get(key)` would return: the first entry with that key. */
  function QueryValue(query: seq<(string, string)>, key: string): (r: Option<string>)
    ensures r.Some? ==> (key, r.value) in query
    ensures r.None? ==> forall i :: 0 <= i < |query| ==> query[i].0 != key
  {
    if query == [] then None
    else if query[0].0 == key then Some(query[0].1)
    else QueryValue(query[1..], key)
  }

  lemma {:induction false} QueryValueAppend(a: seq<(string, string)>, b: seq<(string, string)>, key: string)
    ensures QueryValue(a + b, key) == if QueryValue(a, key).Some? then QueryValue(a, key) else QueryValue(b, key)
  {
    if a == [] {
      assert a + b == b;
    } else {
      assert (a + b)[1..] == a[1..] + b;
      QueryValueAppend(a[1..], b, key);
    }
  }

  /** One `set(key, value)` when `present`, nothing otherwise. */
  function Entry(present: bool, key: string, value: string): seq<(string, string)> {
    if present then [(key, value)] else []
  }

  /** `String(b)` */
  function BoolToString(b: bool): string {
    if b then "true" else "false"
  }

  /** Every key of `query` belongs to `keys`. */
  predicate KeysIn(query: seq<(string, string)>, keys: set<string>) {
    forall i :: 0 <= i < |query| ==> query[i].0 in keys
  }

  /** No key of `query` appears twice. */
  predicate DistinctKeys(query: seq<(string, string)>) {
    forall i, j :: 0 <= i < j < |query| ==> query[i].0 != query[j].0
  }

  /** Setting a key the query does not hold yet keeps the keys distinct. */
  lemma AddFreshKey(query: seq<(string, string)>, keys: set<string>, extra: seq<(string, string)>, key: string)
    requires KeysIn(query, keys) && DistinctKeys(query) && key !in keys
    requires |extra| <= 1 && forall i :: 0 <= i < |extra| ==> extra[i].0 == key
    ensures KeysIn(query + extra, keys + {key}) && DistinctKeys(query + extra)
  {
  }

  /** The five listing keys are pairwise different. */
  lemma ListKeysDiffer()
    ensures "active" != "q" && "active" != "page" && "active" != "size" && "active" != "sort"
    ensures "q" != "page" && "q" != "size" && "q" != "sort"
    ensures "page" != "size" && "page" != "sort" && "size" != "sort"
  {
    assert |"active"| == 6 && |"q"| == 1 && |"page"| == 4 && |"size"| == 4 && |"sort"| == 4;
    assert "page"[0] == 'p' && "size"[0] == 's' && "sort"[0] == 's';
    assert "size"[1] == 'i' && "sort"[1] == 'o';
  }

  /** Five optional pieces keyed `active`, `q`, `page`, `size`, `sort` give distinct listing keys. */
  lemma PiecesHaveDistinctKeys(
    hasActive: bool, active: string, hasQ: bool, q: string, page: string, size: string, hasSort: bool, sort: string)
    ensures var r := Entry(hasActive, "active", active) + Entry(hasQ, "q", q) + [("page", page)] + [("size", size)]
      + Entry(hasSort, "sort", sort);
      KeysIn(r, ListKeys) && DistinctKeys(r)
  {
    var a, b, c, d, e := Entry(hasActive, "active", active), Entry(hasQ, "q", q), [("page", page)], [("size", size)],
      Entry(hasSort, "sort", sort);
    ListKeysDiffer();
    var k1 := {} + {"active"};
    var k2 := k1 + {"q"};
    var k3 := k2 + {"page"};
    var k4 := k3 + {"size"};
    AddFreshKey([], {}, a, "active");
    assert [] + a == a;
    AddFreshKey(a, k1, b, "q");
    AddFreshKey(a + b, k2, c, "page");
    AddFreshKey(a + b + c, k3, d, "size");
    AddFreshKey(a + b + c + d, k4, e, "sort");
    assert k4 + {"sort"} == ListKeys;
  }

  /** The query of `list(params)`, in the order the parameters are set. */
  function ListQuery(params: ListParams): (r: seq<(string, string)>)
    ensures KeysIn(r, ListKeys)
    ensures DistinctKeys(r)
  {
    var active, q, sort := params.active.GetOr(false), params.q.GetOr(""), params.sort.GetOr("");
    var page, size := IntToString(params.page.GetOr(DefaultPage)), IntToString(params.size.GetOr(DefaultSize));
    PiecesHaveDistinctKeys(params.active.Some?, BoolToString(active), Truthy(params.q), q, page, size, Truthy(params.sort), sort);
    Entry(params.active.Some?, "active", BoolToString(active))
    + Entry(Truthy(params.q), "q", q)
    + [("page", page)]
    + [("size", size)]
    + Entry(Truthy(params.sort), "sort", sort)
  }

  /**
   * What each listing parameter comes to: `page` and `size` always present with their defaults,
   * `active` exactly when given (as "true"/"false"), `q` and `sort` exactly when non-empty.
   */
  lemma {:induction false} ListQueryValues(params: ListParams)
    ensures QueryValue(ListQuery(params), "page") == Some(IntToString(params.page.GetOr(DefaultPage)))
    ensures QueryValue(ListQuery(params), "size") == Some(IntToString(params.size.GetOr(DefaultSize)))
    ensures QueryValue(ListQuery(params), "active") ==
      if params.active.Some? then Some(BoolToString(params.active.value)) else None
    ensures QueryValue(ListQuery(params), "q") == if Truthy(params.q) then Some(params.q.value) else None
    ensures QueryValue(ListQuery(params), "sort") == if Truthy(params.sort) then Some(params.sort.value) else None
  {
    ListKeysDiffer();
    ListQueryLookup(params, "page");
    ListQueryLookup(params, "size");
    ListQueryLookup(params, "active");
    ListQueryLookup(params, "q");
    ListQueryLookup(params, "sort");
  }

  /** A lookup in the listing query is the first hit among its five optional pieces. */
  lemma ListQueryLookup(params: ListParams, key: string)
    ensures var a, q, p, s, o :=
        Entry(params.active.Some?, "active", BoolToString(params.active.GetOr(false))),
        Entry(Truthy(params.q), "q", params.q.GetOr("")),
        [("page", IntToString(params.page.GetOr(DefaultPage)))],
        [("size", IntToString(params.size.GetOr(DefaultSize)))],
        Entry(Truthy(params.sort), "sort", params.sort.GetOr(""));
      QueryValue(ListQuery(params), key) ==
        if QueryValue(a, key).Some? then QueryValue(a, key)
        else if QueryValue(q, key).Some? then QueryValue(q, key)
        else if QueryValue(p, key).Some? then QueryValue(p, key)
        else if QueryValue(s, key).Some? then QueryValue(s, key)
        else QueryValue(o, key)
  {
    var a := Entry(params.active.Some?, "active", BoolToString(params.active.GetOr(false)));
    var q := Entry(Truthy(params.q), "q", params.q.GetOr(""));
    var p := [("page", IntToString(params.page.GetOr(DefaultPage)))];
    var s := [("size", IntToString(params.size.GetOr(DefaultSize)))];
    var o := Entry(Truthy(params.sort), "sort", params.sort.GetOr(""));
    assert ListQuery(params) == (((a + q) + p) + s) + o;
    QueryValueAppend(((a + q) + p) + s, o, key);
    QueryValueAppend((a + q) + p, s, key);
    QueryValueAppend(a + q, p, key);
    QueryValueAppend(a, q, key);
  }

  /** With no parameters at all the query is exactly page=0&size=10. */
  lemma EmptyParamsQuery()
    ensures ListQuery(ListParams(None, None, None, None, None)) == [("page", "0"), ("size", "10")]
  {
    assert IntToString(0) == "0";
    assert IntToString(10) == "10" by {
      assert NatToString(10) == NatToString(1) + [DigitChar(0)];
    }
  }

  // -------------------------------------------------------------- routes

  const CollectionRoute := "/projects"

  /** `/projects/${id}`: the collection route, a slash, and the decimal id, which can be read back. */
  function ItemRoute(id: nat): (r: string)
    ensures |r| > |CollectionRoute| + 1 && r[..|CollectionRoute| + 1] == CollectionRoute + "/"
    ensures AllDigits(r[|CollectionRoute| + 1..]) && ParseNat(r[|CollectionRoute| + 1..]) == id
  {
    var r := CollectionRoute + "/" + NatToString(id);
    assert r[|CollectionRoute| + 1..] == NatToString(id);
    r
  }

  /** Distinct ids have distinct routes. */
  lemma ItemRouteInjective(a: nat, b: nat)
    requires ItemRoute(a) == ItemRoute(b)
    ensures a == b
  {
  }

  // ------------------------------------------------------------ requests

  function ListRequest(params: ListParams): Request<ProjectPayload> {
    NewRequest(Get, CollectionRoute, ListQuery(params), None)
  }

  function GetByIdRequest(id: nat): Request<ProjectPayload> {
    NewRequest(Get, ItemRoute(id), [], None)
  }

  function CreateRequest(payload: ProjectPayload): Request<ProjectPayload> {
    NewRequest(Post, CollectionRoute, [], Some(payload))
  }

  function UpdateRequest(id: nat, payload: ProjectPayload): Request<ProjectPayload> {
    NewRequest(Put, ItemRoute(id), [], Some(payload))
  }

  function DeleteRequest(id: nat): Request<ProjectPayload> {
    NewRequest(Delete, ItemRoute(id), [], None)
  }

  /**
   * The five calls: the listing and create go to the collection, the other three to the item
   * route; only the listing carries a query; only create and update carry a body; no call sets a
   * header.
   */
  lemma RequestShapes(params: ListParams, id: nat, payload: ProjectPayload)
    ensures ListRequest(params).verb == Get && ListRequest(params).url == CollectionRoute
    ensures ListRequest(params).query == ListQuery(params) && ListRequest(params).body == None
    ensures GetByIdRequest(id).verb == Get && GetByIdRequest(id).url == ItemRoute(id)
    ensures GetByIdRequest(id).query == [] && GetByIdRequest(id).body == None
    ensures CreateRequest(payload).verb == Post && CreateRequest(payload).url == CollectionRoute
    ensures CreateRequest(payload).query == [] && CreateRequest(payload).body == Some(payload)
    ensures UpdateRequest(id, payload).verb == Put && UpdateRequest(id, payload).url == ItemRoute(id)
    ensures UpdateRequest(id, payload).query == [] && UpdateRequest(id, payload).body == Some(payload)
    ensures DeleteRequest(id).verb == Delete && DeleteRequest(id).url == ItemRoute(id)
    ensures DeleteRequest(id).query == [] && DeleteRequest(id).body == None
    ensures ListRequest(params).headers == GetByIdRequest(id).headers == CreateRequest(payload).headers
      == UpdateRequest(id, payload).headers == DeleteRequest(id).headers == map[]
  {
  }

  class ProjectService {
    const http: HttpClient<ProjectPayload>

    constructor (http: HttpClient<ProjectPayload>)
      ensures this.http == http
    {
      this.http := http;
    }

    method List(params: ListParams)
      modifies http
      ensures http.sent == old(http.sent) + [ListRequest(params)]
    {
      http.Send(ListRequest(params));
    }

    method GetById(id: nat)
      modifies http
      ensures http.sent == old(http.sent) + [GetByIdRequest(id)]
    {
      http.Send(GetByIdRequest(id));
    }

    method Create(payload: ProjectPayload)
      modifies http
      ensures http.sent == old(http.sent) + [CreateRequest(payload)]
    {
      http.Send(CreateRequest(payload));
    }

    method Update(id: nat, payload: ProjectPayload)
      modifies http
      ensures http.sent == old(http.sent) + [UpdateRequest(id, payload)]
    {
      http.Send(UpdateRequest(id, payload));
    }

    method Delete(id: nat)
      modifies http
      ensures http.sent == old(http.sent) + [DeleteRequest(id)]
    {
      http.Send(DeleteRequest(id));
    }
  }
}
