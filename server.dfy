/** Where the application mounts its routers (server.js). Only the post
    router of the core is mounted; the category router is declared in the
    repository but mounted nowhere. */
module Server {
  import opened Common
  import opened Cursor
  import opened Routing

  datatype Router = AuthRouter | BlogRouter | DashboardRouter | CategoryRouter

  datatype Mount = Mount(prefix: seq<string>, router: Router)

  /** The mounts in the order they are declared. */
  const Mounts := [
    Mount(["api", "auth"], AuthRouter),
    Mount(["api", "blogs"], BlogRouter),
    Mount(["dashboard"], DashboardRouter)
  ]

  /** A mount path matches the leading segments of a request path, without
      regard to ASCII case. */
  predicate Under(prefix: seq<string>, path: seq<string>) {
    |prefix| <= |path| && forall k :: 0 <= k < |prefix| ==> SameText(prefix[k], path[k])
  }

  /** The router a request path is handed to, with the segments left for
      that router to match. */
  function Mounted(path: seq<string>): (r: Option<(Router, seq<string>)>)
    ensures r.None? <==> forall k :: 0 <= k < |Mounts| ==> !Under(Mounts[k].prefix, path)
    ensures r.Some? ==> exists k :: 0 <= k < |Mounts| && Under(Mounts[k].prefix, path)
                          && r.value == (Mounts[k].router, path[|Mounts[k].prefix|..])
  {
    var i := FirstIndex(Mounts, (m: Mount) => Under(m.prefix, path));
    if i < 0 then None else Some((Mounts[i].router, path[|Mounts[i].prefix|..]))
  }

  /** No request reaches the category router: every category route answers
      as an unknown path. */
  lemma CategoryRouterUnreachable(path: seq<string>)
    ensures Mounted(path).None? || Mounted(path).value.0 != CategoryRouter
  {
  }

  /** Every path under /api/blogs is handed to the post router with the
      rest of its segments. */
  lemma {:induction false} BlogsMounted(rest: seq<string>)
    ensures Mounted(["api", "blogs"] + rest) == Some((BlogRouter, rest))
  {
    var path := ["api", "blogs"] + rest;
    assert path[0] == "api" && path[1] == "blogs";
    assert !SameText("auth", "blogs");
    assert SameText("api", "api") && SameText("blogs", "blogs");
    assert path[2..] == rest;
  }
}
