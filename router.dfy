/** The GET routes of the product router. Express tries the routes in the
    order they were registered and runs the first whose path pattern fits
    the request path. */
module Router {
  import opened Text
  import opened Outcomes
  import opened Catalog
  import opened ProductRoutes

  /** A path pattern: `/`, `/:id` (any one non-empty segment), or one fixed
      segment such as `/statistics`. */
  datatype Pattern = Root | Param | Fixed(segment: string)

  /** The handlers the GET routes lead to. */
  datatype Handler = ListHandler | GetHandler | StatisticsHandler

  datatype Route = Route(pattern: Pattern, handler: Handler)

  /** A request path below the router's mount point is `/` (`None`) or
      `/<segment>` (`Some(segment)`). Like `express.Router()` by default, a
      fixed segment fits whatever the letter case: the segments registered
      here are in lower case, so the path is lower-cased and compared. */
  predicate Fits(pattern: Pattern, path: Option<string>)
  {
    match pattern
    case Root => path.None?
    case Param => path.Some? && path.value != ""
    case Fixed(segment) => path.Some? && Lower(path.value) == segment
  }

  /** The GET routes in the order `ProductsRoutes.js` registers them:
      `/`, then `/:id`, then `/statistics`. */
  const RegisteredGets: seq<Route> :=
    [Route(Root, ListHandler), Route(Param, GetHandler), Route(Fixed("statistics"), StatisticsHandler)]

  /** The same routes with `/statistics` ahead of `/:id`, so that it can be
      reached. */
  const IntendedGets: seq<Route> :=
    [Route(Root, ListHandler), Route(Fixed("statistics"), StatisticsHandler), Route(Param, GetHandler)]

  /** The position of the first route whose pattern fits the path. */
  function FirstFit(routes: seq<Route>, path: Option<string>): (r: Option<nat>)
    ensures r.None? <==> forall j | 0 <= j < |routes| :: !Fits(routes[j].pattern, path)
    ensures r.Some? ==> r.value < |routes| && Fits(routes[r.value].pattern, path)
                        && forall j | 0 <= j < r.value :: !Fits(routes[j].pattern, path)
  {
    if routes == [] then None
    else if Fits(routes[0].pattern, path) then Some(0)
    else match FirstFit(routes[1..], path)
      case None => None
      case Some(i) => Some(i + 1)
  }

  /** What a GET request comes back with: the reply of the handler it
      reached, or no route at all. */
  datatype GetReply = Listed(list: Reply<ListPage>) | Found(product: Reply<Product>)
                    | Counted(stats: Reply<Stats>) | NoRoute

  /** The reply `r` is what handler `h` answers for this request. */
  predicate Runs(h: Handler, r: GetReply, ps: seq<Product>, path: Option<string>, q: Query)
    requires q.limit >= 1
  {
    match h
    case ListHandler => r == Listed(List(ps, q))
    case GetHandler => path.Some? && r == Found(Get(ps, path.value))
    case StatisticsHandler => r == Counted(Statistics(ps))
  }

  /** Runs the handler of the first route that fits; get-by-id takes the
      path segment as its id (and is reached only through a segment). A
      handler runs only when its route fits and no earlier route does. */
  function DispatchGet(routes: seq<Route>, ps: seq<Product>, path: Option<string>, q: Query): (r: GetReply)
    requires q.limit >= 1
    ensures (forall j | 0 <= j < |routes| :: !Fits(routes[j].pattern, path)) ==> r == NoRoute
    ensures r != NoRoute ==>
              exists i | 0 <= i < |routes| ::
                && Fits(routes[i].pattern, path)
                && (forall j | 0 <= j < i :: !Fits(routes[j].pattern, path))
                && Runs(routes[i].handler, r, ps, path, q)
    ensures FirstFit(routes, path).Some?
            && (path.Some? || !routes[FirstFit(routes, path).value].handler.GetHandler?) ==>
              Runs(routes[FirstFit(routes, path).value].handler, r, ps, path, q)
  {
    match FirstFit(routes, path)
    case None => NoRoute
    case Some(i) =>
      match routes[i].handler
      case ListHandler => Listed(List(ps, q))
      case GetHandler => if path.Some? then Found(Get(ps, path.value)) else NoRoute
      case StatisticsHandler => Counted(Statistics(ps))
  }

  /** As registered, `GET /statistics` is taken by `/:id`: it looks for a
      product whose id is "statistics" and, as generated ids never are,
      answers `NotFound`; the statistics handler is never run. */
  lemma {:induction false} StatisticsShadowed(ps: seq<Product>, q: Query)
    requires q.limit >= 1 && !HasId(ps, "statistics")
    ensures DispatchGet(RegisteredGets, ps, Some("statistics"), q)
            == Found(Fail(NotFound(NotFoundMessage("statistics"))))
  {
    assert FirstFit(RegisteredGets, Some("statistics")) == Some(1);
  }

  /** As registered, every GET path other than `/` goes to get-by-id. */
  lemma {:induction false} RegisteredById(ps: seq<Product>, id: string, q: Query)
    requires q.limit >= 1 && id != ""
    ensures DispatchGet(RegisteredGets, ps, Some(id), q) == Found(Get(ps, id))
    ensures DispatchGet(RegisteredGets, ps, None, q) == Listed(List(ps, q))
  {
    assert FirstFit(RegisteredGets, Some(id)) == Some(1);
    assert FirstFit(RegisteredGets, None) == Some(0);
  }

  /** With `/statistics` registered first, `GET /statistics` runs the
      statistics handler. */
  lemma {:induction false} StatisticsReachable(ps: seq<Product>, segment: string, q: Query)
    requires q.limit >= 1 && Lower(segment) == "statistics"
    ensures DispatchGet(IntendedGets, ps, Some(segment), q) == Counted(Statistics(ps))
  {
    assert FirstFit(IntendedGets, Some(segment)) == Some(1);
  }

  /** Moving `/statistics` ahead changes nothing for any path other than
      `/statistics` in some letter case. */
  lemma {:induction false} OnlyStatisticsMoves(ps: seq<Product>, path: Option<string>, q: Query)
    requires q.limit >= 1 && (path.None? || Lower(path.value) != "statistics")
    ensures DispatchGet(IntendedGets, ps, path, q) == DispatchGet(RegisteredGets, ps, path, q)
  {
    if path.None? {
      assert FirstFit(IntendedGets, path) == Some(0) && FirstFit(RegisteredGets, path) == Some(0);
    } else if path.value != "" {
      assert !Fits(IntendedGets[0].pattern, path) && !Fits(IntendedGets[1].pattern, path);
      assert Fits(IntendedGets[2].pattern, path);
      assert FirstFit(IntendedGets, path) == Some(2);
      assert FirstFit(RegisteredGets, path) == Some(1);
    } else {
      assert FirstFit(IntendedGets, path).None? && FirstFit(RegisteredGets, path).None?;
    }
  }
}
