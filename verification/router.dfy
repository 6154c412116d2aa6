/**
 * The path router of package `router` (router/router.go): a table from
 * registered path to the handlers added for it, the paths in registration
 * order, and a chain of middlewares. A request is routed by its number of
 * "/"-separated segments, then dispatched on its HTTP method.
 *
 * Handler functions and middlewares are opaque values of Go; here each is
 * an identifier (`nat`), and a nil handler is `None`.
 */
module Router {
  import opened Wrappers
  import opened GoStrings

  /** One handler added for a path: the HTTP method it answers and the
      function it calls. */
  datatype Handler = Handler(verb: string, handlerFn: nat)

  /** The reasons for which Add panics. */
  datatype Panic = EmptyMethod | EmptyPath | NilHandler | PathStartsWithParam

  /** What ServeHTTP does with a request: call a handler (wrapped by the
      middlewares, outermost first) with the path parameters, or answer
      405 or 404. */
  datatype Decision =
    | Handle(handlerFn: nat, params: map<string, string>, wrappers: seq<nat>)
    | MethodNotAllowed
    | NotFound

  /** isParam: a segment is a parameter exactly when it starts with "{" and
      ends with "}", which needs at least two characters. */
  function IsParam(s: string): (r: bool)
    ensures r <==> |s| >= 2 && s[0] == '{' && s[|s| - 1] == '}'
  {
    assert |s| >= 1 ==> (HasPrefix(s, "{") <==> s[0] == '{') by {
      if |s| >= 1 { assert s[..1] == [s[0]]; }
    }
    assert |s| >= 1 ==> (HasSuffix(s, "}") <==> s[|s| - 1] == '}') by {
      if |s| >= 1 { assert s[|s| - 1..] == [s[|s| - 1]]; }
    }
    HasPrefix(s, "{") && HasSuffix(s, "}")
  }

  /** getParam: the segment without one leading "{" and one trailing "}", so
      a parameter segment is its name wrapped in braces. */
  function GetParam(s: string): (r: string)
    ensures IsParam(s) ==> s == "{" + r + "}"
  {
    var r := TrimSuffix(TrimPrefix(s, "{"), "}");
    if IsParam(s) then
      assert s[..1] == "{";
      var t := s[1..];
      assert TrimPrefix(s, "{") == t;
      assert t[|t| - 1..] == "}";
      assert r == s[1..|s| - 1];
      assert s == [s[0]] + s[1..|s| - 1] + [s[|s| - 1]];
      r
    else
      r
  }

  /** Wrapping any name in braces gives a parameter segment whose name is
      that name, so getParam("{id}") is "id". */
  lemma GetParamOfBraced(x: string)
    ensures IsParam("{" + x + "}")
    ensures GetParam("{" + x + "}") == x
  {
    var s := "{" + x + "}";
    assert s[..1] == "{";
    assert s[|s| - 1..] == "}";
    assert TrimPrefix(s, "{") == x + "}";
    assert (x + "}")[|x + "}"| - 1..] == "}";
    assert (x + "}")[..|x|] == x;
  }

  /** The segments of a path after its first character: strings.Split(path[1:], "/"). */
  function Segments(path: string): (r: seq<string>)
    requires |path| >= 1
  {
    Split(path[1..])
  }

  /** Add's last check: a path longer than one character whose first
      segment is a parameter. */
  function StartsWithParam(path: string): bool
    requires |path| >= 1
  {
    |path| > 1 && IsParam(Segments(path)[0])
  }

  /** Why Add(verb, path, handler) panics, checked in the order of the
      source; None when it does not. */
  function AddPanic(verb: string, path: string, handler: Option<nat>): (r: Option<Panic>)
    ensures r == None <==> verb != "" && path != "" && handler != None && !StartsWithParam(path)
    ensures verb == "" ==> r == Some(EmptyMethod)
    ensures verb != "" && path == "" ==> r == Some(EmptyPath)
    ensures verb != "" && path != "" && handler == None ==> r == Some(NilHandler)
    ensures verb != "" && path != "" && handler != None && StartsWithParam(path) ==> r == Some(PathStartsWithParam)
  {
    if verb == "" then Some(EmptyMethod)
    else if path == "" then Some(EmptyPath)
    else if handler == None then Some(NilHandler)
    else if StartsWithParam(path) then Some(PathStartsWithParam)
    else None
  }

  /** The handlers stored for `path`, none if it was never added. */
  function HandlersOf(routes: map<string, seq<Handler>>, path: string): seq<Handler>
  {
    if path in routes then routes[path] else []
  }

  /** The route table Add builds: `registered` lists the keys of `routes`
      without repetition, no path is empty, and every path has a handler. */
  ghost predicate WellFormedTable(routes: map<string, seq<Handler>>, registered: seq<string>)
  {
    && (forall i, j :: 0 <= i < j < |registered| ==> registered[i] != registered[j])
    && (forall p :: p in routes <==> p in registered)
    && (forall i :: 0 <= i < |registered| ==> registered[i] != "")
    && (forall p :: p in routes ==> routes[p] != [])
  }

  /** A route segment that is not a parameter and differs from the request
      segment at the same position. */
  predicate LiteralMismatch(rPart: string, part: string)
  {
    !IsParam(rPart) && part != rPart
  }

  /** The first position at or after `from` where a literal route segment
      differs from the request, or the segment count if there is none: where
      findRoute's inner loop breaks. */
  function FirstMismatch(rParts: seq<string>, parts: seq<string>, from: nat): (r: nat)
    requires |rParts| == |parts| && from <= |rParts|
    ensures from <= r <= |rParts|
    ensures forall i :: from <= i < r ==> !LiteralMismatch(rParts[i], parts[i])
    ensures r < |rParts| ==> LiteralMismatch(rParts[r], parts[r])
    decreases |rParts| - from
  {
    if from == |rParts| then from
    else if LiteralMismatch(rParts[from], parts[from]) then from
    else FirstMismatch(rParts, parts, from + 1)
  }

  /** The parameters bound by the first `n` route segments: each "{name}"
      segment binds its name to the request segment at its position, a
      later binding of the same name replacing an earlier one. */
  function BindUpTo(rParts: seq<string>, parts: seq<string>, n: nat): map<string, string>
    requires |rParts| == |parts| && n <= |rParts|
  {
    if n == 0 then map[]
    else
      var m := BindUpTo(rParts, parts, n - 1);
      if IsParam(rParts[n - 1]) then m[GetParam(rParts[n - 1]) := parts[n - 1]] else m
  }

  /** The parameters findRoute returns for a route of the request's length:
      those bound before the first literal mismatch. */
  function Bind(rParts: seq<string>, parts: seq<string>): map<string, string>
    requires |rParts| == |parts|
  {
    BindUpTo(rParts, parts, FirstMismatch(rParts, parts, 0))
  }

  /** findRoute over the registered paths in order: the first whose segment
      count equals the request's, with its parameters, whatever its literal
      segments say; ("", no parameters) when none has that count. */
  function MatchRoute(registered: seq<string>, parts: seq<string>): (string, map<string, string>)
    requires forall i :: 0 <= i < |registered| ==> registered[i] != ""
  {
    if registered == [] then ("", map[])
    else
      var rParts := Segments(registered[0]);
      if |parts| == |rParts| then (registered[0], Bind(rParts, parts))
      else MatchRoute(registered[1..], parts)
  }

  /** The position of the first registered path with `count` segments. */
  function FirstWithCount(registered: seq<string>, count: nat): (r: Option<nat>)
    requires forall i :: 0 <= i < |registered| ==> registered[i] != ""
    ensures r == None <==> forall i :: 0 <= i < |registered| ==> |Segments(registered[i])| != count
    ensures r != None ==>
      r.value < |registered| && |Segments(registered[r.value])| == count
      && forall i :: 0 <= i < r.value ==> |Segments(registered[i])| != count
  {
    if registered == [] then None
    else if |Segments(registered[0])| == count then Some(0)
    else
      match FirstWithCount(registered[1..], count)
      case None => None
      case Some(i) => Some(i + 1)
  }

  /** The position of the first handler that answers `verb`. */
  function FirstWithVerb(handlers: seq<Handler>, verb: string): (r: Option<nat>)
    ensures r == None <==> forall i :: 0 <= i < |handlers| ==> handlers[i].verb != verb
    ensures r != None ==>
      r.value < |handlers| && handlers[r.value].verb == verb
      && forall i :: 0 <= i < r.value ==> handlers[i].verb != verb
  {
    if handlers == [] then None
    else if handlers[0].verb == verb then Some(0)
    else
      match FirstWithVerb(handlers[1..], verb)
      case None => None
      case Some(i) => Some(i + 1)
  }

  /** ServeHTTP's decision for a request on `path` with method `verb`. */
  function Dispatch(routes: map<string, seq<Handler>>, registered: seq<string>, middlewares: seq<nat>,
                    path: string, verb: string): Decision
    requires |path| >= 1
    requires forall i :: 0 <= i < |registered| ==> registered[i] != ""
  {
    var (route, params) := MatchRoute(registered, Segments(path));
    if route !in routes then NotFound
    else
      match FirstWithVerb(routes[route], verb)
      case Some(i) => Handle(routes[route][i].handlerFn, params, middlewares)
      case None => if routes[route] == [] then NotFound else MethodNotAllowed
  }

  /** The route findRoute picks is the first registered path with the
      request's segment count, and the empty route exactly when there is
      none; literal segments play no part in the choice. */
  lemma {:induction false} MatchRouteFirst(registered: seq<string>, parts: seq<string>)
    requires forall i :: 0 <= i < |registered| ==> registered[i] != ""
    ensures var (route, params) := MatchRoute(registered, parts);
      match FirstWithCount(registered, |parts|)
      case None => route == "" && params == map[]
      case Some(j) => route == registered[j] && params == Bind(Segments(route), parts)
  {
    if registered != [] && |parts| != |Segments(registered[0])| {
      MatchRouteFirst(registered[1..], parts);
    }
  }

  /** A parameter name is bound by the first `n` segments exactly when some
      segment among them is a parameter of that name. */
  lemma {:induction false} BindUpToKeys(rParts: seq<string>, parts: seq<string>, n: nat)
    requires |rParts| == |parts| && n <= |rParts|
    ensures forall k :: k in BindUpTo(rParts, parts, n) <==>
      exists i :: 0 <= i < n && IsParam(rParts[i]) && GetParam(rParts[i]) == k
  {
    if n > 0 {
      BindUpToKeys(rParts, parts, n - 1);
      var last := rParts[n - 1];
      var m := BindUpTo(rParts, parts, n - 1);
      forall k
        ensures k in BindUpTo(rParts, parts, n) <==>
          exists i :: 0 <= i < n && IsParam(rParts[i]) && GetParam(rParts[i]) == k
      {
        if IsParam(last) && GetParam(last) == k {
          assert k in BindUpTo(rParts, parts, n);
          assert IsParam(rParts[n - 1]) && GetParam(rParts[n - 1]) == k;
        } else {
          assert k in BindUpTo(rParts, parts, n) <==> k in m;
          if k in m {
            var i :| 0 <= i < n - 1 && IsParam(rParts[i]) && GetParam(rParts[i]) == k;
            assert 0 <= i < n;
          }
        }
      }
    }
  }

  /** The value bound to a name is the request segment at the last position,
      among the first `n`, holding a parameter of that name. */
  lemma {:induction false} BindUpToValue(rParts: seq<string>, parts: seq<string>, n: nat, i: nat)
    requires |rParts| == |parts| && i < n <= |rParts|
    requires IsParam(rParts[i])
    requires forall j :: i < j < n && IsParam(rParts[j]) ==> GetParam(rParts[j]) != GetParam(rParts[i])
    ensures GetParam(rParts[i]) in BindUpTo(rParts, parts, n)
    ensures BindUpTo(rParts, parts, n)[GetParam(rParts[i])] == parts[i]
  {
    var name := GetParam(rParts[i]);
    if n - 1 > i {
      BindUpToValue(rParts, parts, n - 1, i);
      var last := rParts[n - 1];
      assert IsParam(last) ==> GetParam(last) != name;
    }
  }

  /** The parameters returned with a route: the names of the parameter
      segments before the first literal mismatch, each bound to the request
      segment at the last such position carrying that name. */
  lemma BindParams(rParts: seq<string>, parts: seq<string>, i: nat)
    requires |rParts| == |parts|
    ensures forall k :: k in Bind(rParts, parts) <==>
      exists j :: 0 <= j < FirstMismatch(rParts, parts, 0) && IsParam(rParts[j]) && GetParam(rParts[j]) == k
    ensures i < FirstMismatch(rParts, parts, 0) && IsParam(rParts[i])
      && (forall j :: i < j < FirstMismatch(rParts, parts, 0) && IsParam(rParts[j]) ==> GetParam(rParts[j]) != GetParam(rParts[i]))
      ==> GetParam(rParts[i]) in Bind(rParts, parts) && Bind(rParts, parts)[GetParam(rParts[i])] == parts[i]
  {
    var n := FirstMismatch(rParts, parts, 0);
    BindUpToKeys(rParts, parts, n);
    if i < n && IsParam(rParts[i])
      && (forall j :: i < j < n && IsParam(rParts[j]) ==> GetParam(rParts[j]) != GetParam(rParts[i]))
    {
      BindUpToValue(rParts, parts, n, i);
    }
  }

  /** A request is answered 404 exactly when no registered path has its
      segment count; 405 exactly when the first such path has no handler for
      its method; otherwise the first handler of that path for its method is
      called. */
  lemma DispatchOutcome(routes: map<string, seq<Handler>>, registered: seq<string>, middlewares: seq<nat>,
                        path: string, verb: string)
    requires |path| >= 1
    requires WellFormedTable(routes, registered)
    ensures var d := Dispatch(routes, registered, middlewares, path, verb);
      match FirstWithCount(registered, |Segments(path)|)
      case None => d == NotFound
      case Some(j) =>
        var handlers := routes[registered[j]];
        match FirstWithVerb(handlers, verb)
        case None => d == MethodNotAllowed
        case Some(h) =>
          d == Handle(handlers[h].handlerFn, Bind(Segments(registered[j]), Segments(path)), middlewares)
  {
    MatchRouteFirst(registered, Segments(path));
    var j := FirstWithCount(registered, |Segments(path)|);
    if j != None {
      assert registered[j.value] in routes;
    }
  }

  /** Registering a further path never changes where an already routable
      request goes: the table is searched in registration order. */
  lemma {:induction false} MatchRouteAppend(registered: seq<string>, path: string, parts: seq<string>)
    requires forall i :: 0 <= i < |registered| ==> registered[i] != ""
    requires path != ""
    ensures MatchRoute(registered, parts).0 != "" ==>
      MatchRoute(registered + [path], parts) == MatchRoute(registered, parts)
    ensures MatchRoute(registered, parts).0 == "" ==>
      MatchRoute(registered + [path], parts) == MatchRoute([path], parts)
  {
    if registered == [] {
      assert registered + [path] == [path];
    } else {
      assert (registered + [path])[1..] == registered[1..] + [path];
      if |parts| != |Segments(registered[0])| {
        MatchRouteAppend(registered[1..], path, parts);
      }
    }
  }

  /** So a path whose segment count is already registered is never chosen:
      the earlier path of that count shadows it. */
  lemma ShadowedPath(registered: seq<string>, path: string, parts: seq<string>)
    requires forall i :: 0 <= i < |registered| ==> registered[i] != ""
    requires path != "" && path !in registered
    requires exists i :: 0 <= i < |registered| && |Segments(registered[i])| == |Segments(path)|
    ensures MatchRoute(registered + [path], parts).0 != path
  {
    MatchRouteFirst(registered, parts);
    MatchRouteAppend(registered, path, parts);
    if MatchRoute(registered, parts).0 == "" {
      assert FirstWithCount(registered, |parts|) == None;
      assert |parts| != |Segments(path)|;
      assert MatchRoute([path], parts).0 == "" by {
        assert [path][1..] == [];
      }
    } else {
      var j := FirstWithCount(registered, |parts|).value;
      assert registered[j] in registered;
    }
  }

  class Router {
    var routes: map<string, seq<Handler>>
    var registered: seq<string>
    var middlewares: seq<nat>

    ghost predicate Valid()
      reads this
    {
      WellFormedTable(routes, registered)
    }

    /** New: an empty table and no middleware. */
    constructor ()
      ensures Valid()
      ensures routes == map[] && registered == [] && middlewares == []
    {
      routes := map[];
      registered := [];
      middlewares := [];
    }

    /** Use appends a middleware to the chain. */
    method Use(m: nat)
      modifies this
      ensures middlewares == old(middlewares) + [m]
      ensures routes == old(routes) && registered == old(registered)
    {
      middlewares := middlewares + [m];
    }

    /** Add refuses an empty method, an empty path, a nil handler and a
        path whose first segment is a parameter, leaving the table as it
        was; otherwise it appends the handler to the path's list, and the
        path to `registered` the first time it is added. */
    method Add(verb: string, path: string, handler: Option<nat>) returns (panic: Option<Panic>)
      requires Valid()
      modifies this
      ensures Valid()
      ensures panic == AddPanic(verb, path, handler)
      ensures middlewares == old(middlewares)
      ensures panic != None ==> routes == old(routes) && registered == old(registered)
      ensures panic == None ==>
        routes == old(routes)[path := HandlersOf(old(routes), path) + [Handler(verb, handler.value)]]
      ensures panic == None && path in old(routes) ==> registered == old(registered)
      ensures panic == None && path !in old(routes) ==> registered == old(registered) + [path]
    {
      if verb == "" {
        return Some(EmptyMethod);
      }
      if path == "" {
        return Some(EmptyPath);
      }
      if handler == None {
        return Some(NilHandler);
      }
      if |path| > 1 && IsParam(Split(path[1..])[0]) {
        return Some(PathStartsWithParam);
      }
      var handlers: seq<Handler>;
      if path in routes {
        handlers := routes[path];
      } else {
        handlers := [];
        registered := registered + [path];
      }
      var h := Handler(verb, handler.value);
      handlers := handlers + [h];
      routes := routes[path := handlers];
      panic := None;
    }

    /** findRoute: the first registered path with the request's segment
        count, and the parameters its segments bind before the first
        literal mismatch. */
    method FindRoute(path: string) returns (route: string, params: map<string, string>)
      requires Valid() && |path| >= 1
      ensures (route, params) == MatchRoute(registered, Segments(path))
    {
      var parts := Split(path[1..]);
      var k := 0;
      while k < |registered|
        invariant 0 <= k <= |registered|
        invariant MatchRoute(registered[k..], parts) == MatchRoute(registered, parts)
      {
        var r := registered[k];
        assert registered[k..][0] == r && registered[k..][1..] == registered[k + 1..];
        var rParts := Split(r[1..]);
        if |parts| == |rParts| {
          params := map[];
          var i := 0;
          while i < |rParts|
            invariant 0 <= i <= |rParts|
            invariant forall j :: 0 <= j < i ==> !LiteralMismatch(rParts[j], parts[j])
            invariant params == BindUpTo(rParts, parts, i)
          {
            if !IsParam(rParts[i]) && parts[i] != rParts[i] {
              break;
            }
            if IsParam(rParts[i]) {
              params := params[GetParam(rParts[i]) := parts[i]];
            }
            i := i + 1;
          }
          assert i == FirstMismatch(rParts, parts, 0);
          return r, params;
        }
        k := k + 1;
      }
      return "", map[];
    }

    /** The middleware loop of ServeHTTP: each middleware, from the last
        added to the first, wraps the handler built so far, so the first
        added ends up outermost. The result lists the wrappers from the
        outermost in. */
    method Chain() returns (wrappers: seq<nat>)
      ensures |wrappers| == |middlewares|
      ensures forall i :: 0 <= i < |wrappers| ==> wrappers[i] == middlewares[i]
    {
      wrappers := [];
      var w := |middlewares| - 1;
      while w >= 0
        invariant -1 <= w < |middlewares|
        invariant wrappers == middlewares[w + 1..]
        decreases w + 1
      {
        wrappers := [middlewares[w]] + wrappers;
        w := w - 1;
      }
    }

    /** ServeHTTP: the first handler of the found route whose method is the
        request's, wrapped by the middlewares with the first added outermost;
        405 when the route has handlers for other methods only; 404 when no
        route is found. */
    method ServeHTTP(path: string, verb: string) returns (d: Decision)
      requires Valid() && |path| >= 1
      ensures d == Dispatch(routes, registered, middlewares, path, verb)
    {
      var route, params := FindRoute(path);
      var methodNotAllowed := false;
      if route in routes {
        var handlers := routes[route];
        assert Dispatch(routes, registered, middlewares, path, verb) ==
          match FirstWithVerb(handlers, verb)
          case Some(i) => Handle(handlers[i].handlerFn, params, middlewares)
          case None => MethodNotAllowed;
        var i := 0;
        while i < |handlers|
          invariant 0 <= i <= |handlers|
          invariant forall j :: 0 <= j < i ==> handlers[j].verb != verb
          invariant methodNotAllowed <==> i > 0
        {
          if handlers[i].verb != verb {
            methodNotAllowed := true;
            i := i + 1;
            continue;
          }
          var wrappers := Chain();
          assert FirstWithVerb(handlers, verb) == Some(i);
          return Handle(handlers[i].handlerFn, params, wrappers);
        }
      }
      if methodNotAllowed {
        return MethodNotAllowed;
      }
      return NotFound;
    }

    /** HasRoute holds exactly when some registered path has as many
        segments as the request. */
    method HasRoute(path: string) returns (b: bool)
      requires Valid() && |path| >= 1
      ensures b <==> exists i :: 0 <= i < |registered| && |Segments(registered[i])| == |Segments(path)|
    {
      var r, _ := FindRoute(path);
      MatchRouteFirst(registered, Segments(path));
      b := r != "";
    }
  }

  /** The segments of "/" followed by separator-free pieces joined by "/"
      are those pieces. */
  lemma SegmentsOfJoin(parts: seq<string>)
    requires |parts| >= 1
    requires forall i :: 0 <= i < |parts| ==> Slash !in parts[i]
    ensures Segments([Slash] + Join(parts)) == parts
  {
    assert ([Slash] + Join(parts))[1..] == Join(parts);
    SplitJoin(parts);
  }

  /** The table holding one GET handler for "/service/{name}". */
  method ServiceRouter() returns (router: Router)
    ensures fresh(router) && router.Valid()
    ensures router.routes == map["/service/{name}" := [Handler("GET", 1)]]
    ensures router.registered == ["/service/{name}"] && router.middlewares == []
  {
    router := new Router();
    assert "service/{name}" == Join(["service", "{name}"]);
    SegmentsOfJoin(["service", "{name}"]);
    assert "/service/{name}" == [Slash] + "service/{name}";
    assert Segments("/service/{name}")[0] == "service";
    assert !IsParam("service") by {
      assert "service"[..1] != "{";
    }
    assert AddPanic("GET", "/service/{name}", Some(1)) == None;
    var p := router.Add("GET", "/service/{name}", Some(1));
    assert p == None;
    assert HandlersOf(map[], "/service/{name}") == [];
    assert router.routes == map[]["/service/{name}" := [] + [Handler("GET", 1)]];
    assert [] + [Handler("GET", 1)] == [Handler("GET", 1)];
  }

  /** A request of the route's shape binds the parameter by position. */
  method RouteBindsParameter() returns (hit: Decision)
    ensures hit == Handle(1, map["name" := "abc"], [])
  {
    var router := ServiceRouter();
    var rParts := ["service", "{name}"];
    assert "service/{name}" == Join(rParts);
    SegmentsOfJoin(rParts);
    GetParamOfBraced("name");
    assert "{" + "name" + "}" == "{name}";
    var parts := ["service", "abc"];
    assert "service/abc" == Join(parts);
    SegmentsOfJoin(parts);
    assert FirstMismatch(rParts, parts, 0) == 2;
    assert Bind(rParts, parts) == map["name" := "abc"];
    DispatchOutcome(router.routes, router.registered, [], "/service/abc", "GET");
    hit := router.ServeHTTP("/service/abc", "GET");
  }

  /** Literal segments are not enforced: a request with another first
      segment reaches the same handler, with no parameter bound because the
      literal "service" is not matched. */
  method RouteIgnoresLiterals() returns (other: Decision)
    ensures other == Handle(1, map[], [])
  {
    var router := ServiceRouter();
    var rParts := ["service", "{name}"];
    assert "service/{name}" == Join(rParts);
    SegmentsOfJoin(rParts);
    var parts := ["other", "abc"];
    assert "other/abc" == Join(parts);
    SegmentsOfJoin(parts);
    assert !IsParam("service") by {
      assert "service"[..1] != "{";
    }
    assert FirstMismatch(rParts, parts, 0) == 0;
    DispatchOutcome(router.routes, router.registered, [], "/other/abc", "GET");
    other := router.ServeHTTP("/other/abc", "GET");
  }

  /** Another method on the route's shape gets 405. */
  method RouteWrongMethod() returns (wrongVerb: Decision)
    ensures wrongVerb == MethodNotAllowed
  {
    var router := ServiceRouter();
    assert "service/{name}" == Join(["service", "{name}"]);
    SegmentsOfJoin(["service", "{name}"]);
    assert "service/abc" == Join(["service", "abc"]);
    SegmentsOfJoin(["service", "abc"]);
    DispatchOutcome(router.routes, router.registered, [], "/service/abc", "POST");
    wrongVerb := router.ServeHTTP("/service/abc", "POST");
  }

  /** A request with one segment more than any route gets 404. */
  method RouteTooLong() returns (tooLong: Decision)
    ensures tooLong == NotFound
  {
    var router := ServiceRouter();
    assert "service/{name}" == Join(["service", "{name}"]);
    SegmentsOfJoin(["service", "{name}"]);
    assert "service/abc/x" == Join(["service", "abc", "x"]);
    SegmentsOfJoin(["service", "abc", "x"]);
    DispatchOutcome(router.routes, router.registered, [], "/service/abc/x", "GET");
    tooLong := router.ServeHTTP("/service/abc/x", "GET");
  }

  /** A path whose first segment is a parameter is refused. */
  method AddRefusesLeadingParam() returns (refused: Option<Panic>)
    ensures refused == Some(PathStartsWithParam)
  {
    var router := new Router();
    assert "{id}" == Join(["{id}"]);
    SegmentsOfJoin(["{id}"]);
    GetParamOfBraced("id");
    assert "{" + "id" + "}" == "{id}";
    refused := router.Add("GET", "/{id}", Some(2));
  }
}
