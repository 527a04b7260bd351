/**
 * `HttpServerRouteBuilder`: resolves a request against the configured route fragments,
 * merges the matches into one effective route, validates it and, when the route declares
 * an input schema, composes the request's DTO through the registered DTO builders and the
 * schema composer.
 *
 * The deep-merge, the schema composer and the DTO builders are injected collaborators and
 * appear here as function values.
 */
module RouteBuilder {
  import opened Wrappers
  import opened JsValues
  import opened RoutePattern

  /** A configured route fragment. The matcher reads `url` and `method` (absent is `None`);
      every other key (`endpoint`, `middleware`, `input`, `dto`, `action`, ...) is in `props`. */
  datatype Fragment = Fragment(url: Option<string>, httpMethod: Option<string>, props: Object)

  function Endpoint(f: Fragment): JsValue
  {
    Get(f.props, "endpoint")
  }

  /** The `routes` argument of `build`. */
  datatype RouteTable =
    | Routes(entries: seq<(string, Fragment)>)  // an object: its entries in enumeration order
    | NullRoutes                                // `null`: of type 'object', but `for…in` visits nothing
    | NotAnObject                               // undefined, a string, number, boolean or function

  /** The request as the route builder sees it; `data` stands for everything only the DTO
      builders read (path segments, query, body, headers). */
  datatype Request = Request(url: string, httpMethod: string, data: JsValue)

  datatype RouteError =
    | RoutesInvalidType
    | NoRouteFound
    | NoEndpointDefined(requestMethod: string, requestUrl: string)
    | InvalidRouteInput
    | InvalidDto(message: string)

  datatype RegistryError = DtoBuilderContractNotHonered

  /** The injected deep-merge, applied to the matched fragments in order on a fresh object. */
  type Merge = seq<Fragment> -> Object

  /** The injected schema composer: given the input schema and the raw DTO, the composed DTO or
      the message of the error it throws. */
  type Composer = (JsValue, Object) -> Result<JsValue, string>

  /** A DTO builder's `build(dto, route, request)`: the accumulator after the call, or the
      message of the error it throws. */
  type BuildFn = (Object, Object, Request) -> Result<Object, string>

  /** A candidate for registration; `build` is `None` when it has no `build` function. */
  datatype DtoBuilderCandidate = DtoBuilderCandidate(build: Option<BuildFn>)

  /** One position of the registry array: a builder, or the hole `delete` leaves. */
  datatype Slot = Hole | Filled(build: BuildFn)

  // ---------------------------------------------------------------------------
  // Route matching

  predicate Accepts(f: Fragment, request: Request)
  {
    UrlMatches(f.url, request.url) && MethodMatches(f.httpMethod, request.httpMethod)
  }

  /** The fragments in the order `for…in` visits them. */
  function Fragments(entries: seq<(string, Fragment)>): (fs: seq<Fragment>)
    ensures |fs| == |entries|
    ensures forall i :: 0 <= i < |entries| ==> fs[i] == entries[i].1
  {
    seq(|entries|, i requires 0 <= i < |entries| => entries[i].1)
  }

  function Table(routes: RouteTable): seq<Fragment>
  {
    if routes.Routes? then Fragments(routes.entries) else []
  }

  /** The fragments `fetchValidRoutes` keeps: accepted ones, up to and including the first
      accepted one with a truthy `endpoint`. Nothing is kept exactly when no fragment
      accepts the request. */
  function ValidRoutes(fs: seq<Fragment>, request: Request): (r: seq<Fragment>)
    ensures |r| <= |fs|
    ensures r == [] <==> forall i :: 0 <= i < |fs| ==> !Accepts(fs[i], request)
  {
    if fs == [] then []
    else if !Accepts(fs[0], request) then
      assert forall i :: 1 <= i < |fs| ==> fs[1..][i - 1] == fs[i];
      ValidRoutes(fs[1..], request)
    else if Truthy(Endpoint(fs[0])) then [fs[0]]
    else [fs[0]] + ValidRoutes(fs[1..], request)
  }

  /** Reference definition: every accepted fragment, in order. */
  function Accepted(fs: seq<Fragment>, request: Request): seq<Fragment>
  {
    if fs == [] then []
    else if Accepts(fs[0], request) then [fs[0]] + Accepted(fs[1..], request)
    else Accepted(fs[1..], request)
  }

  /** One past the first accepted fragment with a truthy endpoint, or `|fs|` if there is none. */
  function Cut(fs: seq<Fragment>, request: Request): (n: nat)
    ensures n <= |fs|
  {
    if fs == [] then 0
    else if Accepts(fs[0], request) && Truthy(Endpoint(fs[0])) then 1
    else 1 + Cut(fs[1..], request)
  }

  predicate IsSubsequence(a: seq<Fragment>, b: seq<Fragment>)
    decreases |b|
  {
    if a == [] then true
    else if b == [] then false
    else (a[0] == b[0] && IsSubsequence(a[1..], b[1..])) || IsSubsequence(a, b[1..])
  }

  // ---------------------------------------------------------------------------
  // DTO composition

  /** The builders of the non-empty slots, in order, threading one accumulator; only a
      registered builder can make it fail. */
  function RunBuilders(slots: seq<Slot>, dto: Object, route: Object, request: Request): (r: Result<Object, string>)
    ensures r.Failure? ==> exists i :: 0 <= i < |slots| && slots[i].Filled?
  {
    if slots == [] then Success(dto)
    else match slots[0]
      case Hole =>
        var rest := RunBuilders(slots[1..], dto, route, request);
        assert rest.Failure? ==> exists i :: 0 <= i < |slots| && slots[i].Filled? by {
          if rest.Failure? {
            var i :| 0 <= i < |slots[1..]| && slots[1..][i].Filled?;
            assert slots[i + 1].Filled?;
          }
        }
        rest
      case Filled(build) =>
        match build(dto, route, request)
        case Failure(message) => Failure(message)
        case Success(next) => RunBuilders(slots[1..], next, route, request)
  }

  /** What `composeDto` returns: the composer applied to `route.input` and the builders' DTO.
      A builder's error surfaces unchanged, and the composer is reached only if every
      builder succeeded. */
  function ComposedDto(slots: seq<Slot>, composer: Composer, route: Object, request: Request): (r: Result<JsValue, string>)
    ensures RunBuilders(slots, map[], route, request).Failure?
            ==> r == Failure(RunBuilders(slots, map[], route, request).error)
    ensures r.Success? ==> RunBuilders(slots, map[], route, request).Success?
  {
    match RunBuilders(slots, map[], route, request)
    case Failure(message) => Failure(message)
    case Success(dto) => composer(Get(route, "input"), dto)
  }

  function Matched(routes: RouteTable, request: Request): seq<Fragment>
  {
    ValidRoutes(Table(routes), request)
  }

  /** The effective route: the matched fragments merged in order. */
  function Merged(merge: Merge, routes: RouteTable, request: Request): Object
  {
    merge(Matched(routes, request))
  }

  /** The effective route passed every check of `build`. */
  predicate Checked(merge: Merge, routes: RouteTable, request: Request)
  {
    && !routes.NotAnObject?
    && Matched(routes, request) != []
    && Truthy(Get(Merged(merge, routes, request), "endpoint"))
    && "input" in Merged(merge, routes, request)
  }

  /** The effective route passed every check and declares a truthy input. */
  predicate NeedsDto(merge: Merge, routes: RouteTable, request: Request)
  {
    Checked(merge, routes, request) && Truthy(Merged(merge, routes, request)["input"])
  }

  /** What `build` returns or throws. */
  function Resolve(slots: seq<Slot>, merge: Merge, composer: Composer, routes: RouteTable, request: Request): (r: Result<Object, RouteError>)
    ensures r == Failure(RoutesInvalidType) <==> routes.NotAnObject?
    ensures r == Failure(NoRouteFound) <==> !routes.NotAnObject? && Matched(routes, request) == []
    ensures r.Failure? && r.error.NoEndpointDefined?
        <==> && !routes.NotAnObject? && Matched(routes, request) != []
             && !Truthy(Get(Merged(merge, routes, request), "endpoint"))
    ensures r.Failure? && r.error.NoEndpointDefined? ==> r.error == NoEndpointDefined(request.httpMethod, request.url)
    ensures r == Failure(InvalidRouteInput)
        <==> && !routes.NotAnObject? && Matched(routes, request) != []
             && Truthy(Get(Merged(merge, routes, request), "endpoint"))
             && "input" !in Merged(merge, routes, request)
    ensures r.Failure? && r.error.InvalidDto?
        <==> NeedsDto(merge, routes, request) && ComposedDto(slots, composer, Merged(merge, routes, request), request).Failure?
    ensures r.Failure? && r.error.InvalidDto?
        ==> ComposedDto(slots, composer, Merged(merge, routes, request), request) == Failure(r.error.message)
    ensures r.Success?
        <==> Checked(merge, routes, request)
             && (NeedsDto(merge, routes, request) ==> ComposedDto(slots, composer, Merged(merge, routes, request), request).Success?)
    ensures r.Success? ==> r.value - {"dto"} == Merged(merge, routes, request) - {"dto"}
    ensures r.Success? && !NeedsDto(merge, routes, request) ==> r.value == Merged(merge, routes, request)
    ensures r.Success? && NeedsDto(merge, routes, request)
        ==> "dto" in r.value && ComposedDto(slots, composer, Merged(merge, routes, request), request) == Success(r.value["dto"])
  {
    if routes.NotAnObject? then Failure(RoutesInvalidType)
    else
      var validRoutes := Matched(routes, request);
      var route := merge(validRoutes);
      if validRoutes == [] then Failure(NoRouteFound)
      else if !Truthy(Get(route, "endpoint")) then Failure(NoEndpointDefined(request.httpMethod, request.url))
      else if "input" !in route then Failure(InvalidRouteInput)
      else if !Truthy(route["input"]) then Success(route)
      else match ComposedDto(slots, composer, route, request)
        case Failure(message) => Failure(InvalidDto(message))
        case Success(dto) => Success(route["dto" := dto])
  }

  // ---------------------------------------------------------------------------
  // Properties of matching

  /** Every kept fragment is accepted, only the last may carry a truthy endpoint, and the
      kept fragments appear in configuration order. */
  lemma {:induction false} ValidRoutesShape(fs: seq<Fragment>, request: Request)
    ensures forall k :: 0 <= k < |ValidRoutes(fs, request)| ==> Accepts(ValidRoutes(fs, request)[k], request)
    ensures forall k :: 0 <= k < |ValidRoutes(fs, request)| - 1 ==> !Truthy(Endpoint(ValidRoutes(fs, request)[k]))
    ensures IsSubsequence(ValidRoutes(fs, request), fs)
  {
    if fs != [] {
      var rest := ValidRoutes(fs[1..], request);
      ValidRoutesShape(fs[1..], request);
      var r := ValidRoutes(fs, request);
      if Accepts(fs[0], request) {
        if !Truthy(Endpoint(fs[0])) {
          assert r == [fs[0]] + rest;
          assert r[1..] == rest;
          assert forall k :: 1 <= k < |r| ==> r[k] == rest[k - 1];
        } else {
          assert r == [fs[0]];
          assert r[1..] == [];
        }
      } else if r != [] {
        assert r == rest;
      }
    }
  }

  /** `fetchValidRoutes` keeps exactly the accepted fragments among those up to and including
      the first accepted fragment with a truthy endpoint. */
  lemma {:induction false} ValidRoutesIsAcceptedPrefix(fs: seq<Fragment>, request: Request)
    ensures ValidRoutes(fs, request) == Accepted(fs[..Cut(fs, request)], request)
  {
    if fs != [] {
      var n := Cut(fs, request);
      assert fs[..n][0] == fs[0];
      if Accepts(fs[0], request) && Truthy(Endpoint(fs[0])) {
        assert fs[..n][1..] == [];
      } else {
        ValidRoutesIsAcceptedPrefix(fs[1..], request);
        assert fs[..n][1..] == fs[1..][..Cut(fs[1..], request)];
      }
    }
  }

  /** With no accepted fragment carrying an endpoint, every accepted fragment is kept. */
  lemma {:induction false} AllMatchesWithoutEndpoint(fs: seq<Fragment>, request: Request)
    requires forall i :: 0 <= i < |fs| && Accepts(fs[i], request) ==> !Truthy(Endpoint(fs[i]))
    ensures ValidRoutes(fs, request) == Accepted(fs, request)
  {
    if fs != [] {
      assert forall i :: 1 <= i < |fs| ==> fs[1..][i - 1] == fs[i];
      AllMatchesWithoutEndpoint(fs[1..], request);
    }
  }

  /** Fragments after the first accepted one with an endpoint are never considered. */
  lemma {:induction false} LaterRoutesIgnored(fs: seq<Fragment>, later: seq<Fragment>, request: Request)
    requires exists i :: 0 <= i < |fs| && Accepts(fs[i], request) && Truthy(Endpoint(fs[i]))
    ensures ValidRoutes(fs + later, request) == ValidRoutes(fs, request)
  {
    assert (fs + later)[0] == fs[0];
    assert (fs + later)[1..] == fs[1..] + later;
    if !(Accepts(fs[0], request) && Truthy(Endpoint(fs[0]))) {
      var i :| 0 <= i < |fs| && Accepts(fs[i], request) && Truthy(Endpoint(fs[i]));
      assert fs[1..][i - 1] == fs[i];
      LaterRoutesIgnored(fs[1..], later, request);
    }
  }

  // ---------------------------------------------------------------------------
  // Properties of the builder registry

  /** The builders of the non-empty slots, in registration order. */
  function Live(slots: seq<Slot>): seq<BuildFn>
  {
    if slots == [] then []
    else match slots[0]
      case Hole => Live(slots[1..])
      case Filled(build) => [build] + Live(slots[1..])
  }

  /** Running a plain list of builders in order over one accumulator. */
  function RunInOrder(builds: seq<BuildFn>, dto: Object, route: Object, request: Request): Result<Object, string>
  {
    if builds == [] then Success(dto)
    else match builds[0](dto, route, request)
      case Failure(message) => Failure(message)
      case Success(next) => RunInOrder(builds[1..], next, route, request)
  }

  /** Holes are skipped: composition runs exactly the live builders, in registration order. */
  lemma {:induction false} HolesAreSkipped(slots: seq<Slot>, dto: Object, route: Object, request: Request)
    ensures RunBuilders(slots, dto, route, request) == RunInOrder(Live(slots), dto, route, request)
  {
    if slots != [] {
      match slots[0]
      case Hole =>
        HolesAreSkipped(slots[1..], dto, route, request);
      case Filled(build) =>
        var builds := Live(slots);
        assert builds[0] == build && builds[1..] == Live(slots[1..]);
        match build(dto, route, request)
        case Failure(message) =>
        case Success(next) =>
          HolesAreSkipped(slots[1..], next, route, request);
    }
  }

  /** Emptying a slot has the same effect on composition as removing the slot outright. */
  lemma {:induction false} RemovedSlotIsSkipped(slots: seq<Slot>, i: nat, dto: Object, route: Object, request: Request)
    requires i < |slots|
    ensures RunBuilders(slots[i := Hole], dto, route, request) == RunBuilders(slots[..i] + slots[i + 1..], dto, route, request)
  {
    var holed := slots[i := Hole];
    var cut := slots[..i] + slots[i + 1..];
    if i == 0 {
      assert holed[0] == Hole && holed[1..] == slots[1..];
      assert cut == slots[1..];
    } else {
      assert holed[0] == slots[0] && cut[0] == slots[0];
      assert holed[1..] == slots[1..][i - 1 := Hole];
      assert cut[1..] == slots[1..][..i - 1] + slots[1..][i..];
      match slots[0]
      case Hole =>
        RemovedSlotIsSkipped(slots[1..], i - 1, dto, route, request);
      case Filled(build) =>
        match build(dto, route, request)
        case Failure(message) =>
        case Success(next) =>
          RemovedSlotIsSkipped(slots[1..], i - 1, next, route, request);
    }
  }

  /** A newly registered builder runs last, on the accumulator the earlier ones produced. */
  lemma {:induction false} AddedBuilderRunsLast(slots: seq<Slot>, build: BuildFn, dto: Object, route: Object, request: Request)
    ensures RunBuilders(slots + [Filled(build)], dto, route, request)
         == match RunBuilders(slots, dto, route, request)
            case Failure(message) => Failure(message)
            case Success(acc) => build(acc, route, request)
  {
    var grown := slots + [Filled(build)];
    if slots == [] {
      assert grown == [Filled(build)];
      assert grown[1..] == [];
    } else {
      assert grown[0] == slots[0] && grown[1..] == slots[1..] + [Filled(build)];
      match slots[0]
      case Hole =>
        AddedBuilderRunsLast(slots[1..], build, dto, route, request);
      case Filled(b) =>
        match b(dto, route, request)
        case Failure(message) =>
        case Success(next) =>
          AddedBuilderRunsLast(slots[1..], build, next, route, request);
    }
  }

  // ---------------------------------------------------------------------------
  // Properties of `build`

  /** A `routes` argument that is not an object is refused before any matching: the result
      depends on nothing else. */
  lemma {:induction false} InvalidTypeBeforeMatching(slots: seq<Slot>, merge: Merge, composer: Composer, request: Request,
                                  slots': seq<Slot>, merge': Merge, composer': Composer, request': Request)
    ensures Resolve(slots, merge, composer, NotAnObject, request)
         == Resolve(slots', merge', composer', NotAnObject, request')
         == Failure(RoutesInvalidType)
  {
  }

  /** With a falsy `input`, neither the builders nor the composer are consulted and the
      effective route is returned as merged, without a `dto`. */
  lemma {:induction false} FalsyInputSkipsComposition(slots: seq<Slot>, composer: Composer, slots': seq<Slot>, composer': Composer,
                                   merge: Merge, routes: RouteTable, request: Request)
    requires Checked(merge, routes, request) && !NeedsDto(merge, routes, request)
    ensures Resolve(slots, merge, composer, routes, request) == Resolve(slots', merge, composer', routes, request)
    ensures Resolve(slots, merge, composer, routes, request) == Success(Merged(merge, routes, request))
  {
  }

  /** With no live builder the composer receives an empty DTO. */
  lemma {:induction false} EmptyRegistryComposesEmptyDto(slots: seq<Slot>, composer: Composer, route: Object, request: Request)
    requires forall i :: 0 <= i < |slots| ==> slots[i].Hole?
    ensures ComposedDto(slots, composer, route, request) == composer(Get(route, "input"), map[])
  {
    HolesAreSkipped(slots, map[], route, request);
    NoLiveBuilders(slots);
  }

  lemma {:induction false} NoLiveBuilders(slots: seq<Slot>)
    requires forall i :: 0 <= i < |slots| ==> slots[i].Hole?
    ensures Live(slots) == []
  {
    if slots != [] {
      assert forall i :: 1 <= i < |slots| ==> slots[1..][i - 1] == slots[i];
      NoLiveBuilders(slots[1..]);
    }
  }

  // ---------------------------------------------------------------------------
  // The class

  class HttpServerRouteBuilder {
    var dtoBuilders: seq<Slot>
    const deepmerge: Merge
    const composer: Composer

    constructor (deepmerge: Merge, composer: Composer)
      ensures dtoBuilders == []
      ensures this.deepmerge == deepmerge && this.composer == composer
    {
      dtoBuilders := [];
      this.deepmerge := deepmerge;
      this.composer := composer;
    }

    method Build(routes: RouteTable, request: Request) returns (r: Result<Object, RouteError>)
      ensures r == Resolve(dtoBuilders, deepmerge, composer, routes, request)
    {
      if routes.NotAnObject? {
        return Failure(RoutesInvalidType);
      }
      var entries := if routes.Routes? then routes.entries else [];
      var validRoutes := FetchValidRoutes(entries, request);
      var route := deepmerge(validRoutes);
      if validRoutes == [] {
        return Failure(NoRouteFound);
      }
      if !Truthy(Get(route, "endpoint")) {
        return Failure(NoEndpointDefined(request.httpMethod, request.url));
      }
      if "input" !in route {
        return Failure(InvalidRouteInput);
      }
      if Truthy(route["input"]) {
        var dto := ComposeDto(request, route);
        match dto {
          case Failure(message) =>
            return Failure(InvalidDto(message));
          case Success(composed) =>
            route := route["dto" := composed];
        }
      }
      return Success(route);
    }

    method FetchValidRoutes(entries: seq<(string, Fragment)>, request: Request) returns (validRoutes: seq<Fragment>)
      ensures validRoutes == ValidRoutes(Fragments(entries), request)
    {
      var fs := Fragments(entries);
      validRoutes := [];
      var i := 0;
      while i < |fs|
        invariant 0 <= i <= |fs|
        invariant validRoutes + ValidRoutes(fs[i..], request) == ValidRoutes(fs, request)
      {
        var route := fs[i];
        assert fs[i..][0] == route && fs[i..][1..] == fs[i + 1..];
        if Accepts(route, request) {
          validRoutes := validRoutes + [route];
          if Truthy(Endpoint(route)) {
            return;
          }
        }
        i := i + 1;
      }
    }

    method AddDtoBuilder(candidate: DtoBuilderCandidate) returns (r: Result<nat, RegistryError>)
      modifies this
      ensures candidate.build.None? ==> r == Failure(DtoBuilderContractNotHonered) && dtoBuilders == old(dtoBuilders)
      ensures candidate.build.Some? ==>
                && dtoBuilders == old(dtoBuilders) + [Filled(candidate.build.value)]
                && r == Success(|dtoBuilders|)
                && r.value > |old(dtoBuilders)|
    {
      if candidate.build.None? {
        return Failure(DtoBuilderContractNotHonered);
      }
      dtoBuilders := dtoBuilders + [Filled(candidate.build.value)];
      return Success(|dtoBuilders|);
    }

    /** Deletes the array element at `index - 1`, leaving a hole; always reports success. */
    method RemoveDtoBuilder(index: int) returns (deleted: bool)
      modifies this
      ensures deleted
      ensures |dtoBuilders| == |old(dtoBuilders)|
      ensures 1 <= index <= |old(dtoBuilders)| ==> dtoBuilders == old(dtoBuilders)[index - 1 := Hole]
      ensures !(1 <= index <= |old(dtoBuilders)|) ==> dtoBuilders == old(dtoBuilders)
    {
      if 1 <= index <= |dtoBuilders| {
        dtoBuilders := dtoBuilders[index - 1 := Hole];
      }
      return true;
    }

    method ComposeDto(request: Request, route: Object) returns (r: Result<JsValue, string>)
      ensures r == ComposedDto(dtoBuilders, composer, route, request)
    {
      var dto: Object := map[];
      var i := 0;
      while i < |dtoBuilders|
        invariant 0 <= i <= |dtoBuilders|
        invariant RunBuilders(dtoBuilders[i..], dto, route, request) == RunBuilders(dtoBuilders, map[], route, request)
      {
        assert dtoBuilders[i..][0] == dtoBuilders[i] && dtoBuilders[i..][1..] == dtoBuilders[i + 1..];
        match dtoBuilders[i] {
          case Hole =>
          case Filled(build) =>
            var outcome := build(dto, route, request);
            match outcome {
              case Failure(message) =>
                return Failure(message);
              case Success(next) =>
                dto := next;
            }
        }
        i := i + 1;
      }
      r := composer(Get(route, "input"), dto);
    }
  }
}
