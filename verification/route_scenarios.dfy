/**
 * Worked scenarios: the route table of the repository's API test configuration
 * (test/api/config.js) and small hand-made route tables.
 */
module RouteScenarios {
  import opened Wrappers
  import opened JsValues
  import opened RoutePattern
  import opened RouteBuilder

  // ---------------------------------------------------------------------------
  // The API test configuration. Its routes carry `action` rather than `url`, so every
  // fragment accepts every request URL.

  function CreateCalculation(): Fragment
  {
    Fragment(None, Some("post"), map[
      "action" := Str("/calculations"),
      "endpoint" := Str("api/endpoint/create-calculation")])
  }

  function Authentication(): Fragment
  {
    Fragment(None, None, map["middleware" := Arr([Str("api/middleware/authentication")])])
  }

  function AppendCalculation(): Fragment
  {
    Fragment(None, Some("put"), map[
      "action" := Str("/calculations/.+"),
      "endpoint" := Str("api/endpoint/append-calculation"),
      "dto" := Obj(map[
        "id" := Obj(map["path" := Num(Finite(2.0))]),
        "type" := Obj(map["body" := Str("type")]),
        "value" := Obj(map["body" := Str("value")])])])
  }

  function TestApiRoutes(): seq<(string, Fragment)>
  {
    [ ("create-calculation", CreateCalculation()),
      ("authentication", Authentication()),
      ("append-calculation", AppendCalculation()) ]
  }

  /** A POST stops at `create-calculation` and never reaches the authentication middleware. */
  lemma {:induction false} PostStopsAtCreateCalculation(url: string, data: JsValue)
    ensures ValidRoutes(Fragments(TestApiRoutes()), Request(url, "POST", data)) == [CreateCalculation()]
  {
    var request := Request(url, "POST", data);
    MethodTestIsCaseInsensitiveEquality("post", "POST");
    assert Accepts(CreateCalculation(), request);
    assert Fragments(TestApiRoutes())[0] == CreateCalculation();
  }

  /** A PUT collects `authentication` and then `append-calculation`. */
  lemma {:induction false} PutCollectsAuthenticationThenAppend(url: string, data: JsValue)
    ensures ValidRoutes(Fragments(TestApiRoutes()), Request(url, "PUT", data)) == [Authentication(), AppendCalculation()]
  {
    var request := Request(url, "PUT", data);
    var fs := Fragments(TestApiRoutes());
    MethodTestIsCaseInsensitiveEquality("post", "PUT");
    MethodTestIsCaseInsensitiveEquality("put", "PUT");
    assert fs == [CreateCalculation(), Authentication(), AppendCalculation()];
    assert !Accepts(fs[0], request);
    assert Accepts(fs[1], request) && !Truthy(Endpoint(fs[1]));
    assert Accepts(fs[2], request) && Truthy(Endpoint(fs[2]));
    assert fs[1..] == [Authentication(), AppendCalculation()];
    assert fs[1..][1..] == [AppendCalculation()];
    assert ValidRoutes([AppendCalculation()], request) == [AppendCalculation()];
    assert ValidRoutes(fs[1..], request) == [Authentication()] + [AppendCalculation()];
  }

  // ---------------------------------------------------------------------------
  // Hand-made route tables

  lemma {:induction false} NoColonMarkerFree(u: string)
    requires ':' !in u
    ensures MarkerFree(u)
  {
  }

  /** `/calculations/:id` accepts any non-empty tail without line terminators after
      `/calculations/`, slashes included, and nothing shorter. */
  lemma {:induction false} ParameterSpansSegments(v: string)
    ensures v != "" && NoLineTerminator(v) ==> UrlMatches(Some("/calculations/:id"), "/calculations/" + v)
    ensures !UrlMatches(Some("/calculations/:id"), "/calculations/")
    ensures !UrlMatches(Some("/calculations/:id"), "/calculations")
  {
    NoColonMarkerFree("/calculations");
    NoColonMarkerFree("");
    assert "/calculations/:id" == "/calculations" + "/:" + "id" + "";
    var s := "/calculations/" + v;
    OneParameterUrl("/calculations", "id", "", s);
    OneParameterUrl("/calculations", "id", "", "/calculations/");
    OneParameterUrl("/calculations", "id", "", "/calculations");
    assert s[..14] == "/calculations/";
    assert s[14..|s|] == v;
  }

  function RouteX(input: Option<JsValue>): Fragment
  {
    var props := map["endpoint" := Str("h")];
    Fragment(Some("/x"), Some("get"), if input.Some? then props["input" := input.value] else props)
  }

  function MergedX(input: Option<JsValue>): Object
  {
    var props := map["url" := Str("/x"), "method" := Str("get"), "endpoint" := Str("h")];
    if input.Some? then props["input" := input.value] else props
  }

  lemma {:induction false} AcceptsRouteX(input: Option<JsValue>, data: JsValue)
    ensures Accepts(RouteX(input), Request("/x", "GET", data))
  {
    NoColonMarkerFree("/x");
    LiteralUrl("/x", "/x");
    MethodTestIsCaseInsensitiveEquality("get", "GET");
  }

  /** The one-route table matches `GET /x` with its only route. */
  lemma {:induction false} MatchedRouteX(input: Option<JsValue>, data: JsValue)
    ensures Matched(Routes([("R1", RouteX(input))]), Request("/x", "GET", data)) == [RouteX(input)]
  {
    var f := RouteX(input);
    AcceptsRouteX(input, data);
    assert Fragments([("R1", f)]) == [f];
    assert Truthy(Endpoint(f));
  }

  /** `input: false` with an endpoint succeeds, and no `dto` is set. */
  lemma {:induction false} InputFalseSucceedsWithoutDto(slots: seq<Slot>, merge: Merge, composer: Composer, data: JsValue)
    requires merge([RouteX(Some(Bool(false)))]) == MergedX(Some(Bool(false)))
    ensures Resolve(slots, merge, composer, Routes([("R1", RouteX(Some(Bool(false))))]), Request("/x", "GET", data))
         == Success(MergedX(Some(Bool(false))))
    ensures "dto" !in MergedX(Some(Bool(false)))
  {
    MatchedRouteX(Some(Bool(false)), data);
  }

  /** A request whose URL nothing accepts fails with NoRouteFound. */
  lemma {:induction false} UnknownUrlHasNoRoute(slots: seq<Slot>, merge: Merge, composer: Composer, data: JsValue)
    ensures Resolve(slots, merge, composer, Routes([("R1", RouteX(Some(Bool(false))))]), Request("/y", "GET", data))
         == Failure(NoRouteFound)
  {
    NoColonMarkerFree("/x");
    LiteralUrl("/x", "/y");
    assert TrimTrailingSlashes("/x") == "/x";
    var f := RouteX(Some(Bool(false)));
    assert !Accepts(f, Request("/y", "GET", data));
    assert Fragments([("R1", f)]) == [f];
    assert [f][1..] == [];
    assert ValidRoutes([f], Request("/y", "GET", data)) == [];
  }

  /** A matched route without an `input` key fails with InvalidRouteInput although it has an endpoint. */
  lemma {:induction false} MissingInputIsInvalid(slots: seq<Slot>, merge: Merge, composer: Composer, data: JsValue)
    requires merge([RouteX(None)]) == MergedX(None)
    ensures Resolve(slots, merge, composer, Routes([("R1", RouteX(None))]), Request("/x", "GET", data))
         == Failure(InvalidRouteInput)
  {
    MatchedRouteX(None, data);
  }

  function Auth(): Fragment
  {
    Fragment(None, None, map["middleware" := Arr([Str("a")])])
  }

  function CreateC(): Fragment
  {
    Fragment(Some("/c"), Some("post"), map["endpoint" := Str("h2"), "input" := Obj(map[]), "middleware" := Arr([Str("b")])])
  }

  /** An always-matching middleware fragment followed by a URL-specific fragment: both are
      kept, the middleware fragment first. */
  lemma {:induction false} AcceptsCreateC(data: JsValue)
    ensures Accepts(CreateC(), Request("/c", "POST", data))
  {
    NoColonMarkerFree("/c");
    LiteralUrl("/c", "/c");
    assert TrimTrailingSlashes("/c") == "/c";
    MethodTestIsCaseInsensitiveEquality("post", "POST");
  }

  lemma {:induction false} LayeredFragmentsMatch(data: JsValue)
    ensures Matched(Routes([("Auth", Auth()), ("Create", CreateC())]), Request("/c", "POST", data)) == [Auth(), CreateC()]
  {
    var request := Request("/c", "POST", data);
    AcceptsCreateC(data);
    assert Accepts(Auth(), request) && !Truthy(Endpoint(Auth()));
    assert Truthy(Endpoint(CreateC()));
    var fs := Fragments([("Auth", Auth()), ("Create", CreateC())]);
    assert fs == [Auth(), CreateC()];
    assert fs[1..] == [CreateC()];
    assert ValidRoutes([CreateC()], request) == [CreateC()];
  }

  /** With a merge that concatenates `middleware`, the layered route keeps both middleware
      entries, and its truthy `input` gets the composed DTO. */
  lemma {:induction false} LayeredFragments(merge: Merge, composer: Composer, data: JsValue, merged: Object, composed: JsValue)
    requires merge([Auth(), CreateC()]) == merged
    requires merged == map["url" := Str("/c"), "method" := Str("post"), "endpoint" := Str("h2"), "input" := Obj(map[]), "middleware" := Arr([Str("a"), Str("b")])]
    requires composer(Obj(map[]), map[]) == Success(composed)
    ensures Resolve([], merge, composer, Routes([("Auth", Auth()), ("Create", CreateC())]), Request("/c", "POST", data))
         == Success(merged["dto" := composed])
  {
    LayeredFragmentsMatch(data);
    assert Get(merged, "input") == Obj(map[]);
  }
}
