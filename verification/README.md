# Route resolution and integer filtering, modelled in Dafny

This project models two pieces of an HTTP server's request-dispatch stage.

**`HttpServerRouteBuilder`** (`core/http/server/route/builder/index.js`). Its job is to
resolve a request against the configured route fragments.
- It walks the fragments in configuration order. It keeps every fragment whose URL test and
  method test both pass, and stops after the first kept fragment with a truthy `endpoint`.
- It deep-merges the kept fragments into one effective route. It then checks, in order, that
  something matched, that the route has an endpoint, and that it declares an `input` key.
- When `input` is truthy, it composes a DTO. It runs the registered DTO builders in
  registration order over one shared accumulator, then passes the result to the schema
  composer.
- The DTO builders are kept in a registry array. Adding a builder appends it and returns the
  new length as a handle. Removing a builder leaves a hole and renumbers nothing.

**`SchemaFilterInteger`** (`core/schema/filter/integer/index.js`). It applies JavaScript's
numeric coercion (`+x`) when the result is not NaN, and otherwise returns the value unchanged.
It has a scalar mode and an element-wise collection mode. It rejects no value itself, but the
NaN test throws a TypeError where JavaScript's conversion to a primitive does: for an object
with its own `toString` key, or an array holding one at any depth.

Files:
- `wrappers.dfy`: `Option` and `Result`.
- `js_value.dfy`: JavaScript values and truthiness.
- `schema_filter_integer.dfy`: the integer filter.
- `route_pattern.dfy`: the URL and method tests (`index.js:79-83`).
- `route_builder.dfy`: matching, DTO composition and `build` as specification functions; the
  class `HttpServerRouteBuilder` and its methods, proved against those functions; and lemmas
  about matching, the registry and `build`.
- `route_scenarios.dfy`: the route table of `test/api/config.js` and small example tables.

Collaborators and what stands in for them:
- The injected deep-merge, the schema composer and the DTO builder plugins are function values.
  The class receives them in its constructor, or holds them in the registry.
- JavaScript's `ToNumber` is a function parameter of the filter, with three outcomes: a
  number, NaN, or a thrown TypeError. `IsToNumber` fixes the cases the language defines
  without parsing a string: exactly the values `ToPrimitiveThrows` names throw; numbers, NaN,
  `undefined`, `null`, booleans, `""` and `[]` convert as JavaScript says; an object without
  its own `toString` key is NaN.

Behaviours of the code that are easy to miss:
- A failed match raises NoRouteFound with a fixed message. The request method and URL appear
  only in the NoEndpointDefined message.
- The endpoint check is JavaScript truthiness, not "non-empty". For example, `0` or `false`
  as an endpoint is rejected.
- An error thrown by a DTO builder is also rethrown as InvalidDto, not only one thrown by the
  composer.
- `typeof null` is `'object'`, so a `null` route table passes the type check. `for…in` over
  `null` visits nothing, so `build` then fails with NoRouteFound.
- A `/:name` marker becomes `/.+`, so what follows the `/` can span further `/`s. Trailing slashes are removed after
  the markers are replaced. As a result, the url `/` accepts only the empty request URL.
- An absent or empty `url` or `method` accepts everything. The empty string counts, not only a
  missing key.

## Model

| member | source | states |
|---|---|---|
| `SchemaFilterInteger.IsToNumber` | core/schema/filter/integer/index.js:31-32 | the laws of JavaScript's `ToNumber` on JSON values; under them only an object or an array can make the conversion throw |
| `SchemaFilterInteger.FilterSingle` | core/schema/filter/integer/index.js:29-35 | fails exactly when the conversion throws; a value whose conversion is a number (for example `"5"`, `[5]`, `true`) gives that number; a value whose conversion is NaN is returned unchanged |
| `SchemaFilterInteger.ThrowsOnlyWithoutPrimitive` | core/schema/filter/integer/index.js:31 | the scalar filter throws exactly on the values without a primitive form |
| `SchemaFilterInteger.NestedToStringThrows` | core/schema/filter/integer/index.js:31 | an array holding, at any depth, an object with its own `toString` key throws, for example `[1, [{"toString": …}]]` |
| `SchemaFilterInteger.NumbersUnchanged` | core/schema/filter/integer/index.js:31-32 | a number, or NaN, is returned as itself |
| `SchemaFilterInteger.FixedCoercions` | core/schema/filter/integer/index.js:29-35 | `null`, `false`, `""` and `[]` become 0; `true` becomes 1; `undefined` and objects without their own `toString` stay unchanged; an object with its own `toString` throws |
| `SchemaFilterInteger.FilterSingleIdempotent` | core/schema/filter/integer/index.js:29-35 | filtering a successfully filtered value again gives the same result |
| `SchemaFilterInteger.FilterEachAt` | core/schema/filter/integer/index.js:20-24 | element-wise filtering succeeds exactly when every element's does; then it has the input's length and element i is the scalar filter of input element i |
| `SchemaFilterInteger.FilterCollection` | core/schema/filter/integer/index.js:13-27 | a non-array is returned unchanged; an array throws exactly when one of its elements does, and otherwise gives a new array of the same length whose element i is the scalar filter of element i, in order |
| `SchemaFilterInteger.Filter` | core/schema/filter/integer/index.js:6-11 | collection mode exactly when `options.collection` is truthy, scalar mode otherwise |
| `SchemaFilterInteger.FilterEachIdempotent` | core/schema/filter/integer/index.js:18-26 | element-wise filtering is idempotent where it succeeds |
| `SchemaFilterInteger.FilteredCollectionIdempotent` | core/schema/filter/integer/index.js:13-27 | collection filtering is idempotent where it succeeds |
| `SchemaFilterInteger.ModesDiffer` | core/schema/filter/integer/index.js:6-11 | the two modes differ: `[]` becomes 0 in scalar mode but stays `[]` in collection mode; a numeric string is coerced only in scalar mode; `[s]` becomes `[n]` in collection mode |
| `SchemaFilterInteger.MixedCollection` | core/schema/filter/integer/index.js:13-27 | `["1", "x", 3]` becomes `[1, "x", 3]` |
| `JsValues.Truthy` | core/http/server/route/builder/index.js:88 | every array and object is truthy; `undefined`, `null` and NaN never are |
| `RoutePattern.Replace` | core/http/server/route/builder/index.js:79 | the marker replacement never lengthens the url: each `/:name` becomes two tokens |
| `RoutePattern.ReplaceSlashBeforeWildcards` | core/http/server/route/builder/index.js:79 | every wildcard the replacement produces directly follows a literal `/` |
| `RoutePattern.StripTrailingSlashes` | core/http/server/route/builder/index.js:79 | the result is a prefix of the pattern that does not end in a literal `/`, and only literal `/` tokens were removed |
| `RoutePattern.Compile` | core/http/server/route/builder/index.js:79 | the compiled pattern is no longer than the url, does not end in a literal `/`, and has every wildcard right after a literal `/` |
| `RoutePattern.Matches` | core/http/server/route/builder/index.js:79-82 | the match is anchored at both ends and every token consumes at least one character, so a matching request url is at least as long as the pattern |
| `RoutePattern.UrlMatches` | core/http/server/route/builder/index.js:79-82 | an absent or empty `url` accepts every request url; otherwise an accepted request url is at least as long as the compiled pattern |
| `RoutePattern.MethodMatches` | core/http/server/route/builder/index.js:80-83 | an absent or empty `method` accepts every request method; otherwise an accepted request method has the method's length |
| `RoutePattern.MatchesLitsThen` | core/http/server/route/builder/index.js:79 | a literal prefix in the anchored pattern consumes exactly its own characters |
| `RoutePattern.MatchesLitsExactly` | core/http/server/route/builder/index.js:79 | a pattern made only of literals matches exactly its own text |
| `RoutePattern.MatchesAfterAnyLits` | core/http/server/route/builder/index.js:79 | `.+` followed by literal text: the text ends the input, and at least one character without a line terminator comes before it |
| `RoutePattern.ReplaceAfterMarkerFree` | core/http/server/route/builder/index.js:79 | the left-to-right marker replacement reads marker-free text as literals, whatever follows it from a `/` on |
| `RoutePattern.ReplaceMarkerFree` | core/http/server/route/builder/index.js:79 | a url without `/:name` markers compiles to its own literal characters |
| `RoutePattern.ReplaceSlash` | core/http/server/route/builder/index.js:79 | appending `/` to a url appends a literal `/` to its pattern |
| `RoutePattern.StripLits` | core/http/server/route/builder/index.js:79 | stripping trailing `/` from a literal pattern gives the literal pattern of the trimmed url |
| `RoutePattern.LiteralUrl` | core/http/server/route/builder/index.js:79-83 | a non-empty url without markers accepts exactly the request url equal to it with trailing slashes removed (anchored at both ends) |
| `RoutePattern.TrailingSlashIgnored` | core/http/server/route/builder/index.js:79 | for a non-empty url, an added trailing `/` accepts exactly the same request urls |
| `RoutePattern.ReplaceParameter` | core/http/server/route/builder/index.js:79 | `/:name` (the longest run of word characters) becomes `/` followed by `.+` |
| `RoutePattern.CompileOneParameter` | core/http/server/route/builder/index.js:79 | the compiled pattern of a url with one marker: the literal text before it, then `/.+`, then the literal text after it |
| `RoutePattern.MatchesParameterThenLits` | core/http/server/route/builder/index.js:79 | `/.+` followed by literal text matches exactly `/`, then one or more characters other than line terminators, then that text |
| `RoutePattern.SplitFillsParameter` | core/http/server/route/builder/index.js:79 | splits the one-marker match at the end of the literal prefix |
| `RoutePattern.OneParameterUrl` | core/http/server/route/builder/index.js:79-83 | a url with one `/:name` marker accepts exactly the request urls that start with the prefix and a `/`, end with the suffix, and hold one or more characters in between (`/` included, line terminators excluded) |
| `RoutePattern.MatchesAfterAnyExists` | core/http/server/route/builder/index.js:79 | `.+` followed by a pattern matches exactly when some non-empty prefix free of line terminators can be followed by that pattern matching the rest |
| `RoutePattern.ReplaceTemplate` | core/http/server/route/builder/index.js:79 | a url made of marker-free pieces and any number of `/:name` markers compiles to the pieces' literals with `/.+` in place of each marker |
| `RoutePattern.MatchesTemplateTokens` | core/http/server/route/builder/index.js:79 | that compiled form matches exactly the strings that fill each marker with one or more characters other than line terminators |
| `RoutePattern.TemplateUrl` | core/http/server/route/builder/index.js:79-82 | a url with any number of `/:name` markers accepts exactly the request urls that agree with it outside the markers and fill each marker with one or more characters other than line terminators (`/` included) |
| `RoutePattern.MethodTestIsCaseInsensitiveEquality` | core/http/server/route/builder/index.js:80-83 | a non-empty method accepts exactly the request methods of the same length that agree with it character by character, ignoring the case of ASCII letters |
| `RoutePattern.WildcardsAcceptAll` | core/http/server/route/builder/index.js:79-83 | an absent or empty `url` or `method` accepts every request on that dimension |
| `RouteBuilder.ValidRoutes` | core/http/server/route/builder/index.js:71-96 | the kept list is no longer than the table, and it is empty exactly when no fragment accepts the request |
| `RouteBuilder.ValidRoutesShape` | core/http/server/route/builder/index.js:73-95 | every kept fragment passes both tests; only the last may carry a truthy endpoint; the kept list is a subsequence of the configured fragments, in configuration order |
| `RouteBuilder.ValidRoutesIsAcceptedPrefix` | core/http/server/route/builder/index.js:75-93 | the kept list is exactly the accepted fragments among those up to and including the first accepted one with a truthy endpoint |
| `RouteBuilder.AllMatchesWithoutEndpoint` | core/http/server/route/builder/index.js:85-91 | if no accepted fragment carries an endpoint, every accepted fragment is kept |
| `RouteBuilder.LaterRoutesIgnored` | core/http/server/route/builder/index.js:87-91 | fragments after the first accepted one with an endpoint never affect the result |
| `RouteBuilder.Resolve` | core/http/server/route/builder/index.js:22-65 | error precedence, each case both ways: a non-object gives RoutesInvalidType; otherwise no match gives NoRouteFound; otherwise a falsy merged endpoint gives NoEndpointDefined(method, url); otherwise a missing `input` key gives InvalidRouteInput; otherwise a builder or composer failure gives InvalidDto with the same message. On success, the route is the merged route with only `dto` changed; it is untouched when `input` is falsy and holds the composed DTO when `input` is truthy |
| `RouteBuilder.InvalidTypeBeforeMatching` | core/http/server/route/builder/index.js:24-28 | a non-object route table gives RoutesInvalidType whatever the request, merge, registry or composer |
| `RouteBuilder.FalsyInputSkipsComposition` | core/http/server/route/builder/index.js:52-59 | with a falsy `input`, the result does not depend on the builders or the composer, and it is the merged route |
| `RouteBuilder.RunBuilders` | core/http/server/route/builder/index.js:128-132 | running the registry fails only if some slot holds a builder |
| `RouteBuilder.ComposedDto` | core/http/server/route/builder/index.js:124-135 | a builder's error surfaces unchanged, and the composer is reached only if every builder succeeded |
| `RouteBuilder.HolesAreSkipped` | core/http/server/route/builder/index.js:124-135 | composition runs exactly the non-empty slots, in ascending order, threading one accumulator |
| `RouteBuilder.RemovedSlotIsSkipped` | core/http/server/route/builder/index.js:115-118 | emptying a slot has the same effect on composition as removing that slot |
| `RouteBuilder.AddedBuilderRunsLast` | core/http/server/route/builder/index.js:101-110 | a newly added builder runs after all earlier ones, on their result |
| `RouteBuilder.EmptyRegistryComposesEmptyDto` | core/http/server/route/builder/index.js:124-135 | with no live builder, the composer receives `route.input` and an empty DTO |
| `RouteBuilder.NoLiveBuilders` | core/http/server/route/builder/index.js:128-132 | a registry made only of holes has no live builder |
| `RouteBuilder.HttpServerRouteBuilder.constructor` | core/http/server/route/builder/index.js:11-16 | the registry starts empty; the merge and the composer are the injected ones |
| `RouteBuilder.HttpServerRouteBuilder.Build` | core/http/server/route/builder/index.js:22-65 | returns or fails exactly as `Resolve` says, for the current registry and collaborators |
| `RouteBuilder.HttpServerRouteBuilder.FetchValidRoutes` | core/http/server/route/builder/index.js:71-96 | the loop with its early `break` returns exactly `ValidRoutes` of the configured fragments |
| `RouteBuilder.HttpServerRouteBuilder.AddDtoBuilder` | core/http/server/route/builder/index.js:101-110 | without a `build` function: DtoBuilderContractNotHonered, registry unchanged; otherwise appends the builder and returns the new length, which is greater than every earlier handle |
| `RouteBuilder.HttpServerRouteBuilder.RemoveDtoBuilder` | core/http/server/route/builder/index.js:115-118 | returns true; for a handle in range, empties slot `index - 1`; the length and every other slot are unchanged; otherwise nothing changes |
| `RouteBuilder.HttpServerRouteBuilder.ComposeDto` | core/http/server/route/builder/index.js:124-135 | returns exactly `ComposedDto`: the builders' failure, or the composer applied to `route.input` and the accumulated DTO |
| `RouteScenarios.PostStopsAtCreateCalculation` | test/api/config.js:9-33 | in the API test table, a POST keeps only `create-calculation` and never reaches `authentication` |
| `RouteScenarios.PutCollectsAuthenticationThenAppend` | test/api/config.js:9-33 | in the API test table, a PUT keeps `authentication` and then `append-calculation` |
| `RouteScenarios.ParameterSpansSegments` | core/http/server/route/builder/index.js:79 | `/calculations/:id` accepts `/calculations/` followed by any non-empty text without line terminators, slashes included, but not `/calculations/` or `/calculations` |
| `RouteScenarios.InputFalseSucceedsWithoutDto` | core/http/server/route/builder/index.js:46-59 | a matched route with an endpoint and `input: false` succeeds without a `dto` |
| `RouteScenarios.UnknownUrlHasNoRoute` | core/http/server/route/builder/index.js:34-38 | a request url that nothing accepts gives NoRouteFound |
| `RouteScenarios.MissingInputIsInvalid` | core/http/server/route/builder/index.js:46-50 | a matched route with an endpoint but no `input` key gives InvalidRouteInput |
| `RouteScenarios.LayeredFragmentsMatch` | core/http/server/route/builder/index.js:71-96 | an always-matching middleware fragment and a URL-specific fragment are both kept, the middleware one first |
| `RouteScenarios.LayeredFragments` | core/http/server/route/builder/index.js:22-65 | with a merge that concatenates middleware, the layered route succeeds with both middleware entries and the composed DTO |

## Left out

- `core/http/request/index.js` is not part of this model. It is a wrapper over an external HTTP client and does network I/O.
- The deep-merge is an uninterpreted function value of the ordered matched fragments. The scenario lemmas state what they need about it as preconditions.
- The schema composer and the DTO builder plugins are function values. A builder is modelled as a function from (accumulator, route, request) to the new accumulator or an error message. A builder that mutates the route or the request, or keeps a reference to the shared accumulator, is not modelled.
- JavaScript `ToNumber` is a parameter. String parsing, floating point, `-0` and the `BigInt` and `Symbol` cases (which throw) are not modelled.
- SchemaFilterInteger.FilterSingle: the TypeError for an object with its own `toString` key (or an array holding one) is modelled as a failure of the filter. What the schema composer and `build` do with that error is not: the composer is a function value, and in `build` such an error surfaces as InvalidDto only through the composer's own result.
- SchemaFilterInteger.FixedCoercions: only the outcomes JavaScript fixes without string parsing are stated; for an object it distinguishes only whether it has its own `toString` key.
- `SchemaFilterInteger.FilterCollection` works on values. It captures that the input is left unchanged and the result is a fresh value. It does not capture object identity: for a non-array input, the source returns the same object, not an equal one.
- A truthy `url` or `method` that is not a string is not modelled. The source throws a TypeError for such a `url` and stringifies such a `method`. Fragments carry `url` and `method` as optional strings.
- A falsy `url` or `method` that is not a string (`null`, `false`, `0`) is not modelled. In the source it is handed to `match` as it is, which turns it into an unanchored search for the text `null`, `false` or `0`. Only an absent (`undefined`) or empty value is a wildcard, and only those are modelled.
- RoutePattern.TemplateUrl: the url is given split into its marker-free pieces and its marker names, and without a trailing slash; `TrailingSlashIgnored` covers trailing slashes.
- `url` and `method` are taken to contain no regular-expression syntax other than `/:name` markers. Case-insensitive comparison covers ASCII letters only. `.` is treated as matching one character, not one UTF-16 code unit.
- A route fragment that is not an object is not modelled: a `null` fragment makes the url test throw a TypeError, and a primitive one (such as `5`) reads `url`, `method` and `endpoint` as `undefined` and is kept as a wildcard. A fragment here always carries optional `url` and `method` strings and an object of other keys.
- `for…in` puts integer-like keys first. This is not modelled: a route table is an ordered sequence of (name, fragment) pairs.
- `addDtoBuilder(null)` and `addDtoBuilder(undefined)` throw a TypeError. This is not modelled: a candidate is always an object.
- `RemoveDtoBuilder` takes an integer handle. Non-integer or non-number handles are not modelled.
- Errors thrown without a `message` are not modelled: error messages are strings.
- Concurrent use of the registry is not modelled.
