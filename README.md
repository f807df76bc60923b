# Route/weather join of easy-trip, in Dafny

easy-trip is a small web application: the user enters an origin and a
destination, the server fetches a route from a routing service, adds the
current weather to each route step, and the page renders the result. The only
real logic is the server's route endpoint (`src/pages/api/route/index.ts`).
This project models that endpoint as pure functions and proves what it does:

- it fetches the route;
- if the step list is present and non-empty, it selects the steps whose
  location has a truthy `lat` and a truthy `lng`;
- it issues one weather lookup per selected step and stamps each answer with
  the composite key `"lat:lng"`;
- it waits for all lookups to settle and folds only the fulfilled ones into a
  key → weather dictionary, where a later answer replaces an earlier one;
- it walks the original steps again and sets each step's `weather` to the
  dictionary entry for that step's own key.

A failed route fetch is answered with status 400 and a `null` body; anything
else is answered with status 200 and the route. "Failed" means that fetching
or parsing threw: a network failure, a body that is not JSON, or a body that
is JSON `null` (reading `.steps` of it throws). `getRoute` never checks the
HTTP status, so an error status whose body parses as a JSON object is an
`Ok` route and is answered with 200.

The network calls are inputs. The route fetch is a `Result<RouteResponse>`
(`Ok(route)` or `Err`). The weather lookups are a sequence of settled outcomes
(`Fulfilled(answer)` or `Rejected`), one per issued lookup and in issue order.
That alignment is what `Promise.allSettled` guarantees, and it is the one
precondition of `Join` and `Handler`.

Files:

- `types.dfy` — module `Types`: the records of `src/types.ts` (`Coords`,
  `WeatherResponse`, `RouteStep` with its optional `weather`, `RouteResponse`
  with optional `steps`), the `Option`, `Result` and `Settled` wrappers, and
  the truthiness of a coordinate.
- `num_str.dfy` — module `NumberFormat`: how a coordinate is written inside the
  key. The text is decimal, never empty and never holds a colon, and two
  different numbers never give the same text.
- `route_api.dfy` — module `RouteApi`: the key, the lookup selection, the id
  stamping, the settle/filter/reduce fold, the re-map of the steps and the
  handler's reply, with their lemmas. Module `RouteApiExample` works one
  concrete request through the handler.

The key lemma is `LocationKeyInjective`: two locations get the same key
exactly when they are equal, and this includes an absent location, whose key
is `":"`. It rests on `SplitKeyRoundTrip` and `NumStrInjective`. With it,
attachment by key becomes attachment by coordinates. A step gets weather
exactly when a lookup for its own coordinates was fulfilled, and it gets the
last such answer (`JoinWeatherPresent`, `JoinWeatherValue`). A step with no
location or a zero coordinate never gets weather (`JoinSkipsUnselected`), even
though its key is still looked up in the dictionary.

The filter tests truthiness (`!!s?.location?.lat && !!s?.location?.lng`),
not mere presence, so a step at latitude 0 or longitude 0 gets no lookup and
no weather.

## Model

| member | source | states |
|---|---|---|
| NumberFormat.NumStr | src/pages/api/route/index.ts:11-12 | a coordinate's text inside the key is non-empty, holds no colon, and starts with a digit exactly when the number is non-negative |
| NumberFormat.NumStrInjective | src/pages/api/route/index.ts:11-12 | two different numbers never render as the same text |
| RouteApi.KeyPart | src/pages/api/route/index.ts:11-12 | `a ?? ""`: an absent part renders as the empty string and only then; a part never holds a colon |
| RouteApi.MakeCompositeKey | src/pages/api/route/index.ts:11-12 | the key is the first part, then one `:` at the position right after it, then the second part |
| RouteApi.SplitKey | src/pages/api/route/index.ts:11-12 | cutting a text at its first colon yields a colon-free head, and head + `:` + tail gives back the text |
| RouteApi.SplitKeyRoundTrip | src/pages/api/route/index.ts:11-12 | cutting a composite key at its first colon gives back exactly the two parts it was built from |
| RouteApi.KeyInjective | src/pages/api/route/index.ts:11-12 | two composite keys are equal only when both parts are equal, absent parts included |
| RouteApi.LocationKey | src/pages/api/route/index.ts:56 | the key of a step's location, `makeCompositeKey(s.location?.lat, s.location?.lng)`; it is `":"` exactly when the location is absent, and LocationKeyInjective states that it identifies the location |
| RouteApi.LocationKeyInjective | src/pages/api/route/index.ts:53-57 | the key `makeCompositeKey(s.location?.lat, s.location?.lng)` of two locations is equal if and only if the locations are equal |
| RouteApi.Selected | src/pages/api/route/index.ts:36 | the filter `!!s?.location?.lat && !!s?.location?.lng`; no contract of its own: Lookups, LookupsMembership and JoinSkipsUnselected state what it decides |
| RouteApi.Lookups | src/pages/api/route/index.ts:35-38 | at most one lookup per step, and every looked-up pair has a truthy `lat` and `lng` |
| RouteApi.LookupsAppend | src/pages/api/route/index.ts:35-38 | lookups follow step order: the lookups of two step lists joined are the lookups of the first followed by those of the second |
| RouteApi.LookupsMembership | src/pages/api/route/index.ts:35-38 | a pair is looked up if and only if some step with a present location and truthy `lat` and `lng` holds it |
| RouteApi.GetWeatherByCoords | src/pages/api/route/index.ts:14-20 | a lookup fulfils exactly when the service's answer does; its value keeps description and temperature and has `id` set to the key of the coordinates it was issued for |
| RouteApi.Settle | src/pages/api/route/index.ts:38-40 | one settled result per issued lookup, in order; result j is fulfilled exactly when answer j is, stamped with the key of lookup j |
| RouteApi.FulfilledValues | src/pages/api/route/index.ts:41-42 | a value survives the filter if and only if it was fulfilled; rejections are dropped |
| RouteApi.Reduce | src/pages/api/route/index.ts:43-49 | the dictionary's keys are exactly the ids of the values folded in, and each entry is one of those values stored under its own id |
| RouteApi.WeatherMap | src/pages/api/route/index.ts:41-49 | every entry is a fulfilled value stored under its own id; WeatherMapKeys, WeatherMapSnoc and WeatherMapLaterWins state which keys are present and which value wins |
| RouteApi.WeatherMapSnoc | src/pages/api/route/index.ts:41-49 | one more settled result writes its value under its id, replacing any earlier value, or leaves the dictionary unchanged if it was rejected |
| RouteApi.WeatherMapKeys | src/pages/api/route/index.ts:40-49 | a key is in the dictionary if and only if some fulfilled lookup carries it; rejected lookups leave no trace |
| RouteApi.WeatherMapLaterWins | src/pages/api/route/index.ts:43-49 | when fulfilled lookups share a key, the entry is the value of the last one |
| RouteApi.AttachWeather | src/pages/api/route/index.ts:53-57 | same number of steps in the same order, direction and location kept, and `weather` is the dictionary entry for the step's own key, or absent when there is none |
| RouteApi.Join | src/pages/api/route/index.ts:35-57 | the whole join keeps the step count and attaches to a step only weather whose `id` is that step's own key; JoinShape, JoinWeatherPresent, JoinWeatherValue, JoinSkipsUnselected and JoinSameLocationSameWeather state the rest |
| RouteApi.JoinShape | src/pages/api/route/index.ts:51-58 | the joined steps keep the number and order of the route's steps and each step's direction and location |
| RouteApi.JoinWeatherPresent | src/pages/api/route/index.ts:35-57 | a step gets weather if and only if a lookup issued for its very coordinates was fulfilled |
| RouteApi.JoinWeatherValue | src/pages/api/route/index.ts:40-57 | that weather is the last fulfilled answer for the step's coordinates, with `id` equal to the step's key |
| RouteApi.JoinSkipsUnselected | src/pages/api/route/index.ts:35-57 | a step without a location, or with a zero `lat` or `lng`, gets no weather whatever the service answered |
| RouteApi.JoinSameLocationSameWeather | src/pages/api/route/index.ts:53-57 | steps with the same location get the same weather |
| RouteApi.HasSteps | src/pages/api/route/index.ts:34 | the test `!!routeResponse.steps && routeResponse.steps.length > 0`; no contract of its own: Handler's contract states what each outcome of it leads to |
| RouteApi.Handler | src/pages/api/route/index.ts:24-66 | status 400 with a null body exactly when the route fetch fails, 200 otherwise whatever the lookups did; an absent or empty step list returns the route unchanged; otherwise the body is the route with its steps replaced by the joined steps, so the `Join*` lemmas (order, direction, location, weather per step) hold of the reply, and duration and distance are kept |
| RouteApiExample.TwoStepsOneLookupFails | src/pages/api/route/index.ts:24-66 | steps at (10, 20) and (30, 40), answers "clear sky, 18" and a failure: 200, order kept, the first step gets weather with id `"10:20"`, the second gets none |

## Left out

- The `fetch` calls, URL building and JSON parsing of `getRoute` and of
  `getWeatherByCoords` are inputs: a route-fetch `Result` and one settled
  answer per lookup. `Err` stands only for a throw: a network failure, an
  unparsable body, or a route body that is JSON `null`, which makes
  `routeResponse.steps` throw and is answered with 400. An HTTP error status
  is not checked by `getRoute`, so an error answer whose body parses as a
  JSON object is an `Ok` route and gets 200. On the weather side, a body that
  parses as JSON `null` (or any non-object) is not a rejection either:
  `{ ...weather, id }` spreads nothing, so the lookup is fulfilled with a
  value that holds only `id`, and the step gets weather `{ id: "lat:lng" }`.
  The model's `WeatherResponse` always has a description and a temperature,
  so it does not represent that partial value.
- The concurrency of `Promise.allSettled` is not modelled; only the sequence of
  settled results, aligned with the issued lookups, matters.
- Coordinates are integers and truthiness is "non-zero". JavaScript doubles,
  `NaN` (also falsy) and JavaScript's number-to-string formatting are not
  modelled; the key uses decimal integer text. The property the join needs
  from the formatting (non-empty, colon-free, injective) is proved for that
  text.
- `null` and `undefined` steps are both `None`; both are returned unchanged,
  so the difference does not reach the model. Array elements that are
  themselves `null` are not modelled: the record type does not allow them.
  In the source the filter tolerates such an element (`s?.`), but the re-map
  reads `s.location` without `?.`, which throws inside the `try`, so a route
  holding a `null` step is answered with 400.
- Temperature, duration and distance are integers; they are only carried.
- `console.log`, the `NextApiResponse` plumbing and the query-string parsing
  are left out beyond the (status, body) pair in `Reply`.
- `src/pages/index.tsx` (React page, icon selection, floating-point display)
  and `src/pages/_app.tsx` (provider configuration) are not part of this model.
- Calling the endpoint twice with the same inputs gives the same reply because
  every member is a function; no separate lemma states it.
