/** The route endpoint (src/pages/api/route/index.ts): it fetches a route, looks
    up the weather for every step whose coordinates are truthy, folds the
    successful lookups into a dictionary keyed by the composite "lat:lng" key,
    and attaches to every step the entry for that step's own key.

    The two network calls are inputs here: the route fetch is a `Result`, and the
    weather lookups are the settled outcomes the weather service produced, one per
    issued lookup and in the order the lookups were issued. */
module RouteApi {
  import opened Types
  import NumberFormat

  // ---------------------------------------------------------------------------
  // The composite key
  // ---------------------------------------------------------------------------

  /** One half of the key: `${a ?? ""}`. */
  function KeyPart(a: Option<int>): (r: string)
    ensures ':' !in r
    ensures a.None? <==> r == ""
  {
    match a
    case None => ""
    case Some(x) => NumberFormat.NumStr(x)
  }

  /** `makeCompositeKey(a, b)`: the first part, a colon, the second part. */
  function MakeCompositeKey(a: Option<int>, b: Option<int>): (r: string)
    ensures |r| == |KeyPart(a)| + 1 + |KeyPart(b)|
    ensures r[..|KeyPart(a)|] == KeyPart(a) && r[|KeyPart(a)|] == ':' && r[|KeyPart(a)| + 1..] == KeyPart(b)
  {
    KeyPart(a) + ":" + KeyPart(b)
  }

  /** Cuts a text at its first colon: the inverse of building a key. */
  function SplitKey(s: string): (r: (string, string))
    ensures ':' !in r.0
    ensures ':' in s ==> s == r.0 + ":" + r.1
    ensures ':' !in s ==> r == (s, "")
  {
    if s == [] then ("", "")
    else if s[0] == ':' then ("", s[1..])
    else
      var rest := SplitKey(s[1..]);
      assert s == [s[0]] + s[1..];
      ([s[0]] + rest.0, rest.1)
  }

  lemma {:induction false} SplitAtFirstColon(p: string, q: string)
    requires ':' !in p
    ensures SplitKey(p + ":" + q) == (p, q)
  {
    if p != [] {
      assert (p + ":" + q)[1..] == p[1..] + ":" + q;
      SplitAtFirstColon(p[1..], q);
      assert [p[0]] + p[1..] == p;
    } else {
      assert p + ":" + q == [':'] + q;
    }
  }

  /** Splitting a key at its first colon gives back the two parts it was built
      from, so the colon can never be confused with a character of a part. */
  lemma SplitKeyRoundTrip(a: Option<int>, b: Option<int>)
    ensures SplitKey(MakeCompositeKey(a, b)) == (KeyPart(a), KeyPart(b))
  {
    SplitAtFirstColon(KeyPart(a), KeyPart(b));
  }

  lemma KeyPartInjective(a: Option<int>, c: Option<int>)
    requires KeyPart(a) == KeyPart(c)
    ensures a == c
  {
    if a.Some? && c.Some? {
      NumberFormat.NumStrInjective(a.value, c.value);
    }
  }

  /** Two keys are equal exactly when they were built from the same parts. */
  lemma KeyInjective(a: Option<int>, b: Option<int>, c: Option<int>, d: Option<int>)
    requires MakeCompositeKey(a, b) == MakeCompositeKey(c, d)
    ensures a == c && b == d
  {
    SplitKeyRoundTrip(a, b);
    SplitKeyRoundTrip(c, d);
    KeyPartInjective(a, c);
    KeyPartInjective(b, d);
  }

  /** The key of a step's location as the output map computes it:
      `makeCompositeKey(s.location?.lat, s.location?.lng)`. */
  function LocationKey(loc: Option<Coords>): (r: string)
    ensures loc.None? <==> r == ":"
  {
    match loc
    case None => MakeCompositeKey(None, None)
    case Some(c) => MakeCompositeKey(Some(c.lat), Some(c.lng))
  }

  /** Steps share a key exactly when they share a location, absent included. */
  lemma LocationKeyInjective(x: Option<Coords>, y: Option<Coords>)
    ensures LocationKey(x) == LocationKey(y) <==> x == y
  {
    if LocationKey(x) == LocationKey(y) {
      var (a, b) := if x.Some? then (Some(x.value.lat), Some(x.value.lng)) else (None, None);
      var (c, d) := if y.Some? then (Some(y.value.lat), Some(y.value.lng)) else (None, None);
      assert LocationKey(x) == MakeCompositeKey(a, b);
      assert LocationKey(y) == MakeCompositeKey(c, d);
      KeyInjective(a, b, c, d);
    }
  }

  // ---------------------------------------------------------------------------
  // Which steps get a weather lookup
  // ---------------------------------------------------------------------------

  /** The filter of the weather fan-out: a present location whose `lat` and
      `lng` are both truthy. */
  predicate Selected(s: RouteStep)
  {
    s.location.Some? && Truthy(s.location.value.lat) && Truthy(s.location.value.lng)
  }

  /** The coordinates looked up, one per selected step, in step order
      (`steps.filter(...).map(s => s.location!)`). */
  function Lookups(steps: seq<RouteStep>): (r: seq<Coords>)
    ensures |r| <= |steps|
    ensures forall c :: c in r ==> Truthy(c.lat) && Truthy(c.lng)
  {
    if steps == [] then []
    else (if Selected(steps[0]) then [steps[0].location.value] else []) + Lookups(steps[1..])
  }

  /** The lookups of a concatenation are the lookups of each part in order: a
      step contributes its own coordinates if selected and nothing otherwise. */
  lemma {:induction false} LookupsAppend(a: seq<RouteStep>, b: seq<RouteStep>)
    ensures Lookups(a + b) == Lookups(a) + Lookups(b)
  {
    if a != [] {
      assert (a + b)[1..] == a[1..] + b;
      LookupsAppend(a[1..], b);
    } else {
      assert a + b == b;
    }
  }

  /** A coordinate pair is looked up exactly when some selected step holds it. */
  lemma {:induction false} LookupsMembership(steps: seq<RouteStep>, c: Coords)
    ensures c in Lookups(steps) <==>
      exists i :: 0 <= i < |steps| && Selected(steps[i]) && steps[i].location == Some(c)
  {
    if steps != [] {
      LookupsMembership(steps[1..], c);
      if c in Lookups(steps[1..]) {
        var i :| 0 <= i < |steps[1..]| && Selected(steps[1..][i]) && steps[1..][i].location == Some(c);
        assert Selected(steps[i + 1]) && steps[i + 1].location == Some(c);
      }
      if exists i :: 0 <= i < |steps| && Selected(steps[i]) && steps[i].location == Some(c) {
        var i :| 0 <= i < |steps| && Selected(steps[i]) && steps[i].location == Some(c);
        if i > 0 {
          assert steps[1..][i - 1] == steps[i];
        }
      }
    }
  }

  // ---------------------------------------------------------------------------
  // The weather fan-out and fan-in
  // ---------------------------------------------------------------------------

  /** `getWeatherByCoords`: the service's answer (or its failure) for `c`, with
      `id` overwritten by the key of `c`. */
  function GetWeatherByCoords(c: Coords, fetched: Settled<WeatherResponse>): (r: Settled<WeatherResponse>)
    ensures r.Fulfilled? <==> fetched.Fulfilled?
    ensures r.Fulfilled? ==>
      && r.value.id == MakeCompositeKey(Some(c.lat), Some(c.lng))
      && r.value.description == fetched.value.description
      && r.value.temperature == fetched.value.temperature
  {
    match fetched
    case Rejected => Rejected
    case Fulfilled(w) => Fulfilled(w.(id := MakeCompositeKey(Some(c.lat), Some(c.lng))))
  }

  /** `Promise.allSettled(lookups.map(getWeatherByCoords))`: one settled result
      per lookup, in the order the lookups were issued. */
  function Settle(lookups: seq<Coords>, raw: seq<Settled<WeatherResponse>>): (r: seq<Settled<WeatherResponse>>)
    requires |raw| == |lookups|
    ensures |r| == |lookups|
    ensures forall j :: 0 <= j < |r| ==>
      && (r[j].Fulfilled? <==> raw[j].Fulfilled?)
      && (r[j].Fulfilled? ==> r[j].value == raw[j].value.(id := LocationKey(Some(lookups[j]))))
  {
    seq(|lookups|, j requires 0 <= j < |lookups| => GetWeatherByCoords(lookups[j], raw[j]))
  }

  /** `filter(w => w.status === "fulfilled")`, keeping the values. */
  function FulfilledValues(settled: seq<Settled<WeatherResponse>>): (r: seq<WeatherResponse>)
    ensures |r| <= |settled|
    ensures forall w :: w in r <==> Fulfilled(w) in settled
  {
    if settled == [] then []
    else
      var init := settled[..|settled| - 1];
      assert settled == init + [settled[|settled| - 1]];
      FulfilledValues(init) + match settled[|settled| - 1] {
        case Fulfilled(w) => [w]
        case Rejected => []
      }
  }

  /** The `reduce` over the fulfilled values: starting from `{}`, each value in
      turn is written under its `id`, replacing whatever was there. */
  function Reduce(ws: seq<WeatherResponse>): (r: map<string, WeatherResponse>)
    ensures r.Keys == set w | w in ws :: w.id
    ensures forall k :: k in r ==> r[k].id == k && r[k] in ws
  {
    if ws == [] then map[]
    else
      var init := ws[..|ws| - 1];
      assert ws == init + [ws[|ws| - 1]];
      Reduce(init)[ws[|ws| - 1].id := ws[|ws| - 1]]
  }

  /** The dictionary built from the settled lookups: every entry is a fulfilled
      value stored under its own id. */
  function WeatherMap(settled: seq<Settled<WeatherResponse>>): (r: map<string, WeatherResponse>)
    ensures forall k :: k in r ==> r[k].id == k && Fulfilled(r[k]) in settled
  {
    Reduce(FulfilledValues(settled))
  }

  /** The filter and the fold both work left to right, one element at a time. */
  lemma FulfilledValuesSnoc(settled: seq<Settled<WeatherResponse>>, x: Settled<WeatherResponse>)
    ensures FulfilledValues(settled + [x]) ==
      FulfilledValues(settled) + if x.Fulfilled? then [x.value] else []
  {
  }

  lemma ReduceSnoc(ws: seq<WeatherResponse>, w: WeatherResponse)
    ensures Reduce(ws + [w]) == Reduce(ws)[w.id := w]
  {
  }

  /** Appending one settled result either writes its value under its id or,
      for a rejection, leaves the dictionary as it was. */
  lemma WeatherMapSnoc(settled: seq<Settled<WeatherResponse>>, x: Settled<WeatherResponse>)
    ensures WeatherMap(settled + [x]) ==
      if x.Fulfilled? then WeatherMap(settled)[x.value.id := x.value] else WeatherMap(settled)
  {
    FulfilledValuesSnoc(settled, x);
    if x.Fulfilled? {
      ReduceSnoc(FulfilledValues(settled), x.value);
    } else {
      assert FulfilledValues(settled + [x]) == FulfilledValues(settled);
    }
  }

  /** A key is in the dictionary exactly when some fulfilled lookup carries it:
      rejected lookups leave no trace. */
  lemma WeatherMapKeys(settled: seq<Settled<WeatherResponse>>, k: string)
    ensures k in WeatherMap(settled) <==>
      exists j :: 0 <= j < |settled| && settled[j].Fulfilled? && settled[j].value.id == k
  {
    var ws := FulfilledValues(settled);
    if k in WeatherMap(settled) {
      var w :| w in ws && w.id == k;
      var j :| 0 <= j < |settled| && settled[j] == Fulfilled(w);
    }
    if exists j :: 0 <= j < |settled| && settled[j].Fulfilled? && settled[j].value.id == k {
      var j :| 0 <= j < |settled| && settled[j].Fulfilled? && settled[j].value.id == k;
      assert Fulfilled(settled[j].value) in settled;
      assert settled[j].value in ws;
    }
  }

  /** When several fulfilled lookups share a key, the last one in order wins. */
  lemma {:induction false} WeatherMapLaterWins(settled: seq<Settled<WeatherResponse>>, j: nat)
    requires j < |settled| && settled[j].Fulfilled?
    requires forall j' :: j < j' < |settled| && settled[j'].Fulfilled? ==> settled[j'].value.id != settled[j].value.id
    ensures settled[j].value.id in WeatherMap(settled)
    ensures WeatherMap(settled)[settled[j].value.id] == settled[j].value
  {
    var init := settled[..|settled| - 1];
    var x := settled[|settled| - 1];
    assert settled == init + [x];
    WeatherMapSnoc(init, x);
    if j < |init| {
      assert init[j] == settled[j];
      forall j' | j < j' < |init| && init[j'].Fulfilled?
        ensures init[j'].value.id != init[j].value.id
      {
        assert init[j'] == settled[j'];
      }
      WeatherMapLaterWins(init, j);
    }
  }

  // ---------------------------------------------------------------------------
  // Attaching the weather and answering
  // ---------------------------------------------------------------------------

  /** The output map of the steps: every field kept, `weather` replaced by the
      dictionary entry for the step's own key (absent when there is none). */
  function AttachWeather(steps: seq<RouteStep>, m: map<string, WeatherResponse>): (r: seq<RouteStep>)
    ensures |r| == |steps|
    ensures forall i :: 0 <= i < |steps| ==>
      && r[i].direction == steps[i].direction
      && r[i].location == steps[i].location
      && (LocationKey(steps[i].location) in m <==> r[i].weather.Some?)
      && (r[i].weather.Some? ==> r[i].weather.value == m[LocationKey(steps[i].location)])
  {
    seq(|steps|, i requires 0 <= i < |steps| =>
      var k := LocationKey(steps[i].location);
      steps[i].(weather := if k in m then Some(m[k]) else None))
  }

  /** The whole join for a non-empty step list: filter, fan out, settle, fold,
      re-map. `raw` holds what the weather service produced for each lookup. */
  function Join(steps: seq<RouteStep>, raw: seq<Settled<WeatherResponse>>): (r: seq<RouteStep>)
    requires |raw| == |Lookups(steps)|
    ensures |r| == |steps|
    ensures forall i :: 0 <= i < |r| && r[i].weather.Some? ==>
      r[i].weather.value.id == LocationKey(steps[i].location)
  {
    AttachWeather(steps, WeatherMap(Settle(Lookups(steps), raw)))
  }

  /** The join keeps the number and order of the steps and each step's
      direction and location. */
  lemma JoinShape(steps: seq<RouteStep>, raw: seq<Settled<WeatherResponse>>)
    requires |raw| == |Lookups(steps)|
    ensures |Join(steps, raw)| == |steps|
    ensures forall i :: 0 <= i < |steps| ==>
      Join(steps, raw)[i].direction == steps[i].direction && Join(steps, raw)[i].location == steps[i].location
  {
  }

  /** A step gets weather exactly when a lookup for its very coordinates was
      fulfilled. */
  lemma JoinWeatherPresent(steps: seq<RouteStep>, raw: seq<Settled<WeatherResponse>>, i: nat)
    requires |raw| == |Lookups(steps)| && i < |steps|
    ensures Join(steps, raw)[i].weather.Some? <==>
      exists j :: 0 <= j < |raw| && Some(Lookups(steps)[j]) == steps[i].location && raw[j].Fulfilled?
  {
    var lookups := Lookups(steps);
    var settled := Settle(lookups, raw);
    var k := LocationKey(steps[i].location);
    var m := WeatherMap(settled);
    assert Join(steps, raw) == AttachWeather(steps, m);
    assert Join(steps, raw)[i].weather.Some? <==> k in m;
    WeatherMapKeys(settled, k);
    if k in m {
      var j :| 0 <= j < |settled| && settled[j].Fulfilled? && settled[j].value.id == k;
      LocationKeyInjective(Some(lookups[j]), steps[i].location);
    }
    if exists j :: 0 <= j < |raw| && Some(lookups[j]) == steps[i].location && raw[j].Fulfilled? {
      var j :| 0 <= j < |raw| && Some(lookups[j]) == steps[i].location && raw[j].Fulfilled?;
      assert settled[j].Fulfilled? && settled[j].value.id == k;
    }
  }

  /** The weather a step gets is the last fulfilled answer for its coordinates,
      stamped with the step's key. */
  lemma JoinWeatherValue(steps: seq<RouteStep>, raw: seq<Settled<WeatherResponse>>, i: nat, j: nat)
    requires |raw| == |Lookups(steps)| && i < |steps| && j < |raw|
    requires Some(Lookups(steps)[j]) == steps[i].location && raw[j].Fulfilled?
    requires forall j' :: j < j' < |raw| && Lookups(steps)[j'] == Lookups(steps)[j] ==> raw[j'].Rejected?
    ensures Join(steps, raw)[i].weather == Some(raw[j].value.(id := LocationKey(steps[i].location)))
  {
    var lookups := Lookups(steps);
    var settled := Settle(lookups, raw);
    forall j' | j < j' < |settled| && settled[j'].Fulfilled?
      ensures settled[j'].value.id != settled[j].value.id
    {
      LocationKeyInjective(Some(lookups[j']), Some(lookups[j]));
    }
    WeatherMapLaterWins(settled, j);
  }

  /** A step without a location, or with a zero coordinate, gets no weather,
      whatever the weather service answered. */
  lemma JoinSkipsUnselected(steps: seq<RouteStep>, raw: seq<Settled<WeatherResponse>>, i: nat)
    requires |raw| == |Lookups(steps)| && i < |steps| && !Selected(steps[i])
    ensures Join(steps, raw)[i].weather == None
  {
    JoinWeatherPresent(steps, raw, i);
  }

  /** Steps at the same location get the same weather. */
  lemma JoinSameLocationSameWeather(steps: seq<RouteStep>, raw: seq<Settled<WeatherResponse>>, i: nat, i': nat)
    requires |raw| == |Lookups(steps)| && i < |steps| && i' < |steps|
    requires steps[i].location == steps[i'].location
    ensures Join(steps, raw)[i].weather == Join(steps, raw)[i'].weather
  {
  }

  /** The status and body the handler sends. */
  datatype Reply = Reply(status: int, body: Option<RouteResponse>)

  /** The weather join runs only when `steps` is present and non-empty. */
  predicate HasSteps(route: RouteResponse)
  {
    route.steps.Some? && |route.steps.value| > 0
  }

  /** `handler`: 400 with a null body when the route fetch fails; otherwise 200
      with the route, its steps joined with their weather when there are any.
      `raw` is what the weather service produced for each issued lookup. */
  function Handler(fetched: Result<RouteResponse>, raw: seq<Settled<WeatherResponse>>): (r: Reply)
    requires fetched.Ok? && HasSteps(fetched.value) ==> |raw| == |Lookups(fetched.value.steps.value)|
    ensures r.status == (if fetched.Ok? then 200 else 400)
    ensures fetched.Err? ==> r.body == None
    ensures fetched.Ok? && !HasSteps(fetched.value) ==> r.body == Some(fetched.value)
    ensures fetched.Ok? && HasSteps(fetched.value) ==>
      && r.body.Some?
      && r.body.value.duration == fetched.value.duration
      && r.body.value.distance == fetched.value.distance
      && r.body.value.steps.Some?
      && |r.body.value.steps.value| == |fetched.value.steps.value|
    ensures fetched.Ok? && HasSteps(fetched.value) ==>
      r.body == Some(fetched.value.(steps := Some(Join(fetched.value.steps.value, raw))))
  {
    match fetched
    case Err => Reply(400, None)
    case Ok(route) =>
      if HasSteps(route) then
        JoinShape(route.steps.value, raw);
        Reply(200, Some(route.(steps := Some(Join(route.steps.value, raw)))))
      else
        Reply(200, Some(route))
  }
}

/** A worked case of the endpoint: a two-step route whose first lookup succeeds
    and whose second fails. */
module RouteApiExample {
  import opened Types
  import opened RouteApi
  import NumberFormat

  const Left := RouteStep(Some("turn-left"), Some(Coords(10, 20)), None)
  const Right := RouteStep(Some("turn-right"), Some(Coords(30, 40)), None)
  const Answers := [Fulfilled(WeatherResponse("", "clear sky", 18)), Rejected]

  lemma TwoStepsOneLookupFails()
    ensures
      var route := RouteResponse(600, 4200, Some([Left, Right]));
      Handler(Ok(route), Answers) == Reply(200, Some(route.(steps := Some([
        Left.(weather := Some(WeatherResponse("10:20", "clear sky", 18))),
        Right]))))
  {
    ExampleJoin();
  }

  lemma ExampleLookups()
    ensures Lookups([Left, Right]) == [Coords(10, 20), Coords(30, 40)]
  {
    assert [Left, Right][1..] == [Right];
    assert Lookups([Right]) == [Coords(30, 40)];
  }

  lemma ExampleJoin()
    ensures Join([Left, Right], Answers) ==
      [Left.(weather := Some(WeatherResponse("10:20", "clear sky", 18))), Right]
  {
    ExampleLookups();
    var steps := [Left, Right];
    var out := Join(steps, Answers);
    JoinShape(steps, Answers);
    JoinWeatherValue(steps, Answers, 0, 0);
    JoinWeatherPresent(steps, Answers, 1);
    TenTwentyKey();
    assert out[0] == Left.(weather := Some(WeatherResponse("10:20", "clear sky", 18)));
    assert out[1] == Right;
  }

  lemma TenTwentyKey()
    ensures LocationKey(Some(Coords(10, 20))) == "10:20"
  {
    assert NumberFormat.NatStr(1) == "1";
    assert NumberFormat.NatStr(2) == "2";
    assert NumberFormat.NumStr(10) == "10";
    assert NumberFormat.NumStr(20) == "20";
  }
}
