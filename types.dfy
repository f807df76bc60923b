/** The records exchanged by the route endpoint (src/types.ts), together with the
    small wrapper datatypes the model uses for values that may be absent, for a
    fetch that may fail and for a promise once it has settled. */
module Types {

  /** A value that may be missing: `null` / `undefined` in the source. */
  datatype Option<+T> = None | Some(value: T)

  /** The outcome of an awaited call that may throw. A failure carries no detail:
      the handler only logs it. */
  datatype Result<+T> = Ok(value: T) | Err

  /** A promise after `Promise.allSettled`: either its value or a rejection. */
  datatype Settled<+T> = Fulfilled(value: T) | Rejected

  /** A coordinate pair. The source holds JavaScript numbers; the model holds
      integers, and a coordinate is "truthy" when it is non-zero. */
  datatype Coords = Coords(lat: int, lng: int)

  /** What the weather service answers, and (with `id` stamped by the handler)
      what is attached to a step. */
  datatype WeatherResponse = WeatherResponse(id: string, description: string, temperature: int)

  /** One route step as it travels through the endpoint (`RouteStepWithWeather`):
      a nullable direction, nullable coordinates and an optional weather sample. */
  datatype RouteStep = RouteStep(
    direction: Option<string>,
    location: Option<Coords>,
    weather: Option<WeatherResponse>)

  /** The routing service's answer and the endpoint's body: `steps` may be null
      or undefined, both modelled as `None`. */
  datatype RouteResponse = RouteResponse(duration: int, distance: int, steps: Option<seq<RouteStep>>)

  /** JavaScript truthiness of a coordinate (`!!x`): zero is falsy. */
  predicate Truthy(x: int)
  {
    x != 0
  }
}
