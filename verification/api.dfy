/** The upload request builder and the API object it sends through
    (src/api.py).

    `params` is a class attribute of `Request`, assigned once in the class
    body: every `Request`, whichever `API` object started it, reads and
    writes the same dict. The model keeps that single dict in the World,
    beside the API objects, so a value set through one builder is seen by
    every other builder. This sharing is a defect of the source (values
    leak from one upload into the next) that the model reproduces.

    Values are Python numbers, an int or a float, the float as an exact
    real. How Python prints a number inside the f-string is the parameter
    `show`. The model stops at the string `send` prints and passes to
    `requests.get`; how that library prepares a URL before fetching it is
    not modelled. */
module Api {
  import opened Wrappers
  import opened Dict
  import opened Fields
  import Units

  /** The class default of `API.api_url`. */
  const DefaultApiUrl: string := "https://weatherstation.wunderground.com/weatherstation/updateweatherstation.php"

  /** The field that closes every query string. */
  const Trailer: string := "action=updateraw"

  /** An `API` object. */
  datatype ApiObject = ApiObject(stationId: string, password: string, apiUrl: string)

  /** A Python number as the setters receive and store it. The f-string of
      `send` prints an int and a float of the same value differently
      (`50` and `50.0`), so the two are kept apart. */
  datatype Number = Int(i: int) | Float(f: real)

  /** The numeric value of a number, as Python compares and multiplies it. */
  function Real(n: Number): real
  {
    match n
    case Int(i) => i as real
    case Float(f) => f
  }

  /** The contents of `Request.params`. */
  type Params = seq<(string, Number)>

  /** A `Request` object: it holds only a reference to the `API` object that
      started it, here the index of that object in the World. */
  datatype Request = Request(api: nat)

  /** Every mutable object the code touches: the `API` objects created so
      far and the one `Request.params` dict. */
  datatype World = World(apis: seq<ApiObject>, params: Params)

  /** What holds of every World the code can reach: `params` is a dict, so
      no key occurs twice. */
  predicate Valid(w: World)
  {
    Distinct(Keys(w.params))
  }

  /** The ValueError raised by `humidity`, carrying the rejected value. */
  datatype ValueError = HumidityOutOfRange(got: Number)

  /** The World after a builder call, and what the call did: returned the
      builder, or raised. */
  datatype Step = Step(world: World, result: Result<Request, ValueError>)

  /** Before any object exists: the class-level dict `params = {}` is empty. */
  function InitialWorld(): (w: World)
    ensures |w.apis| == 0 && Valid(w)
    ensures forall k :: Lookup(w.params, k) == None
  {
    World([], [])
  }

  /** `API(station_id, password)`: a new object with the default endpoint;
      nothing else changes. */
  function NewApi(w: World, stationId: string, password: string): (r: (World, nat))
    ensures r.1 == |w.apis| && |r.0.apis| == |w.apis| + 1
    ensures r.0.apis[r.1].stationId == stationId && r.0.apis[r.1].password == password
    ensures r.0.apis[r.1].apiUrl == DefaultApiUrl
    ensures r.0.apis[..|w.apis|] == w.apis
    ensures r.0.params == w.params
  {
    (World(w.apis + [ApiObject(stationId, password, DefaultApiUrl)], w.params), |w.apis|)
  }

  /** `change_api_url`: only the endpoint of that one object changes. */
  function ChangeApiUrl(w: World, api: nat, url: string): (r: World)
    requires api < |w.apis|
    ensures |r.apis| == |w.apis| && r.params == w.params
    ensures r.apis[api].apiUrl == url
    ensures r.apis[api].stationId == w.apis[api].stationId
    ensures r.apis[api].password == w.apis[api].password
    ensures forall i :: 0 <= i < |w.apis| && i != api ==> r.apis[i] == w.apis[i]
  {
    w.(apis := w.apis[api := w.apis[api].(apiUrl := url)])
  }

  /** `start_request`: a builder that refers to the API object itself, not
      to a copy of it, so a later `change_api_url` on that object changes
      where the builder sends. It brings no parameters of its own; it sees
      the shared dict. */
  function StartRequest(w: World, api: nat): (r: Request)
    requires api < |w.apis|
    ensures r.api < |w.apis| && w.apis[r.api] == w.apis[api]
    ensures forall url :: ChangeApiUrl(w, api, url).apis[r.api].apiUrl == url
  {
    Request(api)
  }

  /** `temperature_celsius`: stores the Fahrenheit reading, a float even
      when the argument is an int, under `tempf`; leaves every other key,
      its value and its position alone; and returns the same builder. */
  function TemperatureCelsius(w: World, req: Request, celsius: Number): (r: (World, Request))
    ensures r.1 == req && r.0.apis == w.apis
    ensures Lookup(r.0.params, "tempf") == Some(Float(Units.CelsiusToFahrenheit(Real(celsius))))
    ensures forall k :: k != "tempf" ==> Lookup(r.0.params, k) == Lookup(w.params, k)
    ensures Keys(r.0.params) == if "tempf" in Keys(w.params) then Keys(w.params) else Keys(w.params) + ["tempf"]
    ensures Valid(w) ==> Valid(r.0)
  {
    var fahrenheit := Float(Units.CelsiusToFahrenheit(Real(celsius)));
    AssignLookup(w.params, "tempf", fahrenheit);
    AssignKeepsDistinct(w.params, "tempf", fahrenheit);
    (w.(params := Assign(w.params, "tempf", fahrenheit)), req)
  }

  /** `humidity`: raises when the value is above 100 or below 0, leaving
      the dict as it was; otherwise stores the value as given (an int stays
      an int) under `humidity`, leaves every other key, its value and its
      position alone, and returns the same builder. */
  function Humidity(w: World, req: Request, humidity: Number): (r: Step)
    ensures r.result.Failure? <==> Real(humidity) > 100.0 || Real(humidity) < 0.0
    ensures r.result.Failure? ==> r.world == w && r.result.error == HumidityOutOfRange(humidity)
    ensures r.result.Success? ==> r.result.value == req && r.world.apis == w.apis
    ensures r.result.Success? ==> Lookup(r.world.params, "humidity") == Some(humidity)
    ensures r.result.Success? ==> forall k :: k != "humidity" ==> Lookup(r.world.params, k) == Lookup(w.params, k)
    ensures r.result.Success? ==>
      Keys(r.world.params) == if "humidity" in Keys(w.params) then Keys(w.params) else Keys(w.params) + ["humidity"]
    ensures Valid(w) ==> Valid(r.world)
  {
    if Real(humidity) > 100.0 || Real(humidity) < 0.0 then
      Step(w, Failure(HumidityOutOfRange(humidity)))
    else
      AssignLookup(w.params, "humidity", humidity);
      AssignKeepsDistinct(w.params, "humidity", humidity);
      Step(w.(params := Assign(w.params, "humidity", humidity)), Success(req))
  }

  /** An int and a float stay apart: `temperature_celsius(10)` stores the
      float 50.0, while `humidity(50)` stores the int 50. */
  lemma IntAndFloatKeptApart(w: World, req: Request)
    ensures var afterTemp := TemperatureCelsius(w, req, Int(10)).0;
            && Lookup(afterTemp.params, "tempf") == Some(Float(50.0))
            && Humidity(afterTemp, req, Int(50)).result.Success?
            && Lookup(Humidity(afterTemp, req, Int(50)).world.params, "humidity") == Some(Int(50))
            && Lookup(Humidity(afterTemp, req, Int(50)).world.params, "tempf") == Some(Float(50.0))
  {
  }

  // ---------------------------------------------------------------------
  // The query string

  /** One parameter as `send` writes it, `k=v`. */
  function Field(key: string, value: Number, show: Number -> string): string
  {
    key + "=" + show(value)
  }

  /** The parameter fields in dict order. */
  function ParamFields(params: Params, show: Number -> string): seq<string>
  {
    seq(|params|, i requires 0 <= i < |params| => Field(params[i].0, params[i].1, show))
  }

  /** The fields of two runs of parameters laid end to end are the fields
      of the first run followed by those of the second. */
  lemma ParamFieldsConcat(p: Params, q: Params, show: Number -> string)
    ensures ParamFields(p + q, show) == ParamFields(p, show) + ParamFields(q, show)
  {
  }

  /** The three fields that open every query string. */
  function Header(api: ApiObject): seq<string>
  {
    ["ID=" + api.stationId, "password=" + api.password, "dateutc=now"]
  }

  /** The fixed start of every query string: '?' and the header. */
  function Prefix(api: ApiObject): string
  {
    "?" + Join(Header(api), '&')
  }

  /** The closing `&action=updateraw` of every query string. */
  const Suffix: string := "&" + Trailer

  /** The prefix spelled out: the literal `send` starts from. */
  lemma HeaderJoined(api: ApiObject)
    ensures Prefix(api) == "?ID=" + api.stationId + "&password=" + api.password + "&dateutc=now"
  {
    var h := Header(api);
    assert h[1..] == ["password=" + api.password, "dateutc=now"];
    assert h[1..][1..] == ["dateutc=now"];
    assert Join(h[1..][1..], '&') == "dateutc=now";
    assert Join(h[1..], '&') == "password=" + api.password + "&dateutc=now";
    assert Join(h, '&') == "ID=" + api.stationId + "&password=" + api.password + "&dateutc=now";
  }

  /** All the fields of the query string, in order. */
  function QueryFields(api: ApiObject, params: Params, show: Number -> string): seq<string>
  {
    Header(api) + ParamFields(params, show) + [Trailer]
  }

  /** The query string `send` builds: '?' then the fields joined by '&'. */
  function QueryString(api: ApiObject, params: Params, show: Number -> string): string
  {
    "?" + Join(QueryFields(api, params, show), '&')
  }

  /** One more parameter adds one field at the end. */
  lemma ParamFieldsStep(api: ApiObject, params: Params, i: nat, show: Number -> string)
    requires i < |params|
    ensures Header(api) + ParamFields(params[..i + 1], show)
         == Header(api) + ParamFields(params[..i], show) + [Field(params[i].0, params[i].1, show)]
  {
  }

  /** Appending the suffix to the joined header and parameter fields
      completes the query string. */
  lemma SuffixCompletesQuery(api: ApiObject, params: Params, show: Number -> string)
    ensures "?" + Join(Header(api) + ParamFields(params, show), '&') + "&action=updateraw"
         == QueryString(api, params, show)
  {
    JoinConcat(Header(api) + ParamFields(params, show), [Trailer], '&');
  }

  /** `send`, up to the HTTP call: builds the query string the way the
      source does, by appending `&k=v` for each parameter to the fixed
      prefix and then the trailer, and returns the string `send` prints
      and passes to `requests.get`: the current endpoint of the builder's
      API object followed by the query string. */
  method Send(w: World, req: Request, show: Number -> string) returns (url: string)
    requires req.api < |w.apis|
    ensures url == w.apis[req.api].apiUrl + QueryString(w.apis[req.api], w.params, show)
  {
    var api := w.apis[req.api];
    var params := w.params;
    var query := "?ID=" + api.stationId + "&password=" + api.password + "&dateutc=now";
    HeaderJoined(api);
    assert query == Prefix(api);
    assert Header(api) + ParamFields(params[..0], show) == Header(api);
    var i := 0;
    while i < |params|
      invariant 0 <= i <= |params|
      invariant query == "?" + Join(Header(api) + ParamFields(params[..i], show), '&')
    {
      var (key, value) := params[i];
      ghost var before := Header(api) + ParamFields(params[..i], show);
      ParamFieldsStep(api, params, i, show);
      JoinConcat(before, [Field(key, value, show)], '&');
      query := query + "&" + key + "=" + show(value);
      i := i + 1;
    }
    assert params[..i] == params;
    SuffixCompletesQuery(api, params, show);
    query := query + "&action=updateraw";
    url := api.apiUrl + query;
  }

  /** Every query string begins with the fixed prefix carrying the
      station identity. */
  lemma QueryStringStartsWithPrefix(api: ApiObject, params: Params, show: Number -> string)
    ensures |Prefix(api)| <= |QueryString(api, params, show)|
    ensures QueryString(api, params, show)[..|Prefix(api)|] == Prefix(api)
  {
    var middle := ParamFields(params, show) + [Trailer];
    assert QueryFields(api, params, show) == Header(api) + middle;
    JoinConcat(Header(api), middle, '&');
    HeaderJoined(api);
    var q := QueryString(api, params, show);
    assert q == Prefix(api) + (['&'] + Join(middle, '&'));
  }

  /** Every query string ends with `&action=updateraw`; with no parameters
      it is exactly the prefix followed by that. */
  lemma QueryStringEndsWithSuffix(api: ApiObject, params: Params, show: Number -> string)
    ensures |Suffix| <= |QueryString(api, params, show)|
    ensures QueryString(api, params, show)[|QueryString(api, params, show)| - |Suffix|..] == Suffix
    ensures params == [] ==> QueryString(api, params, show) == Prefix(api) + Suffix
  {
    var rest := Header(api) + ParamFields(params, show);
    assert QueryFields(api, params, show) == rest + [Trailer];
    JoinConcat(rest, [Trailer], '&');
    var q := QueryString(api, params, show);
    assert q == ("?" + Join(rest, '&')) + Suffix;
    if params == [] {
      assert rest == Header(api);
      HeaderJoined(api);
    }
  }

  /** Reading the query string back: when neither the station identity,
      nor any key, nor any printed value contains '&', splitting what
      follows the '?' at '&' yields exactly the header, one `k=v` per
      parameter in dict order, and the trailer. */
  lemma QueryStringRoundTrip(api: ApiObject, params: Params, show: Number -> string)
    requires '&' !in api.stationId && '&' !in api.password
    requires forall i :: 0 <= i < |params| ==> '&' !in params[i].0 && '&' !in show(params[i].1)
    ensures var q := QueryString(api, params, show);
            |q| > 0 && q[0] == '?'
            && Split(q[1..], '&') == Header(api) + ParamFields(params, show) + [Trailer]
  {
    var fields := QueryFields(api, params, show);
    forall i | 0 <= i < |fields|
      ensures '&' !in fields[i]
    {
      if 3 <= i < 3 + |params| {
        assert fields[i] == params[i - 3].0 + "=" + show(params[i - 3].1);
      }
    }
    SplitJoin(fields, '&');
    assert QueryString(api, params, show)[1..] == Join(fields, '&');
  }

  /** A stored parameter appears among the query fields, whatever API
      object the query is built for. */
  lemma StoredParamIsQueried(api: ApiObject, params: Params, key: string, value: Number, show: Number -> string)
    requires Lookup(params, key) == Some(value)
    ensures Field(key, value, show) in QueryFields(api, params, show)
  {
    var i :| 0 <= i < |params| && params[i] == (key, value);
    assert QueryFields(api, params, show)[3 + i] == Field(key, value, show);
  }

  /** The shared dict: a humidity set through a builder started from one
      API object appears in the query string of a builder started from
      any API object, the same or another. */
  lemma ParamsSharedAcrossRequests(w: World, a: nat, b: nat, humidity: Number, show: Number -> string)
    requires a < |w.apis| && b < |w.apis|
    requires 0.0 <= Real(humidity) <= 100.0
    ensures var step := Humidity(w, StartRequest(w, a), humidity);
            && step.result.Success?
            && Field("humidity", humidity, show)
               in QueryFields(step.world.apis[StartRequest(step.world, b).api], step.world.params, show)
  {
    var step := Humidity(w, StartRequest(w, a), humidity);
    StoredParamIsQueried(step.world.apis[b], step.world.params, "humidity", humidity, show);
  }
}
