# wu-pws-api core in Dafny

A model of the core of a small personal-weather-station uploader that sends
readings to Weather Underground's upload endpoint:

- **Unit conversions** (`src/utils.py`): Celsius to Fahrenheit, hPa to inHg,
  mm to inches, over exact reals (the code does no rounding).
- **Rain tracker** (`src/helpers.py`): a list of `(amount_mm, time)` rain
  events and `get_past_hour`, which sums the events whose age passes a
  filter. The filter reads `timedelta.seconds`, the seconds-within-a-day
  field of the age, not the whole age, so an event counts when its age
  modulo one day is at most 3600 whole seconds. Events about a day old
  count again, and an event dated in the future does not. Time is whole
  microseconds (the resolution of `datetime`); Python's normalisation of a
  `timedelta` is modelled in module `Timedelta`. The clock read
  (`datetime.now()`) is a parameter `now`.
- **Request builder** (`src/api.py`): the `API` object (station id,
  password, endpoint), `start_request`, the validating setters
  `temperature_celsius` and `humidity`, and the URL `send` fetches:
  `api_url + "?ID=<id>&password=<pw>&dateutc=now" + "&k=v"… + "&action=updateraw"`.
  The parameter dict is an insertion-ordered sequence of key/value pairs
  with Python dict semantics (module `Dict`): assigning an existing key keeps
  its position, a new key is appended. A value is a Python number, an int
  or a float, because the f-string prints `50` and `50.0` differently.

One defect of the source is kept in the model on purpose, since it is
what the code does: `Request.params` is a class attribute
(`src/api.py:12`), so every request, from any `API` object, reads and
writes one dict. The model holds that single dict in `Api.World`;
`Api.ParamsSharedAcrossRequests` shows a value set through one builder
reaching another's query string.

A `Request` keeps a reference to its `API` object, not a copy. As a
consequence, a later `change_api_url` changes where an already started
request sends. The model's `Request` is an index into `World.apis` for
that reason.

Two other defects are logged under "## Findings". In both cases the rest of
the model uses the intended behaviour: `register_rain` appends to the list,
and a new tracker starts with an empty list.

The code writes the field `password=` in lower case and stores only
`tempf` and `humidity`; the model does the same.

Modules: `Wrappers` (Option, Result), `Units`, `Timedelta`, `Rain`, `Dict`,
`Fields` (joining fields with a separator and splitting them back), `Api`.

## Model

| member | source | states |
|---|---|---|
| Units.CelsiusToFahrenheit | src/utils.py:1-2 | the result converts back to the input under `(f - 32) / 1.8` |
| Units.FahrenheitRoundTrip | src/utils.py:1-2 | Celsius to Fahrenheit and `(f - 32) / 1.8` are inverse in both directions |
| Units.CelsiusToFahrenheitReferencePoints | src/utils.py:1-2 | 0 maps to 32, 100 to 212, and -40 is the one reading both scales share |
| Units.CelsiusToFahrenheitStrictlyIncreasing | src/utils.py:1-2 | a < b exactly when their Fahrenheit readings are in the same order |
| Units.HpaToInhg | src/utils.py:4-6 | dividing the result by the factor gives the pressure back, and the result has the pressure's sign (zero, positive or negative) |
| Units.HpaToInhgLinear | src/utils.py:4-6 | 0 maps to 0, the conversion is additive and homogeneous, and it preserves order in both directions |
| Units.MmToInches | src/utils.py:8-9 | the result times 25.4 is the millimetre input |
| Units.MmToInchesAdditive | src/utils.py:8-9 | 25.4 mm is 1 inch, 0 is 0, and the conversion of a sum is the sum of the conversions |
| Timedelta.Between | src/helpers.py:25 | `now - event.time` is a timedelta with 0 <= seconds < 86400 and 0 <= microseconds < 10^6 that stands for exactly the difference |
| Timedelta.NormalisedUnique | src/helpers.py:25 | two normalised timedeltas for the same duration are equal |
| Timedelta.ShiftByDays | src/helpers.py:25-27 | moving a duration by k days changes only `days`, by k; `seconds` and `microseconds` stay |
| Rain.InPastHour | src/helpers.py:25-28 | the `.seconds <= 3600` filter holds exactly when the age taken modulo one day is under 3601 seconds |
| Rain.Window | src/helpers.py:24-30 | the counted events are every occurrence of an event that passes the filter, as often as it occurs in the list, and no other event |
| Rain.RegisterRain | src/helpers.py:12-14 | the intended append: the earlier events are kept in order and the new one is last |
| Rain.GetPastHour | src/helpers.py:16-32 | the source's loop returns the sum of the amounts of the events that pass the filter, the tracker being a value it cannot change |
| Rain.InPastHourWithinFirstDay | src/helpers.py:25-28 | for an age under a day, an event counts exactly when it is less than 3601 s old |
| Rain.InPastHourPeriodic | src/helpers.py:25-27 | moving an event by whole days never changes whether it counts |
| Rain.WindowBoundaries | src/helpers.py:25-28 | 3600 s old counts, 3601 s old does not, 24 h 10 min old counts, and 10 s in the future (`.seconds` 86390) does not |
| Rain.PastHourAppend | src/helpers.py:24-30 | an event added at the end raises the total by its amount exactly when it passes the filter |
| Rain.PastHourConcat | src/helpers.py:24-30 | the total over two lists in a row is the sum of their totals |
| Rain.PastHourPermutation | src/helpers.py:24-30 | the total is the same for any reordering of the events |
| Rain.PastHourBounds | src/helpers.py:21-32 | with no negative amounts the total is between 0 and the sum of all amounts |
| Rain.NewTracker | src/helpers.py:9-10 | the intended initial tracker reports a past-hour total of 0 at every moment |
| Rain.NewTrackerPastHourIsZero | src/helpers.py:9-10 | a new tracker has no events and a past-hour total of 0 |
| Rain.RegisterThenPastHour | src/helpers.py:12-32 | registering an event raises the past-hour total by its amount exactly when it passes the filter |
| Rain.RegisterRainAsWritten | src/helpers.py:12-13 | as written, every call raises NameError |
| Rain.GetPastHourAsWritten | src/helpers.py:10-32 | as written, it raises AttributeError exactly when `rain_events` was never assigned, and otherwise returns the past-hour total |
| Rain.AsWrittenTrackerLosesRain | src/helpers.py:10-13 | as written, registering always fails and a fresh tracker cannot report, while the intended tracker reports the registered rain |
| Dict.Lookup | src/api.py:18 | a lookup misses exactly when the key is absent, and a hit is a stored entry |
| Dict.Assign | src/api.py:18 | `d[k] = v`: a present key keeps its position, a new key goes last, and every entry with another key stays where and as it was |
| Dict.AssignLookup | src/api.py:18 | after `d[k] = v`, k maps to v and every other key maps to what it did before |
| Dict.AssignKeepsDistinct | src/api.py:18 | assignment never makes a key occur twice |
| Dict.KeysConcat | src/api.py:31 | the keys of entries laid end to end are the first entries' keys followed by the second's |
| Fields.Split | src/api.py:29-34 | splitting always gives at least one piece and no piece contains the separator |
| Fields.JoinConcat | src/api.py:31-34 | joining two non-empty field lists puts exactly one separator between their joins |
| Fields.SplitJoin | src/api.py:29-34 | splitting joined fields gives the fields back when none contains the separator |
| Fields.JoinSplit | src/api.py:29-34 | joining the pieces of any string with the separator gives the string back |
| Api.InitialWorld | src/api.py:12 | before any object exists the class-level dict has no keys and there are no API objects |
| Api.NewApi | src/api.py:44-52 | a new API object has the given id and password and the default Weather Underground endpoint; other objects and the params dict stay as they were |
| Api.ChangeApiUrl | src/api.py:54-59 | only that object's endpoint changes; its id and password, the other objects and the params dict stay |
| Api.StartRequest | src/api.py:61-62 | the builder refers to the API object itself, so a later `change_api_url` on that object changes where the builder sends |
| Api.TemperatureCelsius | src/api.py:17-19 | `tempf` becomes the Fahrenheit reading as a float; the other keys keep their values and positions, keys stay distinct, and the builder itself is returned |
| Api.Humidity | src/api.py:21-26 | raises exactly when h > 100 or h < 0, leaving the dict unchanged; otherwise `humidity` becomes h exactly as given (an int stays an int), the other keys keep their values and positions, keys stay distinct, and the builder is returned |
| Api.IntAndFloatKeptApart | src/api.py:17-26 | `temperature_celsius(10)` stores the float 50.0 and `humidity(50)` the int 50, so the two print differently |
| Api.ParamFieldsConcat | src/api.py:31-32 | the `k=v` fields of parameters laid end to end are the first run's fields followed by the second's |
| Api.HeaderJoined | src/api.py:29 | the three header fields joined by `&` form the fixed prefix `?ID=…&password=…&dateutc=now` |
| Api.SuffixCompletesQuery | src/api.py:34 | appending `&action=updateraw` to the joined header and parameter fields gives the whole query string |
| Api.Send | src/api.py:28-37 | the source's loop builds the string passed to `requests.get`: the endpoint followed by `?`, then the header, one `k=v` per parameter in dict order and the trailer, joined by `&` |
| Api.QueryStringStartsWithPrefix | src/api.py:29 | every query string begins `?ID=<id>&password=<pw>&dateutc=now` |
| Api.QueryStringEndsWithSuffix | src/api.py:31-34 | every query string ends `&action=updateraw`; with no parameters it is exactly the prefix and that suffix |
| Api.QueryStringRoundTrip | src/api.py:29-34 | when nothing contains `&`, splitting the query gives back the header, each parameter once as `k=v` in dict order, and the trailer |
| Api.StoredParamIsQueried | src/api.py:31-32 | every stored `k: v` pair appears as the field `k=v` of the query |
| Api.ParamsSharedAcrossRequests | src/api.py:12-26 | a humidity set through a builder from one API object appears in the query fields of a builder from any API object |

## Left out

- The HTTP GET and the `print` in `send` (`src/api.py:36-37`) are network and console I/O. `Api.Send` returns the string `send` prints and passes to `requests.get`.
- Api.Send: the `requests` library's own URL preparation before fetching is not modelled. It percent-encodes spaces and non-ASCII characters, drops a `#` fragment and normalises escapes such as `%41`, so the URL actually fetched can differ from the returned string.
- `datetime.now()` (`src/helpers.py:22`) reads the clock; it is the parameter `now`.
- Python floats: a float value is an exact real. Python's `str()` of a number inside the f-string is the parameter `show`, which sees whether the number is an int or a float. The f-string itself does no URL-encoding, and neither does the model.
- Api.Humidity: NaN, which passes both comparisons in Python and would be stored, does not exist among reals.
- Api.QueryStringRoundTrip: this holds only when no station id, password, key or printed value contains `&`, because the code does no escaping.
- Rain.GetPastHour: Python's `rain` starts as the integer 0, so an empty tracker returns `0` rather than `0.0`. Over reals the two are the same.
- Wind tracking, daily totals, window clean-up, realtime mode, dew point, rounding and kph to mph are not in the modelled source files.

## Findings

| source | as written | input that shows it | evidently intended | confidence | as-written member | corrected member |
|---|---|---|---|---|---|---|
| src/helpers.py:13 | `register_rain` appends to `rain_event`, a name that is defined nowhere | any call, for example `register_rain(RainEvent(1.0, now))` on any tracker, raises NameError | append to `self.rain_events` and return the tracker | high (not executed) | Rain.RegisterRainAsWritten, Rain.AsWrittenTrackerLosesRain | Rain.RegisterRain, Rain.RegisterThenPastHour |
| src/helpers.py:10 | `rain_events` is only annotated, so a new tracker has no such attribute | `RainTracker().get_past_hour()` raises AttributeError | a new tracker starts with an empty list and reports 0 | high (not executed) | Rain.GetPastHourAsWritten, Rain.AsWrittenTrackerLosesRain | Rain.NewTracker, Rain.NewTrackerPastHourIsZero |
