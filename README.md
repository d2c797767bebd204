# wa-source-nws: storm proximity selection and the report cache, in Dafny

This project models the two parts of `index.js` of the `nws-testing` weather
source that carry logic of their own:

- **findNearestStorms** reads the national alert feed. Each `entry` becomes an
  alert object, and its `cap:polygon` text is split into vertices. The function
  collects `allAlerts` in feed order and the `nearbyAlerts` subset. It also keeps
  one alert as `closestStorm`.
- **getWeatherData** serves a report from the module-level cache (`lastCall`,
  `cacheTime`, `lastResults`). When the cache window is over, it refreshes the
  report from three parallel tasks.

The modules are:

- `Text` (text.dfy): JavaScript `split` with a one-character separator.
- `Polygon` (polygon.dfy): the vertex parsing.
- `Selection` (selection.dfy): order-preserving selection.
- `Storms` (storms.dfy): the `Alert` class, the specification of the result, and the methods.
- `StormProperties` (storm_properties.dfy): properties of the result.
- `WeatherCache` (cache.dfy): the cache as a class.

`Wrappers` (wrappers.dfy) holds `Option`, which stands for a property that may
be `undefined`.

How the model is built:

- **Alert objects.** An alert is a class whose `polygon`, `distance` and
  `bearing` are updated in place. `closestStorm` holds a reference to one of
  these objects, exactly as in the source. As a result, when the nearby step
  later writes `alert.distance`, it overwrites the closest storm's distance too.
- **Geodesic and date libraries.** `geolib` (distance in miles, bearing, point
  in polygon) and `moment(...).format('X')` are fields of a `Libs` value. They
  are arbitrary functions, and every result holds whatever they compute.
- **What is proved.** `FindNearestStorms` is proved against a closed-form
  description of its result, `Storms.Resolved`:
  - `allAlerts` holds one distinct, newly built object per entry, in feed order.
    Each object has the contents `Expected` gives.
  - `nearbyAlerts` is `Select` of the nearby flags.
  - `closestStorm` is null (the source's `{}`) or the very object at `ClosestIndex`.

  The lemmas then derive the source's guarantees from `Resolved`.

### Behaviour of index.js worth knowing

- **The closest storm is not a true minimum.** At index.js:56 the comparison is
  against `closestStormDistance`, which is declared at index.js:25 and never
  assigned. `distance < undefined` is false in JavaScript, so the effective rule
  is:
  - `closestStorm` is replaced at every vertex while its `event` is undefined.
  - It therefore becomes the first alert that has a defined event and at least
    one vertex.
  - If no alert has both, it becomes the alert owning the last vertex.
  - Its bearing is taken at the first vertex of that alert, or at the last
    vertex when the event is undefined.
  - Its distance is 0 if it contains the location. Otherwise it is its first
    vertex's distance if that is below the range. Otherwise it is the distance
    the vertex loop wrote at the vertex its bearing was taken at (index.js:58).
- **Only the first vertex is tested against the radius.** The radius test looks
  at the first vertex only, because the `some` callback always returns `true`.
- **Longitude parsing.** A vertex's longitude is `pointParts[1]`: the text
  between the first comma and the next comma. It is `undefined` when there is
  no comma.
- **No radius in the report.** The report has no `radius` field. `alerts` and
  `alert_count` sit at the top level of the report.
- **Failed refresh.** When a refresh fails, `on_finish` is never called, even
  when an earlier report exists. `lastCall` keeps its new value, so requests
  within the window are served the old `lastResults` (possibly `{}`).

## Model

| member | source | states |
|---|---|---|
| `Text.JoinSplit` | index.js:41 | Splitting on a separator loses nothing: joining the pieces with the separator gives the text back |
| `Text.SplitJoin` | index.js:46 | Pieces free of the separator are recovered exactly by splitting their join, so `Split` gives exactly JavaScript's pieces |
| `Text.SplitPiecesLackSeparator` | index.js:41 | No piece of a split contains the separator |
| `Polygon.VertexFields` | index.js:46-50 | A vertex's latitude is the token text before the first comma (the whole token if there is none). Its longitude is the text between the first comma and the next comma or the end. The longitude is missing exactly when the token has no comma |
| `Polygon.VerticesFollowTokens` | index.js:41-52 | The polygon has one vertex per non-empty space-separated token, in token order. The j-th token, if non-empty, becomes the vertex at the position equal to the number of non-empty tokens before it |
| `Selection.SelectIsSubsequence` | index.js:65-77 | The selection embeds into the full sequence at increasing positions, and those positions are exactly the flagged ones |
| `Selection.SelectedIffFlagged` | index.js:65-77 | With no repeated objects, an element is selected exactly when its own flag is set |
| `Storms.Alert.constructor` | index.js:31-39 | A new alert copies the entry's fields, formats both dates with the date routine, and starts with an empty polygon and no distance or bearing |
| `Storms.FirstAnchorIsFirst` | index.js:56-57 | `FirstAnchor` finds the entry of smallest position that has a defined event and a vertex, and None only when there is none |
| `Storms.LastWithVerticesIsLast` | index.js:41-57 | `LastWithVertices` finds the entry of largest position that has a vertex, and None only when no entry has one |
| `Storms.ClosestStormChoice` | index.js:24-60 | `closestStorm` stays `{}` exactly when no alert has a vertex. Otherwise it is the first alert with a defined event and a vertex. Failing that, it is the last alert with a vertex |
| `Storms.ScanVertices` | index.js:41-61 | The token loop pushes one vertex per non-empty token. The alert's distance and bearing are set, and it becomes `closestStorm`, exactly when no earlier alert anchored `closestStorm` and its polygon is non-empty. The values are taken at the first vertex if its event is defined, else at the last vertex |
| `Storms.ResolveEntry` | index.js:30-78 | Per entry: a fresh alert with the expected contents. `closestStorm` moves to it exactly as the vertex rule says. It is appended to `nearbyAlerts` exactly when it contains the location or its first vertex is within range |
| `Storms.FindNearestStorms` | index.js:19-85 | The result is `Resolved`: one distinct alert per entry in feed order with the expected contents, `nearbyAlerts` is the order-preserving selection of the nearby alerts, and `closestStorm` is `{}` or the very alert object at the closest index. Every alert is a new object, built by this call |
| `StormProperties.NearbyAlertsRule` | index.js:63-75 | `nearbyAlerts` is an order-preserving subsequence of `allAlerts`. An alert is in it iff the containment test holds, or its polygon is non-empty and the first vertex's distance is below the range. A containing alert has distance 0 whatever the range. An alert admitted by range carries its first vertex's distance |
| `StormProperties.EmptyPolygonKeepsClosest` | index.js:41-61 | An entry with an empty polygon leaves the closest index where it was |
| `StormProperties.EmptyPolygonAlert` | index.js:41-75 | An alert with an empty polygon is never `closestStorm` and has no bearing. It is nearby only if the containment test accepts the empty polygon |
| `StormProperties.ClosestStormFields` | index.js:56-75 | The closest storm has a vertex. Its bearing is taken at its first vertex (event defined) or its last vertex (event undefined). Its distance is 0 if it contains the location, else the first vertex's distance if that is within range, else the distance at that same bearing vertex |
| `WeatherCache.NwsSource.constructor` | index.js:7-13 | Initially `lastCall` is 0, `cacheTime` is 60, `lastResults` is `{}` and the alert range is 50 |
| `WeatherCache.NwsSource.GetWeatherData` | index.js:97-170 | If `lastCall + cacheTime - now > 0`, it hands back `lastResults` with no fetch and no state change. Otherwise `lastCall := now` before fetching, so a refresh also happens when exactly 0 seconds remain. On error nothing else changes and `on_finish` is not called. On success `lastResults` is replaced wholesale: the timestamp, place and conditions come from the fetch, `alerts` and `nearest_storm` come from a `Resolved` run over the feed with the current range, and `alert_count = \|alerts\|`. The new report shares no alert object with the one it replaces: all of its alerts were built by this call |
| `WeatherCache.RepeatWithinWindow` | index.js:98-106 | A second request inside the window opened by a successful refresh gets the very same results and launches no fetch |
| `WeatherCache.RepeatAfterFailure` | index.js:98-119 | After a failed refresh, a request inside the window gets the results held before (possibly `{}`) and launches no fetch |

## Left out

- **Geodesic routines and unit conversion.** `geolib.getDistance`,
  `geolib.convertUnit`, `geolib.getBearing` and `geolib.isPointInside` are
  floating-point library code. They are arbitrary functions in `Libs`, and
  distances are reals, with no rounding modelled.
- **Date formatting.** `moment(...).format('X')` is the opaque `Libs.unixSeconds`.
- **Feed parsing and file reads.**
  - The XML document and the file read are not modelled. The feed is a sequence
    of `Entry` values.
  - An entry's absent `title`, `summary`, `link` or date is not told apart from
    a present one. Only an absent `cap:event` matters to the logic, and it is
    an `Option`.
  - An entry without a `cap:polygon` element makes the source throw on `.split`.
    The model always has a polygon text.
- **The local-conditions tasks.** `getLocalWeatherJSON` and `getLocalWeatherXML`,
  and the field-by-field projection of temperatures, winds and icons into the
  report, are not modelled. The projected `location`, `now` and `today` blocks
  arrive ready-made in `Fetched`. The unused `pops_hourly` list is dropped.
- **`async.parallel`.**
  - The fan-out and its concurrency are not modelled. The three tasks either all
    succeed (`Fetched`) or one fails (`Failed`).
  - The callback runs within the same call. Requests that arrive while a refresh
    is in flight are not interleaved.
- **`WeatherCache.NwsSource.GetWeatherData`: the clock.** It reads `now()` once
  for both line 98 and line 105. Two readings that straddle a second boundary
  are not modelled. The `now()` of line 135 is the separate `finishedAt`.
- **Logging and metadata.** `console.info` logging and the exported `source`
  metadata have no effect on results.
- **The commented-out report template.** It is dead code, and the icon mapping
  it calls is not defined in `index.js`.
- **`lib/simpleRequest.js`.** It is not part of this model: it is HTTP/file I/O.
