/**
 * getWeatherData (index.js) and the module-level state it reads and updates:
 * `lastCall`, `cacheTime`, `lastResults`, and the exported `options.alertRange`.
 * The three fetch tasks and the callback that merges them are one call here;
 * the clock readings and the outcome of the fetches are parameters.
 */
module WeatherCache {
  import opened Wrappers
  import opened Storms

  /** `location` of the report, taken from the JSON conditions. */
  datatype Place = Place(latitude: string, longitude: string, name: string)

  /** The `now` block of the report, projected from the two conditions feeds. */
  datatype Now = Now(temp: string, tempApparent: string, conditions: string, icon: string,
                     precipitationProbability: string, windSpeed: string, windBearing: string)

  /** The `today` block of the report. */
  datatype Today = Today(high: string, low: string, summary: string, icon: string)

  /** The outcome of the three parallel tasks: an error from any of them, or the
      conditions they yield together with the alert feed's entries. */
  datatype Fetched =
    | Failed
    | Fetched(place: Place, now: Now, today: Today, feed: seq<Entry>)

  /** The report object; `nearestStorm` is null for `{}`. */
  datatype Report = Report(
    lastUpdated: int,
    location: Place,
    nearestStorm: Alert?,
    alerts: seq<Alert>,
    alertCount: int,
    now: Now,
    today: Today)

  /** `lastResults`: the empty object `{}` until a refresh succeeds. */
  datatype Results = NoResults | Results(report: Report)

  class NwsSource {
    var lastCall: int
    var cacheTime: int
    var lastResults: Results
    var alertRange: real

    constructor ()
      ensures lastCall == 0 && cacheTime == 60 && lastResults == NoResults && alertRange == 50.0
    {
      lastCall := 0;
      cacheTime := 60;
      lastResults := NoResults;
      alertRange := 50.0;
    }

    /** Whether the cache window opened by the last refresh is still running at `now`. */
    predicate Fresh(now: int)
      reads this
    {
      lastCall + cacheTime - now > 0
    }

    /** One request. `now` is the clock when the request arrives, `finishedAt` when
        the fetch callback runs. `finished` is what `on_finish` receives, None when
        it is not called; `fetchStarted` tells whether the three tasks were launched;
        `allAlerts` is the full alert list of the storm task, which the report drops. */
    method GetWeatherData(location: Location, now: int, finishedAt: int, fetched: Fetched, libs: Libs)
      returns (finished: Option<Results>, fetchStarted: bool, ghost allAlerts: seq<Alert>)
      modifies this
      ensures cacheTime == old(cacheTime) && alertRange == old(alertRange)
      ensures fetchStarted <==> !old(Fresh(now))
      ensures !fetchStarted ==>
        lastCall == old(lastCall) && lastResults == old(lastResults) && finished == Some(old(lastResults))
      ensures fetchStarted ==> lastCall == now
      ensures fetchStarted && fetched.Failed? ==> lastResults == old(lastResults) && finished.None?
      ensures fetchStarted && fetched.Fetched? ==>
        && finished == Some(lastResults)
        && lastResults.Results?
        && lastResults.report.lastUpdated == finishedAt
        && lastResults.report.location == fetched.place
        && lastResults.report.now == fetched.now
        && lastResults.report.today == fetched.today
        && lastResults.report.alertCount == |lastResults.report.alerts|
        && Resolved(fetched.feed, location, libs, old(alertRange),
                    lastResults.report.nearestStorm, allAlerts, lastResults.report.alerts)
        && AllFresh(allAlerts)
    {
      allAlerts := [];
      var remainingTime := lastCall + cacheTime - now;

      if remainingTime > 0 {
        finished, fetchStarted := Some(lastResults), false;
        return;
      } else {
        lastCall := now;
      }

      fetchStarted := true;
      match fetched
      case Failed =>
        finished := None;
      case Fetched(place, nowBlock, today, feed) =>
        var closestStorm, alerts, nearbyAlerts := FindNearestStorms(location, feed, libs, alertRange);
        allAlerts := alerts;
        lastResults := Results(Report(finishedAt, place, closestStorm, nearbyAlerts, |nearbyAlerts|, nowBlock, today));
        finished := Some(lastResults);
    }
  }

  /** A second request inside the window opened by a successful refresh gets the
      very same results and launches no fetch. */
  method RepeatWithinWindow(source: NwsSource, location: Location, t1: int, finishedAt: int, t2: int,
                            fetched1: Fetched, fetched2: Fetched, libs: Libs)
    returns (first: Option<Results>, second: Option<Results>, secondFetched: bool)
    requires !source.Fresh(t1) && fetched1.Fetched?
    requires t1 <= t2 < t1 + source.cacheTime
    modifies source
    ensures first.Some? && first.value.Results?
    ensures second == first && !secondFetched
  {
    var started;
    ghost var alerts;
    first, started, alerts := source.GetWeatherData(location, t1, finishedAt, fetched1, libs);
    second, secondFetched, alerts := source.GetWeatherData(location, t2, finishedAt, fetched2, libs);
  }

  /** A failed refresh still consumes the window: until it closes, requests get the
      results held before the failure (`{}` if there were none) and launch no fetch. */
  method RepeatAfterFailure(source: NwsSource, location: Location, t1: int, t2: int, finishedAt: int,
                            fetched2: Fetched, libs: Libs)
    returns (first: Option<Results>, second: Option<Results>, secondFetched: bool)
    requires !source.Fresh(t1)
    requires t1 <= t2 < t1 + source.cacheTime
    modifies source
    ensures first.None?
    ensures second == Some(old(source.lastResults)) && !secondFetched
  {
    var started;
    ghost var alerts;
    first, started, alerts := source.GetWeatherData(location, t1, finishedAt, Failed, libs);
    second, secondFetched, alerts := source.GetWeatherData(location, t2, finishedAt, fetched2, libs);
  }
}
