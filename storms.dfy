/**
 * findNearestStorms (index.js): every feed entry becomes an Alert object; the
 * alerts that contain the query location, or whose first vertex lies within
 * the alert range, are also collected as nearby; and one alert is kept as
 * `closestStorm`.
 *
 * The geodesic routines of geolib and the date formatting of moment are not
 * looked into: they are the fields of a `Libs` value, arbitrary functions that
 * every statement here holds for.
 */
module Storms {
  import opened Wrappers
  import opened Polygon
  import opened Selection
  import Text

  /** The query location. */
  datatype Location = Location(latitude: real, longitude: real)

  /** One `entry` element of the national alert feed, as the XML reader gives
      its children: `event` is None when the entry has no `cap:event`. */
  datatype Entry = Entry(
    title: string,
    event: Option<string>,
    effective: string,
    expires: string,
    summary: string,
    link: string,
    polygon: string)

  /** The library routines findNearestStorms calls. `distanceMiles` is
      `geolib.convertUnit('mi', geolib.getDistance(a, b))`; `unixSeconds` is
      `moment(s).format('X')`. */
  datatype Libs = Libs(
    distanceMiles: (Location, Vertex) -> real,
    bearing: (Location, Vertex) -> real,
    isPointInside: (Location, seq<Vertex>) -> bool,
    unixSeconds: string -> string)

  /** The observable contents of an Alert object; `distance` and `bearing` are
      None while the properties are not set. */
  datatype AlertView = AlertView(
    title: string,
    event: Option<string>,
    effective: string,
    expires: string,
    summary: string,
    link: string,
    polygon: seq<Vertex>,
    distance: Option<real>,
    bearing: Option<real>)

  /** The `alert` object literal; its polygon, distance and bearing are updated
      in place, and `closestStorm` may alias it. */
  class Alert {
    const title: string
    const event: Option<string>
    const effective: string
    const expires: string
    const summary: string
    const link: string
    var polygon: seq<Vertex>
    var distance: Option<real>
    var bearing: Option<real>

    function View(): AlertView
      reads this
    {
      AlertView(title, event, effective, expires, summary, link, polygon, distance, bearing)
    }

    constructor (n: Entry, libs: Libs)
      ensures View() == AlertView(n.title, n.event, libs.unixSeconds(n.effective),
                                  libs.unixSeconds(n.expires), n.summary, n.link, [], None, None)
    {
      title := n.title;
      event := n.event;
      effective := libs.unixSeconds(n.effective);
      expires := libs.unixSeconds(n.expires);
      summary := n.summary;
      link := n.link;
      polygon := [];
      distance := None;
      bearing := None;
    }
  }

  /** JavaScript's `d < bound` where `bound` may be `undefined` (then false). */
  predicate LessThan(d: real, bound: Option<real>)
  {
    bound.Some? && d < bound.value
  }

  /** An entry that, once it is `closestStorm`, is never replaced: its event is
      defined and its polygon has a vertex. */
  predicate Anchors(n: Entry)
  {
    n.event.Some? && PolygonOf(n.polygon) != []
  }

  /** The first entry that anchors `closestStorm`. */
  function FirstAnchor(feed: seq<Entry>): (k: Option<nat>)
    ensures k.Some? ==> k.value < |feed|
  {
    if feed == [] then None
    else
      var n := |feed| - 1;
      var before := FirstAnchor(feed[..n]);
      if before.Some? then before
      else if Anchors(feed[n]) then Some(n)
      else None
  }

  /** The last entry whose polygon has a vertex. */
  function LastWithVertices(feed: seq<Entry>): (k: Option<nat>)
    ensures k.Some? ==> k.value < |feed|
  {
    if feed == [] then None
    else
      var n := |feed| - 1;
      if PolygonOf(feed[n].polygon) != [] then Some(n)
      else LastWithVertices(feed[..n])
  }

  /** The position in the feed of the alert `closestStorm` ends up aliasing, or
      None when it stays `{}`. */
  function ClosestIndex(feed: seq<Entry>): (k: Option<nat>)
    ensures k.Some? ==> k.value < |feed|
  {
    var first := FirstAnchor(feed);
    if first.Some? then first else LastWithVertices(feed)
  }

  /** FirstAnchor finds the anchoring entry of smallest position, if any. */
  lemma {:induction false} FirstAnchorIsFirst(feed: seq<Entry>)
    ensures FirstAnchor(feed).Some? ==> Anchors(feed[FirstAnchor(feed).value])
    ensures FirstAnchor(feed).Some? ==> forall j :: 0 <= j < FirstAnchor(feed).value ==> !Anchors(feed[j])
    ensures FirstAnchor(feed).None? ==> forall j :: 0 <= j < |feed| ==> !Anchors(feed[j])
    decreases |feed|
  {
    if feed != [] {
      var n := |feed| - 1;
      FirstAnchorIsFirst(feed[..n]);
      assert forall j :: 0 <= j < n ==> feed[..n][j] == feed[j];
    }
  }

  /** LastWithVertices finds the entry of largest position with a vertex, if any. */
  lemma {:induction false} LastWithVerticesIsLast(feed: seq<Entry>)
    ensures LastWithVertices(feed).Some? ==> PolygonOf(feed[LastWithVertices(feed).value].polygon) != []
    ensures LastWithVertices(feed).Some? ==>
      forall j :: LastWithVertices(feed).value < j < |feed| ==> PolygonOf(feed[j].polygon) == []
    ensures LastWithVertices(feed).None? ==> forall j :: 0 <= j < |feed| ==> PolygonOf(feed[j].polygon) == []
    decreases |feed|
  {
    if feed != [] {
      var n := |feed| - 1;
      var init := feed[..n];
      if PolygonOf(feed[n].polygon) == [] {
        LastWithVerticesIsLast(init);
        assert LastWithVertices(feed) == LastWithVertices(init);
        forall j | 0 <= j < n
          ensures init[j] == feed[j]
        {
        }
      }
    }
  }

  /** Which alert `closestStorm` ends up being: `{}` exactly when no alert has a
      vertex; otherwise the first alert with a defined event and a vertex, and,
      when there is none, the last alert with a vertex. */
  lemma ClosestStormChoice(feed: seq<Entry>)
    ensures ClosestIndex(feed).None? <==> forall j :: 0 <= j < |feed| ==> PolygonOf(feed[j].polygon) == []
    ensures ClosestIndex(feed).Some? ==> PolygonOf(feed[ClosestIndex(feed).value].polygon) != []
    ensures (exists j :: 0 <= j < |feed| && Anchors(feed[j])) ==>
      && ClosestIndex(feed).Some?
      && Anchors(feed[ClosestIndex(feed).value])
      && forall j :: 0 <= j < ClosestIndex(feed).value ==> !Anchors(feed[j])
    ensures (forall j :: 0 <= j < |feed| ==> !Anchors(feed[j])) && ClosestIndex(feed).Some? ==>
      forall j :: ClosestIndex(feed).value < j < |feed| ==> PolygonOf(feed[j].polygon) == []
  {
    FirstAnchorIsFirst(feed);
    LastWithVerticesIsLast(feed);
  }

  /** The vertex at which an alert's own distance and bearing were last set by
      the closest-storm update, given whether an earlier alert already anchored
      `closestStorm`: none if it did or the polygon is empty; otherwise the first
      vertex when the alert's event is defined, and the last one when it is not. */
  function RecordedAt(settled: bool, event: Option<string>, poly: seq<Vertex>): (at: Option<nat>)
    ensures at.Some? ==> at.value < |poly|
    ensures at.Some? <==> !settled && poly != []
  {
    if settled || poly == [] then None
    else if event.Some? then Some(0)
    else Some(|poly| - 1)
  }

  /** The nearby test of one alert: containment, or else the first vertex only,
      strictly inside the alert range. */
  predicate Nearby(n: Entry, location: Location, libs: Libs, alertRange: real)
  {
    var poly := PolygonOf(n.polygon);
    libs.isPointInside(location, poly) ||
    (poly != [] && libs.distanceMiles(location, poly[0]) < alertRange)
  }

  function NearbyFlags(feed: seq<Entry>, location: Location, libs: Libs, alertRange: real): (flags: seq<bool>)
    ensures |flags| == |feed|
    ensures forall i :: 0 <= i < |feed| ==> flags[i] == Nearby(feed[i], location, libs, alertRange)
  {
    if feed == [] then []
    else
      var n := |feed| - 1;
      NearbyFlags(feed[..n], location, libs, alertRange) + [Nearby(feed[n], location, libs, alertRange)]
  }

  /** The final contents of the alert built from entry `n` when the entries
      before it are `prior`. */
  function Expected(prior: seq<Entry>, n: Entry, location: Location, libs: Libs, alertRange: real): AlertView
  {
    var poly := PolygonOf(n.polygon);
    var at := RecordedAt(FirstAnchor(prior).Some?, n.event, poly);
    var scanned := if at.Some? then Some(libs.distanceMiles(location, poly[at.value])) else None;
    AlertView(
      n.title, n.event, libs.unixSeconds(n.effective), libs.unixSeconds(n.expires),
      n.summary, n.link, poly,
      if libs.isPointInside(location, poly) then Some(0.0)
      else if poly != [] && libs.distanceMiles(location, poly[0]) < alertRange
        then Some(libs.distanceMiles(location, poly[0]))
      else scanned,
      if at.Some? then Some(libs.bearing(location, poly[at.value])) else None)
  }

  /** The contents of a sequence of alerts. */
  function Views(alerts: seq<Alert>): (vs: seq<AlertView>)
    reads alerts
    ensures |vs| == |alerts|
  {
    if alerts == [] then []
    else
      var n := |alerts| - 1;
      Views(alerts[..n]) + [alerts[n].View()]
  }

  /** The expected contents of the alerts built from `feed`. */
  function ExpectedViews(feed: seq<Entry>, location: Location, libs: Libs, alertRange: real): (vs: seq<AlertView>)
    ensures |vs| == |feed|
  {
    if feed == [] then []
    else
      var n := |feed| - 1;
      ExpectedViews(feed[..n], location, libs, alertRange) + [Expected(feed[..n], feed[n], location, libs, alertRange)]
  }

  lemma {:induction false} ViewsAt(alerts: seq<Alert>, i: nat)
    requires i < |alerts|
    ensures Views(alerts)[i] == alerts[i].View()
    decreases |alerts|
  {
    var n := |alerts| - 1;
    if i < n {
      ViewsAt(alerts[..n], i);
    }
  }

  /* Slicing facts the loop proofs cite by name: stated as lemmas they stay
     out of the larger proof contexts, where they are costly to rediscover. */

  lemma PrefixSnoc<T>(s: seq<T>, i: nat)
    requires i < |s|
    ensures s[..i + 1] == s[..i] + [s[i]]
  {
  }

  lemma PrefixWhole<T>(s: seq<T>)
    ensures s[..|s|] == s
  {
  }

  lemma PrefixOfPrefix<T>(s: seq<T>, n: nat, i: nat)
    requires i <= n <= |s|
    ensures s[..n][..i] == s[..i]
  {
  }

  lemma {:induction false} ExpectedViewsAt(feed: seq<Entry>, location: Location, libs: Libs, alertRange: real, i: nat)
    requires i < |feed|
    ensures ExpectedViews(feed, location, libs, alertRange)[i] == Expected(feed[..i], feed[i], location, libs, alertRange)
    decreases |feed|
  {
    var n := |feed| - 1;
    if i < n {
      ExpectedViewsAt(feed[..n], location, libs, alertRange, i);
      PrefixOfPrefix(feed, n, i);
    }
  }

  ghost predicate Distinct(alerts: seq<Alert>)
  {
    forall i, j :: 0 <= i < j < |alerts| ==> alerts[i] != alerts[j]
  }

  /** `allAlerts` holds one distinct object per entry, in feed order, each with
      its expected contents. */
  ghost predicate AllAlerts(feed: seq<Entry>, location: Location, libs: Libs, alertRange: real,
                            allAlerts: seq<Alert>)
    reads allAlerts
  {
    && |allAlerts| == |feed|
    && Distinct(allAlerts)
    && (forall i :: 0 <= i < |feed| ==>
          allAlerts[i].View() == Expected(feed[..i], feed[i], location, libs, alertRange))
  }

  /** `closestStorm` is `{}` (null) or the very object of `allAlerts` at ClosestIndex. */
  predicate ClosestAliases(feed: seq<Entry>, closestStorm: Alert?, allAlerts: seq<Alert>)
  {
    closestStorm ==
      if ClosestIndex(feed).Some? && ClosestIndex(feed).value < |allAlerts|
      then allAlerts[ClosestIndex(feed).value] else null
  }

  /** What findNearestStorms hands to its callback: the alerts, the
      order-preserving selection of the nearby ones, and the closest storm. */
  ghost predicate Resolved(feed: seq<Entry>, location: Location, libs: Libs, alertRange: real,
                           closestStorm: Alert?, allAlerts: seq<Alert>, nearbyAlerts: seq<Alert>)
    reads allAlerts
  {
    && AllAlerts(feed, location, libs, alertRange, allAlerts)
    && nearbyAlerts == Select(allAlerts, NearbyFlags(feed, location, libs, alertRange))
    && ClosestAliases(feed, closestStorm, allAlerts)
  }

  /** An alert closest to `closestStorm` whose event is defined exactly when an
      earlier alert anchors it. */
  lemma ClosestEventTellsSettled(feed: seq<Entry>)
    requires ClosestIndex(feed).Some?
    ensures feed[ClosestIndex(feed).value].event.Some? <==> FirstAnchor(feed).Some?
  {
    FirstAnchorIsFirst(feed);
    LastWithVerticesIsLast(feed);
  }

  /** `closestStorm` has a defined event exactly when some alert so far anchors it. */
  lemma ClosestSettled(feed: seq<Entry>, location: Location, libs: Libs, alertRange: real,
                       closestStorm: Alert?, allAlerts: seq<Alert>)
    requires Views(allAlerts) == ExpectedViews(feed, location, libs, alertRange)
    requires ClosestAliases(feed, closestStorm, allAlerts)
    ensures FirstAnchor(feed).Some? <==> closestStorm != null && closestStorm.event.Some?
  {
    if ClosestIndex(feed).Some? {
      var k := ClosestIndex(feed).value;
      ClosestEventTellsSettled(feed);
      ViewsAt(allAlerts, k);
      ExpectedViewsAt(feed, location, libs, alertRange, k);
      assert allAlerts[k].View().event == feed[k].event;
    }
  }

  lemma {:induction false} FirstAnchorPrefix(feed: seq<Entry>, k: nat)
    requires k <= |feed|
    requires forall j :: 0 <= j < k ==> !Anchors(feed[j])
    ensures FirstAnchor(feed[..k]).None?
  {
    FirstAnchorIsFirst(feed[..k]);
    assert forall j :: 0 <= j < k ==> feed[..k][j] == feed[j];
  }

  /** How one more entry moves the closest-storm index: to the new entry exactly
      when its alert records a vertex. */
  lemma ClosestIndexSnoc(prior: seq<Entry>, n: Entry)
    ensures ClosestIndex(prior + [n]) ==
      if RecordedAt(FirstAnchor(prior).Some?, n.event, PolygonOf(n.polygon)).Some?
      then Some(|prior|) else ClosestIndex(prior)
  {
    assert (prior + [n])[..|prior|] == prior;
  }

  lemma ClosestAliasesSnoc(prior: seq<Entry>, n: Entry, closestStorm: Alert?, allAlerts: seq<Alert>,
                           alert: Alert, closestStorm': Alert?)
    requires |allAlerts| == |prior|
    requires ClosestAliases(prior, closestStorm, allAlerts)
    requires closestStorm' ==
      if RecordedAt(FirstAnchor(prior).Some?, n.event, PolygonOf(n.polygon)).Some? then alert else closestStorm
    ensures ClosestAliases(prior + [n], closestStorm', allAlerts + [alert])
  {
    ClosestIndexSnoc(prior, n);
  }

  lemma ViewsSnoc(prior: seq<Entry>, n: Entry, location: Location, libs: Libs, alertRange: real,
                  allAlerts: seq<Alert>, alert: Alert)
    requires Views(allAlerts) == ExpectedViews(prior, location, libs, alertRange)
    requires alert.View() == Expected(prior, n, location, libs, alertRange)
    ensures Views(allAlerts + [alert]) == ExpectedViews(prior + [n], location, libs, alertRange)
  {
    assert (allAlerts + [alert])[..|allAlerts|] == allAlerts;
    assert (prior + [n])[..|prior|] == prior;
  }

  /** The pointwise form of the loop's invariant. */
  lemma ViewsAllAlerts(feed: seq<Entry>, location: Location, libs: Libs, alertRange: real, allAlerts: seq<Alert>)
    requires |allAlerts| == |feed| && Distinct(allAlerts)
    requires Views(allAlerts) == ExpectedViews(feed, location, libs, alertRange)
    ensures AllAlerts(feed, location, libs, alertRange, allAlerts)
  {
    forall i | 0 <= i < |feed|
      ensures allAlerts[i].View() == Expected(feed[..i], feed[i], location, libs, alertRange)
    {
      ViewsAt(allAlerts, i);
      ExpectedViewsAt(feed, location, libs, alertRange, i);
    }
  }

  lemma NearbySnoc(prior: seq<Entry>, n: Entry, location: Location, libs: Libs, alertRange: real,
                   allAlerts: seq<Alert>, nearbyAlerts: seq<Alert>, alert: Alert)
    requires |allAlerts| == |prior|
    requires nearbyAlerts == Select(allAlerts, NearbyFlags(prior, location, libs, alertRange))
    ensures nearbyAlerts + (if Nearby(n, location, libs, alertRange) then [alert] else [])
      == Select(allAlerts + [alert], NearbyFlags(prior + [n], location, libs, alertRange))
  {
    assert (prior + [n])[..|prior|] == prior;
    SelectSnoc(allAlerts, NearbyFlags(prior, location, libs, alertRange),
               alert, Nearby(n, location, libs, alertRange));
  }

  /** The token loop of one entry: pushes a vertex per non-empty token and, at each
      vertex, makes the alert `closestStorm` while the current one has no event
      (the comparison with the never-assigned distance is always false). */
  method ScanVertices(location: Location, tokens: seq<string>, libs: Libs, alert: Alert,
                      closestStormDistance: Option<real>, closestBefore: Alert?)
    returns (closestStorm: Alert?)
    requires closestStormDistance.None?
    requires alert.polygon == [] && alert.distance.None? && alert.bearing.None?
    requires closestBefore != alert
    modifies alert
    ensures alert.polygon == Vertices(tokens)
    ensures
      var at := RecordedAt(closestBefore != null && closestBefore.event.Some?, alert.event, alert.polygon);
      && alert.distance == (if at.Some? then Some(libs.distanceMiles(location, alert.polygon[at.value])) else None)
      && alert.bearing == (if at.Some? then Some(libs.bearing(location, alert.polygon[at.value])) else None)
      && closestStorm == (if at.Some? then alert else closestBefore)
  {
    ghost var settled := closestBefore != null && closestBefore.event.Some?;
    closestStorm := closestBefore;
    var t := 0;
    while t < |tokens|
      invariant 0 <= t <= |tokens|
      invariant alert.polygon == Vertices(tokens[..t])
      invariant
        var at := RecordedAt(settled, alert.event, alert.polygon);
        && alert.distance == (if at.Some? then Some(libs.distanceMiles(location, alert.polygon[at.value])) else None)
        && alert.bearing == (if at.Some? then Some(libs.bearing(location, alert.polygon[at.value])) else None)
        && closestStorm == (if at.Some? then alert else closestBefore)
    {
      var point := tokens[t];
      VerticesSnoc(tokens, t);
      if point != "" {
        var loc := ParseVertex(point);
        alert.polygon := alert.polygon + [loc];
        var distance := libs.distanceMiles(location, loc);
        if closestStorm == null || closestStorm.event.None? || LessThan(distance, closestStormDistance) {
          closestStorm := alert;
          closestStorm.distance := Some(distance);
          closestStorm.bearing := Some(libs.bearing(location, loc));
        }
      }
      t := t + 1;
    }
    PrefixWhole(tokens);
  }

  /** Every alert in `alerts` was allocated since the pre-state: the method built
      it rather than reusing an object of an earlier call. */
  twostate predicate AllFresh(new alerts: seq<Alert>)
  {
    forall a :: a in alerts ==> fresh(a)
  }

  twostate lemma AllFreshSnoc(new alerts: seq<Alert>, new alert: Alert)
    requires AllFresh(alerts) && fresh(alert)
    ensures AllFresh(alerts + [alert])
  {
  }

  /** One turn of the entry loop keeps its invariant. */
  lemma EntryStep(feed: seq<Entry>, i: nat, location: Location, libs: Libs, alertRange: real,
                  closestStorm: Alert?, allAlerts: seq<Alert>, nearbyAlerts: seq<Alert>,
                  alert: Alert, closestStorm': Alert?, nearbyAlerts': seq<Alert>)
    requires i < |feed|
    requires |allAlerts| == i && Distinct(allAlerts) && alert !in allAlerts
    requires Views(allAlerts) == ExpectedViews(feed[..i], location, libs, alertRange)
    requires nearbyAlerts == Select(allAlerts, NearbyFlags(feed[..i], location, libs, alertRange))
    requires ClosestAliases(feed[..i], closestStorm, allAlerts)
    requires alert.View() == Expected(feed[..i], feed[i], location, libs, alertRange)
    requires closestStorm' ==
      if RecordedAt(FirstAnchor(feed[..i]).Some?, feed[i].event, PolygonOf(feed[i].polygon)).Some?
      then alert else closestStorm
    requires nearbyAlerts' == nearbyAlerts + (if Nearby(feed[i], location, libs, alertRange) then [alert] else [])
    ensures |allAlerts + [alert]| == i + 1 && Distinct(allAlerts + [alert])
    ensures Views(allAlerts + [alert]) == ExpectedViews(feed[..i + 1], location, libs, alertRange)
    ensures nearbyAlerts' == Select(allAlerts + [alert], NearbyFlags(feed[..i + 1], location, libs, alertRange))
    ensures ClosestAliases(feed[..i + 1], closestStorm', allAlerts + [alert])
  {
    var prior := feed[..i];
    PrefixSnoc(feed, i);
    ViewsSnoc(prior, feed[i], location, libs, alertRange, allAlerts, alert);
    NearbySnoc(prior, feed[i], location, libs, alertRange, allAlerts, nearbyAlerts, alert);
    ClosestAliasesSnoc(prior, feed[i], closestStorm, allAlerts, alert, closestStorm');
  }

  /** The callback run for one feed entry: builds its alert, lets its vertices
      update `closestStorm`, and applies the nearby test. `prior` (the entries
      already handled) only serves the specification. */
  method ResolveEntry(location: Location, n: Entry, libs: Libs, alertRange: real, ghost prior: seq<Entry>,
                      closestStormDistance: Option<real>, closestStorm: Alert?, nearbyAlerts: seq<Alert>)
    returns (alert: Alert, closestStorm': Alert?, nearbyAlerts': seq<Alert>)
    requires closestStormDistance.None?
    requires FirstAnchor(prior).Some? <==> closestStorm != null && closestStorm.event.Some?
    ensures fresh(alert)
    ensures alert.View() == Expected(prior, n, location, libs, alertRange)
    ensures closestStorm' ==
      if RecordedAt(FirstAnchor(prior).Some?, n.event, PolygonOf(n.polygon)).Some? then alert else closestStorm
    ensures nearbyAlerts' == nearbyAlerts + (if Nearby(n, location, libs, alertRange) then [alert] else [])
  {
    alert := new Alert(n, libs);
    closestStorm' := ScanVertices(location, Text.Split(n.polygon, ' '), libs, alert, closestStormDistance, closestStorm);
    nearbyAlerts' := nearbyAlerts;

    if libs.isPointInside(location, alert.polygon) {
      alert.distance := Some(0.0);
      nearbyAlerts' := nearbyAlerts' + [alert];
    } else if alert.polygon != [] {
      // `some` stops after its first call: the callback always returns true.
      var distance := libs.distanceMiles(location, alert.polygon[0]);
      if distance < alertRange {
        alert.distance := Some(distance);
        nearbyAlerts' := nearbyAlerts' + [alert];
      }
    }
  }

  method FindNearestStorms(location: Location, feed: seq<Entry>, libs: Libs, alertRange: real)
    returns (closestStorm: Alert?, allAlerts: seq<Alert>, nearbyAlerts: seq<Alert>)
    ensures Resolved(feed, location, libs, alertRange, closestStorm, allAlerts, nearbyAlerts)
    ensures AllFresh(allAlerts)
  {
    closestStorm := null;
    var closestStormDistance: Option<real> := None;  // declared, never assigned
    allAlerts, nearbyAlerts := [], [];
    var i := 0;
    while i < |feed|
      invariant 0 <= i <= |feed|
      invariant |allAlerts| == i && Distinct(allAlerts)
      invariant Views(allAlerts) == ExpectedViews(feed[..i], location, libs, alertRange)
      invariant nearbyAlerts == Select(allAlerts, NearbyFlags(feed[..i], location, libs, alertRange))
      invariant ClosestAliases(feed[..i], closestStorm, allAlerts)
      invariant AllFresh(allAlerts)
    {
      var prior := feed[..i];
      var n := feed[i];
      ghost var oldAlerts, oldNearby, oldClosest := allAlerts, nearbyAlerts, closestStorm;
      ClosestSettled(prior, location, libs, alertRange, closestStorm, allAlerts);

      var alert;
      alert, closestStorm, nearbyAlerts :=
        ResolveEntry(location, n, libs, alertRange, prior, closestStormDistance, closestStorm, nearbyAlerts);
      EntryStep(feed, i, location, libs, alertRange, oldClosest, oldAlerts, oldNearby,
                alert, closestStorm, nearbyAlerts);
      AllFreshSnoc(allAlerts, alert);
      allAlerts := allAlerts + [alert];
      i := i + 1;
    }
    PrefixWhole(feed);
    ViewsAllAlerts(feed, location, libs, alertRange, allAlerts);
  }
}
