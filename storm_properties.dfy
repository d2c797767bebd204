/**
 * What findNearestStorms guarantees, stated over the result it is proved to
 * produce (Storms.Resolved).
 */
module StormProperties {
  import opened Wrappers
  import opened Polygon
  import opened Selection
  import opened Storms

  /** `nearbyAlerts` is an order-preserving subsequence of `allAlerts`; an alert is
      in it exactly when it contains the location or its first vertex is closer
      than the alert range. A containing alert carries distance 0 whatever the
      range; one admitted by the range carries its first vertex's distance. */
  lemma NearbyAlertsRule(feed: seq<Entry>, location: Location, libs: Libs, alertRange: real,
                         closestStorm: Alert?, allAlerts: seq<Alert>, nearbyAlerts: seq<Alert>, i: nat)
    requires Resolved(feed, location, libs, alertRange, closestStorm, allAlerts, nearbyAlerts)
    requires i < |feed|
    ensures exists idx :: Embeds(idx, nearbyAlerts, allAlerts)
    ensures
      var poly := PolygonOf(feed[i].polygon);
      allAlerts[i] in nearbyAlerts <==>
        libs.isPointInside(location, poly) || (poly != [] && libs.distanceMiles(location, poly[0]) < alertRange)
    ensures
      var poly := PolygonOf(feed[i].polygon);
      libs.isPointInside(location, poly) ==> allAlerts[i].distance == Some(0.0)
    ensures
      var poly := PolygonOf(feed[i].polygon);
      !libs.isPointInside(location, poly) && allAlerts[i] in nearbyAlerts ==>
        allAlerts[i].distance == Some(libs.distanceMiles(location, poly[0]))
  {
    var flags := NearbyFlags(feed, location, libs, alertRange);
    SelectIsSubsequence(allAlerts, flags);
    SelectedIffFlagged(allAlerts, flags, i);
    assert allAlerts[i].View() == Expected(feed[..i], feed[i], location, libs, alertRange);
  }

  /** An alert with an empty polygon never touches `closestStorm`: the vertex loop
      does not run, so the closest index stays where it was. */
  lemma EmptyPolygonKeepsClosest(prior: seq<Entry>, n: Entry)
    requires PolygonOf(n.polygon) == []
    ensures ClosestIndex(prior + [n]) == ClosestIndex(prior)
  {
    ClosestIndexSnoc(prior, n);
  }

  /** An alert with an empty polygon is never `closestStorm` and gets no bearing;
      it is nearby only if the containment test accepts the empty polygon. */
  lemma EmptyPolygonAlert(feed: seq<Entry>, location: Location, libs: Libs, alertRange: real,
                          closestStorm: Alert?, allAlerts: seq<Alert>, nearbyAlerts: seq<Alert>, i: nat)
    requires Resolved(feed, location, libs, alertRange, closestStorm, allAlerts, nearbyAlerts)
    requires i < |feed| && PolygonOf(feed[i].polygon) == []
    ensures closestStorm != allAlerts[i]
    ensures allAlerts[i].bearing.None?
    ensures allAlerts[i] in nearbyAlerts <==> libs.isPointInside(location, [])
  {
    ClosestStormChoice(feed);
    NearbyAlertsRule(feed, location, libs, alertRange, closestStorm, allAlerts, nearbyAlerts, i);
    assert allAlerts[i].View() == Expected(feed[..i], feed[i], location, libs, alertRange);
  }

  /** The alert `closestStorm` aliases keeps the bearing of its first vertex when
      its event is defined and of its last vertex otherwise; its distance is the
      one the nearby step wrote last (0 when it contains the location, the first
      vertex's distance when that is within range), else that same vertex's. */
  lemma ClosestStormFields(feed: seq<Entry>, location: Location, libs: Libs, alertRange: real,
                           closestStorm: Alert?, allAlerts: seq<Alert>, nearbyAlerts: seq<Alert>)
    requires Resolved(feed, location, libs, alertRange, closestStorm, allAlerts, nearbyAlerts)
    requires closestStorm != null
    ensures closestStorm.polygon != []
    ensures
      var poly := closestStorm.polygon;
      var at := if closestStorm.event.Some? then 0 else |poly| - 1;
      && closestStorm.bearing == Some(libs.bearing(location, poly[at]))
      && closestStorm.distance ==
           if libs.isPointInside(location, poly) then Some(0.0)
           else if libs.distanceMiles(location, poly[0]) < alertRange then Some(libs.distanceMiles(location, poly[0]))
           else Some(libs.distanceMiles(location, poly[at]))
  {
    ClosestStormChoice(feed);
    FirstAnchorIsFirst(feed);
    var k := ClosestIndex(feed).value;
    FirstAnchorPrefix(feed, k);
    assert allAlerts[k].View() == Expected(feed[..k], feed[k], location, libs, alertRange);
  }
}
