/**
 * The data side of the Folium map layer: converting and repairing a
 * coordinate pair (`_to_float`, `_fix_latlon`) and deciding, row by row,
 * which table rows become markers, with which radius, popup and heat weight
 * (`add_points_layer`). The Folium objects themselves are represented by the
 * values they would be built from.
 */
module MapFolium {
  import opened PyText
  import opened PyValue
  import opened Seqs

  /** One row of a pandas table as `iterrows` yields it: column name to cell. */
  type Row = seq<(string, Value)>

  function Abs(x: real): real {
    if x < 0.0 then -x else x
  }

  /** `_to_float`: `None` for `None` and for anything `float()` rejects. */
  function ToFloat(x: Value): (r: Option<real>)
    ensures x.Null? ==> r == None
    ensures !x.Null? ==> r == PyFloat(x)
  {
    if x.Null? then None else PyFloat(x)
  }

  predicate InRange(lat: real, lon: real) {
    -90.0 <= lat <= 90.0 && -180.0 <= lon <= 180.0
  }

  /** The repair rule of `_fix_latlon` on two converted numbers. */
  function FixPair(lat: real, lon: real): (r: Option<(real, real)>)
    ensures r.Some? ==> InRange(r.value.0, r.value.1)
    ensures InRange(lat, lon) ==> r == Some((lat, lon))
    ensures Abs(lat) > 90.0 && Abs(lon) <= 90.0 ==> (r.Some? <==> -180.0 <= lat <= 180.0)
    ensures Abs(lat) > 90.0 && Abs(lon) <= 90.0 && r.Some? ==> r.value == (lon, lat)
    ensures !(Abs(lat) > 90.0 && Abs(lon) <= 90.0) && !InRange(lat, lon) ==> r == None
  {
    var (a, b) := if Abs(lat) > 90.0 && Abs(lon) <= 90.0 then (lon, lat) else (lat, lon);
    if InRange(a, b) then Some((a, b)) else None
  }

  /** `_fix_latlon`: `(lat, lon)` inside the valid ranges, swapped back when it arrived inverted. */
  function FixLatLon(lat: Value, lon: Value): (r: Option<(real, real)>)
    ensures ToFloat(lat).None? || ToFloat(lon).None? ==> r == None
    ensures ToFloat(lat).Some? && ToFloat(lon).Some? ==> r == FixPair(ToFloat(lat).value, ToFloat(lon).value)
  {
    match (ToFloat(lat), ToFloat(lon))
    case (Some(a), Some(b)) => FixPair(a, b)
    case _ => None
  }

  /** A repaired pair is left alone by a second repair. */
  lemma FixPairIdempotent(lat: real, lon: real)
    requires FixPair(lat, lon).Some?
    ensures FixPair(FixPair(lat, lon).value.0, FixPair(lat, lon).value.1) == FixPair(lat, lon)
  {
  }

  /** The pair is swapped exactly when the latitude is out of range and the longitude looks like a latitude. */
  lemma FixPairSwapsExactly(lat: real, lon: real)
    requires FixPair(lat, lon).Some? && lat != lon
    ensures FixPair(lat, lon).value == (lon, lat) <==> Abs(lat) > 90.0 && Abs(lon) <= 90.0
  {
  }

  // ---------------------------------------------------------------- the points layer

  /**
   * A marker's radius: a fixed number of metres or pixels, or `circle_radius(votes)`,
   * that is `180 + 32 * sqrt(max(0, votes))`, represented by the votes it is computed from.
   */
  datatype Radius = Fixed(r: real) | VoteScaled(votes: real)

  /** A row that passed the coordinate repair, with its votes and its popup html. */
  datatype Point = Point(lat: real, lon: real, votes: real, popup: string)

  /** A `folium.Circle` (`circle`) or `folium.CircleMarker` added to the layer's feature group. */
  datatype Marker = Marker(lat: real, lon: real, radius: Radius, circle: bool, weight: real, fillOpacity: real, popup: string)

  /** What `add_points_layer` adds to the map: one feature group with its markers, and possibly a heat map. */
  datatype Layer = Layer(color: Value, fill: Value, show: bool, markers: seq<Marker>, heat: seq<(real, real, real)>, heatLayer: bool)

  const DefaultPopupCols: seq<string> := ["nome", "municipio", "Bairro/Distrito", "Endere\U{E7}o", "qt_votos"]

  /** `popup_cols or [...]`; an absent list is passed as the empty one. */
  function PopupCols(cols: seq<string>): (r: seq<string>)
    ensures r != []
    ensures cols != [] ==> r == cols
  {
    if cols == [] then DefaultPopupCols else cols
  }

  /** The popup line for one column. */
  function PopupLine(c: string, v: Value): string {
    "<div><b>" + c + "</b>. " + Render(v) + "</div>"
  }

  const PopupOpen: string := "<div style='min-width:240px'>"

  function Popup(row: Row, cols: seq<string>): string {
    JoinFrom(PopupOpen, cols, LineOf(row)) + "</div>"
  }

  /** The line of a column the row has; nothing for one it lacks. */
  function LineOf(row: Row): string -> Option<string> {
    c => if HasKey(row, c) then Some(PopupLine(c, Get(row, c))) else None
  }

  function Join(parts: seq<string>): string {
    if parts == [] then "" else parts[0] + Join(parts[1..])
  }

  /** `acc` followed by the present images of `cols` under `f`, appended one column at a time. */
  function JoinFrom(acc: string, cols: seq<string>, f: string -> Option<string>): string
    decreases |cols|
  {
    if cols == [] then acc else JoinFrom(acc + f(cols[0]).GetOr(""), cols[1..], f)
  }

  lemma {:induction false} JoinAppend(a: seq<string>, b: seq<string>)
    ensures Join(a + b) == Join(a) + Join(b)
  {
    if a == [] {
      assert a + b == b;
    } else {
      assert (a + b)[0] == a[0];
      assert (a + b)[1..] == a[1..] + b;
      JoinAppend(a[1..], b);
    }
  }

  lemma {:induction false} JoinFromIsJoin(acc: string, cols: seq<string>, f: string -> Option<string>)
    ensures JoinFrom(acc, cols, f) == acc + Join(FilterMap(cols, f))
    decreases |cols|
  {
    if cols == [] {
      assert acc + "" == acc;
    } else {
      var c, rest := cols[0], cols[1..];
      var line := f(c).GetOr("");
      var tail := Join(FilterMap(rest, f));
      JoinFirstLine(cols, f);
      assert JoinFrom(acc + line, rest, f) == (acc + line) + tail by {
        JoinFromIsJoin(acc + line, rest, f);
      }
      Associative(acc, line, tail);
    }
  }

  /** The joined lines start with the first column's line, if it has one. */
  lemma JoinFirstLine(cols: seq<string>, f: string -> Option<string>)
    requires cols != []
    ensures Join(FilterMap(cols, f)) == f(cols[0]).GetOr("") + Join(FilterMap(cols[1..], f))
  {
    var c, rest := cols[0], cols[1..];
    var line := f(c).GetOr("");
    var tail := Join(FilterMap(rest, f));
    assert [c] + rest == cols;
    FilterMapPrepend(c, rest, f);
    var fm := FilterMap(cols, f);
    if f(c).Some? {
      assert fm == [line] + FilterMap(rest, f);
      assert fm[0] == line && fm[1..] == FilterMap(rest, f);
    } else {
      assert fm == FilterMap(rest, f);
      assert line + tail == tail;
    }
  }

  /** The popup body is the lines of exactly the columns present in the row, in order. */
  lemma PopupListsPresentColumns(row: Row, cols: seq<string>)
    ensures Popup(row, cols) == PopupOpen + Join(FilterMap(cols, LineOf(row))) + "</div>"
  {
    JoinFromIsJoin(PopupOpen, cols, LineOf(row));
  }

  /** The popup html of one row, built line by line. */
  method BuildPopup(row: Row, cols: seq<string>) returns (html: string)
    ensures html == Popup(row, cols)
  {
    html := PopupOpen;
    for j := 0 to |cols|
      invariant JoinFrom(html, cols[j..], LineOf(row)) == JoinFrom(PopupOpen, cols, LineOf(row))
    {
      assert cols[j..][1..] == cols[j + 1..];
      if HasKey(row, cols[j]) {
        html := html + PopupLine(cols[j], Get(row, cols[j]));
      } else {
        assert html + "" == html;
      }
    }
    html := html + "</div>";
  }

  /** `_to_float(r.get("qt_votos")) or 0.0` */
  function Votes(row: Row): real {
    ToFloat(Get(row, "qt_votos")).GetOr(0.0)
  }

  /** The row as a point, or nothing when `_fix_latlon` rejects it. */
  function Accept(cols: seq<string>): Row -> Option<Point> {
    row =>
      match FixLatLon(Get(row, "lat"), Get(row, "lon"))
      case None => None
      case Some((lat, lon)) => Some(Point(lat, lon, Votes(row), Popup(row, PopupCols(cols))))
  }

  /** `style.get("mode", "circle") == "circle"` */
  predicate CircleMode(style: Row) {
    GetOr(style, "mode", Str("circle")) == Str("circle")
  }

  /** `style.get("radius_mode") == "votes"` */
  predicate VotesMode(style: Row) {
    Get(style, "radius_mode") == Str("votes")
  }

  /** `float(style.get("weight", 2))` and `float(style.get("fillOpacity", ...))`, whose default depends on the mode. */
  function MarkerStyle(style: Row): Option<(real, real)> {
    var w := PyFloat(GetOr(style, "weight", Int(2)));
    var o := PyFloat(GetOr(style, "fillOpacity", Float(if CircleMode(style) then 0.7 else 0.85)));
    if w.Some? && o.Some? then Some((w.value, o.value)) else None
  }

  function MarkerOf(p: Point, style: Row, radius: real, wo: (real, real)): Marker {
    var circle := CircleMode(style);
    var rad := if circle && VotesMode(style) then VoteScaled(p.votes) else Fixed(radius);
    Marker(p.lat, p.lon, rad, circle, wo.0, wo.1, p.popup)
  }

  /** `[lat, lon, max(0.1, votes)]` */
  function HeatOf(p: Point): (real, real, real) {
    (p.lat, p.lon, if 0.1 < p.votes then p.votes else 0.1)
  }

  /** What `add_points_layer` adds to the map, or `Raised` when one of its `float()` or `.get` calls raises. */
  function PointsLayer(rows: seq<Row>, style: Value, cols: seq<string>, useHeatmap: bool): Result<Layer> {
    if !style.Dict? then Raised
    else
      var s := style.entries;
      match PyFloat(GetOr(s, "radius", Int(6)))
      case None => Raised
      case Some(radius) =>
        var pts := FilterMap(rows, Accept(cols));
        if pts != [] && MarkerStyle(s).None? then Raised
        else
          var heat := HeatsOf(pts, useHeatmap);
          Ok(Layer(GetOr(s, "color", Str("#2b6cb0")), GetOr(s, "fillColor", GetOr(s, "color", Str("#2b6cb0"))),
                   Truthy(GetOr(s, "show", Bool(true))),
                   MarkersOf(pts, s, radius, MarkerStyle(s).GetOr((0.0, 0.0))),
                   heat, useHeatmap && heat != []))
  }

  /** The head of the loop body: repair the coordinates, read the votes, build the popup. */
  method RowPoint(row: Row, popupCols: seq<string>) returns (p: Option<Point>)
    ensures p == Accept(popupCols)(row)
  {
    var fixed := FixLatLon(Get(row, "lat"), Get(row, "lon"));
    if fixed.None? {
      return None;
    }
    var (lat, lon) := fixed.value;
    var votos := ToFloat(Get(row, "qt_votos")).GetOr(0.0);
    var html := BuildPopup(row, PopupCols(popupCols));
    return Some(Point(lat, lon, votos, html));
  }

  /** The markers of the accepted points, all drawn with the same style. */
  function MarkersOf(pts: seq<Point>, style: Row, radius: real, wo: (real, real)): (ms: seq<Marker>)
    ensures |ms| == |pts|
  {
    seq(|pts|, k requires 0 <= k < |pts| => MarkerOf(pts[k], style, radius, wo))
  }

  /** The heat points of the accepted points, when the heat map is on. */
  function HeatsOf(pts: seq<Point>, useHeatmap: bool): (hs: seq<(real, real, real)>)
    ensures |hs| == if useHeatmap then |pts| else 0
  {
    if useHeatmap then seq(|pts|, k requires 0 <= k < |pts| => HeatOf(pts[k])) else []
  }

  lemma LayerAppend(pts: seq<Point>, p: Point, s: Row, radius: real, wo: (real, real), useHeatmap: bool)
    ensures MarkersOf(pts + [p], s, radius, wo) == MarkersOf(pts, s, radius, wo) + [MarkerOf(p, s, radius, wo)]
    ensures HeatsOf(pts + [p], useHeatmap) == HeatsOf(pts, useHeatmap) + (if useHeatmap then [HeatOf(p)] else [])
  {
  }

  /**
   * The loop of `add_points_layer`: the markers and heat points of the accepted
   * rows, or `None` when building a marker raises.
   */
  method PlaceMarkers(rows: seq<Row>, s: Row, popupCols: seq<string>, radius: real, useHeatmap: bool)
    returns (r: Option<(seq<Marker>, seq<(real, real, real)>)>)
    ensures var pts := FilterMap(rows, Accept(popupCols));
      && (r.None? <==> pts != [] && MarkerStyle(s).None?)
      && (r.Some? ==> r.value == (MarkersOf(pts, s, radius, MarkerStyle(s).GetOr((0.0, 0.0))), HeatsOf(pts, useHeatmap)))
  {
    var markers: seq<Marker> := [];
    var heat: seq<(real, real, real)> := [];
    ghost var accept := Accept(popupCols);
    ghost var pts: seq<Point> := [];
    ghost var wo := MarkerStyle(s).GetOr((0.0, 0.0));
    for i := 0 to |rows|
      invariant pts == FilterMap(rows[..i], accept)
      invariant pts != [] ==> MarkerStyle(s).Some?
      invariant markers == MarkersOf(pts, s, radius, wo)
      invariant heat == HeatsOf(pts, useHeatmap)
    {
      FilterMapStep(rows, i, accept);
      var next := PlaceRow(markers, heat, pts, rows[i], s, popupCols, radius, useHeatmap);
      if next.None? {
        AcceptedRowIsKept(rows, accept, i);
        return None;
      }
      markers, heat := next.value.0, next.value.1;
      pts := pts + Lift(accept(rows[i]));
    }
    assert rows[..|rows|] == rows;
    return Some((markers, heat));
  }

  /** One pass of the loop body: a rejected row changes nothing, an accepted one adds its point. */
  method PlaceRow(markers: seq<Marker>, heat: seq<(real, real, real)>, ghost pts: seq<Point>, row: Row, s: Row,
                  popupCols: seq<string>, radius: real, useHeatmap: bool)
    returns (r: Option<(seq<Marker>, seq<(real, real, real)>)>)
    requires markers == MarkersOf(pts, s, radius, MarkerStyle(s).GetOr((0.0, 0.0)))
    requires heat == HeatsOf(pts, useHeatmap)
    ensures var pts' := pts + Lift(Accept(popupCols)(row));
      && (r.None? <==> Accept(popupCols)(row).Some? && MarkerStyle(s).None?)
      && (r.Some? ==> r.value == (MarkersOf(pts', s, radius, MarkerStyle(s).GetOr((0.0, 0.0))), HeatsOf(pts', useHeatmap)))
  {
    var p := RowPoint(row, popupCols);
    if p.None? {
      assert pts + Lift(p) == pts;
      return Some((markers, heat));
    }
    LayerAppend(pts, p.value, s, radius, MarkerStyle(s).GetOr((0.0, 0.0)), useHeatmap);
    r := AddPoint(markers, heat, p.value, s, radius, useHeatmap);
  }

  /** One accepted point: its heat point when the heat map is on, then its marker; `None` when the marker raises. */
  method AddPoint(markers: seq<Marker>, heat: seq<(real, real, real)>, p: Point, s: Row, radius: real, useHeatmap: bool)
    returns (r: Option<(seq<Marker>, seq<(real, real, real)>)>)
    ensures r.None? <==> MarkerStyle(s).None?
    ensures r.Some? ==> r.value == (markers + [MarkerOf(p, s, radius, MarkerStyle(s).value)],
                                    heat + (if useHeatmap then [HeatOf(p)] else []))
  {
    var heat' := if useHeatmap then heat + [HeatOf(p)] else heat;
    assert heat' == heat + (if useHeatmap then [HeatOf(p)] else []);
    var m := MarkerFor(p, s, radius);
    if m.None? {
      return None;
    }
    return Some((markers + [m.value], heat'));
  }

  /** The `folium.Circle` or `folium.CircleMarker` for one point; `None` when one of its `float()` calls raises. */
  method MarkerFor(p: Point, s: Row, radius: real) returns (m: Option<Marker>)
    ensures m.None? <==> MarkerStyle(s).None?
    ensures m.Some? ==> m.value == MarkerOf(p, s, radius, MarkerStyle(s).value)
  {
    var circle := GetOr(s, "mode", Str("circle")) == Str("circle");
    var rad := if circle && Get(s, "radius_mode") == Str("votes") then VoteScaled(p.votes) else Fixed(radius);
    var weight := PyFloat(GetOr(s, "weight", Int(2)));
    var opacity := PyFloat(GetOr(s, "fillOpacity", Float(if circle then 0.7 else 0.85)));
    if weight.None? || opacity.None? {
      return None;
    }
    return Some(Marker(p.lat, p.lon, rad, circle, weight.value, opacity.value, p.popup));
  }

  /** `add_points_layer`: the style lookups, then one pass over the rows. */
  method AddPointsLayer(rows: seq<Row>, style: Value, popupCols: seq<string>, useHeatmap: bool) returns (r: Result<Layer>)
    ensures r == PointsLayer(rows, style, popupCols, useHeatmap)
  {
    if !style.Dict? {
      return Raised;
    }
    var s := style.entries;
    var color := GetOr(s, "color", Str("#2b6cb0"));
    var fill := GetOr(s, "fillColor", color);
    var radius := PyFloat(GetOr(s, "radius", Int(6)));
    if radius.None? {
      return Raised;
    }
    var show := Truthy(GetOr(s, "show", Bool(true)));
    var placed := PlaceMarkers(rows, s, popupCols, radius.value, useHeatmap);
    if placed.None? {
      return Raised;
    }
    var (markers, heat) := placed.value;
    return Ok(Layer(color, fill, show, markers, heat, useHeatmap && heat != []));
  }

  /** An element whose image is present makes the selection non-empty. */
  lemma AcceptedRowIsKept<A, B>(xs: seq<A>, f: A -> Option<B>, i: nat)
    requires i < |xs| && f(xs[i]).Some?
    ensures FilterMap(xs, f) != []
  {
    FilterMapSelects(xs, f);
    assert i in KeptIndices(xs, f);
  }

  /**
   * The layer has a marker for exactly the rows whose coordinates `_fix_latlon`
   * accepts, in row order, each at the repaired position.
   */
  lemma {:induction false} MarkersFollowRows(rows: seq<Row>, style: Value, cols: seq<string>, useHeatmap: bool)
    requires PointsLayer(rows, style, cols, useHeatmap).Ok?
    ensures var ms, idx := PointsLayer(rows, style, cols, useHeatmap).value.markers, KeptIndices(rows, Accept(cols));
      && |idx| == |ms| && Increasing(idx)
      && (forall k :: 0 <= k < |idx| ==>
            (idx[k] < |rows| && FixLatLon(Get(rows[idx[k]], "lat"), Get(rows[idx[k]], "lon")) == Some((ms[k].lat, ms[k].lon))))
      && (forall i :: 0 <= i < |rows| ==> (FixLatLon(Get(rows[i], "lat"), Get(rows[i], "lon")).Some? <==> i in idx))
  {
    var f := Accept(cols);
    var pts, idx := FilterMap(rows, f), KeptIndices(rows, f);
    var ms := PointsLayer(rows, style, cols, useHeatmap).value.markers;
    FilterMapSelects(rows, f);
    forall k | 0 <= k < |idx|
      ensures FixLatLon(Get(rows[idx[k]], "lat"), Get(rows[idx[k]], "lon")) == Some((ms[k].lat, ms[k].lon))
    {
      assert f(rows[idx[k]]) == Some(pts[k]);
    }
    forall i | 0 <= i < |rows| ensures FixLatLon(Get(rows[i], "lat"), Get(rows[i], "lon")).Some? <==> i in idx {
      if i in idx {
        var k :| 0 <= k < |idx| && idx[k] == i;
        assert f(rows[idx[k]]) == Some(pts[k]);
      } else {
        assert f(rows[i]).None?;
      }
    }
  }

  /** Every marker lies inside the valid latitude and longitude ranges. */
  lemma MarkersInRange(rows: seq<Row>, style: Value, cols: seq<string>, useHeatmap: bool)
    requires PointsLayer(rows, style, cols, useHeatmap).Ok?
    ensures forall m :: m in PointsLayer(rows, style, cols, useHeatmap).value.markers ==> InRange(m.lat, m.lon)
  {
    var f := Accept(cols);
    var pts, idx := FilterMap(rows, f), KeptIndices(rows, f);
    FilterMapSelects(rows, f);
    forall k | 0 <= k < |pts| ensures InRange(pts[k].lat, pts[k].lon) {
      AcceptedInRange(cols, rows[idx[k]], pts[k]);
    }
  }

  /** A row's point, when it has one, lies inside the valid ranges. */
  lemma AcceptedInRange(cols: seq<string>, row: Row, p: Point)
    requires Accept(cols)(row) == Some(p)
    ensures InRange(p.lat, p.lon)
  {
  }

  /**
   * With the heat map on there is one heat point per marker, at the marker's
   * position, weighing at least 0.1; with it off there are none.
   * `HeatWeighsVotes` gives the weight itself.
   */
  lemma HeatFollowsMarkers(rows: seq<Row>, style: Value, cols: seq<string>, useHeatmap: bool)
    requires PointsLayer(rows, style, cols, useHeatmap).Ok?
    ensures var l := PointsLayer(rows, style, cols, useHeatmap).value;
      && (useHeatmap ==> |l.heat| == |l.markers|)
      && (!useHeatmap ==> l.heat == [] && !l.heatLayer)
      && (l.heatLayer <==> useHeatmap && l.markers != [])
      && forall k :: 0 <= k < |l.heat| ==>
           l.heat[k].0 == l.markers[k].lat && l.heat[k].1 == l.markers[k].lon && l.heat[k].2 >= 0.1
  {
  }

  /** The `k`-th heat point weighs `max(0.1, votes)` of the `k`-th accepted row. */
  lemma HeatWeighsVotes(rows: seq<Row>, style: Value, cols: seq<string>, useHeatmap: bool)
    requires PointsLayer(rows, style, cols, useHeatmap).Ok?
    ensures var l, idx := PointsLayer(rows, style, cols, useHeatmap).value, KeptIndices(rows, Accept(cols));
      forall k :: 0 <= k < |l.heat| ==>
        && k < |idx| && idx[k] < |rows|
        && l.heat[k].2 == (if 0.1 < Votes(rows[idx[k]]) then Votes(rows[idx[k]]) else 0.1)
  {
    var f := Accept(cols);
    var pts, idx := FilterMap(rows, f), KeptIndices(rows, f);
    var l := PointsLayer(rows, style, cols, useHeatmap).value;
    FilterMapSelects(rows, f);
    forall k | 0 <= k < |l.heat|
      ensures k < |idx| && idx[k] < |rows| && l.heat[k].2 == (if 0.1 < Votes(rows[idx[k]]) then Votes(rows[idx[k]]) else 0.1)
    {
      AcceptedVotes(cols, rows[idx[k]], pts[k]);
    }
  }

  /** A row's point carries the row's votes. */
  lemma AcceptedVotes(cols: seq<string>, row: Row, p: Point)
    requires Accept(cols)(row) == Some(p)
    ensures p.votes == Votes(row)
  {
  }

  /**
   * A marker's radius is `circle_radius(votes)` exactly for circles drawn with
   * `radius_mode == "votes"`; every other marker gets `float(style.get("radius", 6))`.
   */
  lemma RadiusRule(rows: seq<Row>, style: Value, cols: seq<string>, useHeatmap: bool)
    requires PointsLayer(rows, style, cols, useHeatmap).Ok?
    ensures style.Dict? && PyFloat(GetOr(style.entries, "radius", Int(6))).Some?
    ensures var l, s := PointsLayer(rows, style, cols, useHeatmap).value, style.entries;
      forall m :: m in l.markers ==>
        && (m.circle <==> CircleMode(s))
        && (m.radius.VoteScaled? <==> CircleMode(s) && VotesMode(s))
        && (m.radius.Fixed? ==> m.radius.r == PyFloat(GetOr(s, "radius", Int(6))).value)
  {
  }

  /** Without a `radius` entry the fixed radius is 6. */
  lemma DefaultRadius(rows: seq<Row>, style: Value, cols: seq<string>, useHeatmap: bool)
    requires PointsLayer(rows, style, cols, useHeatmap).Ok? && !HasKey(style.entries, "radius")
    ensures forall m :: m in PointsLayer(rows, style, cols, useHeatmap).value.markers && m.radius.Fixed? ==> m.radius.r == 6.0
  {
  }

  /**
   * The call raises exactly when the style is not a dict, its radius does not
   * convert, or some row is accepted and its weight or fill opacity does not convert.
   */
  lemma PointsLayerRaises(rows: seq<Row>, style: Value, cols: seq<string>, useHeatmap: bool)
    ensures PointsLayer(rows, style, cols, useHeatmap).Raised? <==>
      || !style.Dict?
      || PyFloat(GetOr(style.entries, "radius", Int(6))).None?
      || ((exists i :: 0 <= i < |rows| && FixLatLon(Get(rows[i], "lat"), Get(rows[i], "lon")).Some?)
          && MarkerStyle(style.entries).None?)
  {
    var f := Accept(cols);
    FilterMapSelects(rows, f);
    if exists i :: 0 <= i < |rows| && FixLatLon(Get(rows[i], "lat"), Get(rows[i], "lon")).Some? {
      var i :| 0 <= i < |rows| && FixLatLon(Get(rows[i], "lat"), Get(rows[i], "lon")).Some?;
      AcceptedRowIsKept(rows, f, i);
    } else {
      NoneAccepted(rows, f);
    }
  }

  /** When no element has an image, the selection is empty. */
  lemma {:induction false} NoneAccepted<A, B>(xs: seq<A>, f: A -> Option<B>)
    requires forall i :: 0 <= i < |xs| ==> f(xs[i]).None?
    ensures FilterMap(xs, f) == []
  {
    if xs != [] {
      NoneAccepted(xs[..|xs| - 1], f);
    }
  }
}
