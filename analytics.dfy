/**
 * `localiza/analytics.py`: the votes table built from a votes GeoJSON
 * (`load_votos_df`) and the selection of the points that fall inside a drawn
 * polygon (`filter_points_within_polygon`).
 */
module Analytics {
  import opened PyText
  import opened PyValue
  import opened Seqs
  import Schema
  import opened Frame

  // ---------------------------------------------------------------- load_votos_df

  /** The columns of `pd.DataFrame(rows)` for the records of the normaliser, in key order. */
  const RecordColumns: seq<Col> :=
    [Tipo, Nome, Municipio, Distrito, Bairro, Endereco, LocalVotacao, QtVotos,
     Lat, Lon, Properties, Geometry, Id]

  /** The friendly columns added after them. */
  const LoadedColumns: seq<Col> := RecordColumns + [EnderecoLabel, MunicipioLabel, BairroDistrito]

  function OptFloat(x: Option<real>): Value {
    if x.Some? then Float(x.value) else Null
  }

  /** One record as a table row. */
  function RecordRow(r: Schema.Record): Cells {
    map[Tipo := Str(r.tipo), Nome := Str(r.nome), Municipio := Str(r.municipio),
        Distrito := Str(r.distrito), Bairro := Str(r.bairro), Endereco := Str(r.endereco),
        LocalVotacao := Str(r.localVotacao), QtVotos := Float(r.qtVotos),
        Lat := OptFloat(r.lat), Lon := OptFloat(r.lon), Properties := r.properties,
        Geometry := r.geometry, Id := Str(r.id)]
  }

  /** `pd.DataFrame(rows)`: no columns at all when there are no rows. */
  function FromRecords(recs: seq<Schema.Record>): (t: Table)
    ensures |t.rows| == |recs|
  {
    Table(if recs == [] then [] else RecordColumns, seq(|recs|, i requires 0 <= i < |recs| => RecordRow(recs[i])))
  }

  /** `normalize_geojson(gj, tipo="votacao", force_nome_from="local_votacao")` as a value. */
  function VoteRecords(gj: Value): Result<seq<Schema.Record>> {
    match Schema.Features(gj)
    case None => Raised
    case Some(items) => Ok(FilterMap(items, Schema.NormalizeStep(Str("votacao"), Some("local_votacao"))))
  }

  /** Some record has a district: then the whole `Bairro/Distrito` column comes from `distrito`. */
  predicate UseDistrito(recs: seq<Schema.Record>) {
    exists i :: 0 <= i < |recs| && Strip(recs[i].distrito) != ""
  }

  /** The row of one record in the loaded table, before rows without coordinates are dropped. */
  function LoadedRow(r: Schema.Record, useDistrito: bool): Cells {
    RecordRow(r)[LocalVotacao := Str(r.nome)][EnderecoLabel := Str(r.endereco)]
      [MunicipioLabel := Str(r.municipio)][BairroDistrito := Str(if useDistrito then r.distrito else r.bairro)]
      [QtVotos := Float(r.qtVotos)]
  }

  /** The `dropna` subset. */
  const Coordinates: seq<Col> := [Lat, Lon]

  /** The table `load_votos_df` returns for the parsed file `gj`; `Raised` when normalising raises. */
  function VotesTable(gj: Value): Result<Table> {
    if !Truthy(gj) then Ok(EmptyTable)
    else
      match VoteRecords(gj)
      case Raised => Raised
      case Ok(recs) =>
        if recs == [] then Ok(EmptyTable) else Ok(LoadedTable(recs))
  }

  /** The rows of the records with the friendly columns, before `dropna`. */
  function LoadedRows(recs: seq<Schema.Record>): (rows: seq<Cells>)
    ensures |rows| == |recs|
  {
    var use := UseDistrito(recs);
    seq(|recs|, i requires 0 <= i < |recs| => LoadedRow(recs[i], use))
  }

  /** The table built from a non-empty list of records. */
  function LoadedTable(recs: seq<Schema.Record>): Table {
    Table(LoadedColumns, Filter(LoadedRows(recs), CompleteIn(Coordinates)))
  }

  lemma LoadedRowCell(r: Schema.Record, use: bool)
    ensures var row := LoadedRow(r, use);
      && Cell(row, Nome) == Str(r.nome) && Cell(row, LocalVotacao) == Str(r.nome)
      && Cell(row, Endereco) == Str(r.endereco) && Cell(row, EnderecoLabel) == Str(r.endereco)
      && Cell(row, Municipio) == Str(r.municipio) && Cell(row, MunicipioLabel) == Str(r.municipio)
      && Cell(row, BairroDistrito) == Str(if use then r.distrito else r.bairro)
      && Cell(row, QtVotos) == Float(r.qtVotos)
      && Cell(row, Lat) == OptFloat(r.lat) && Cell(row, Lon) == OptFloat(r.lon)
  {
    LoadedRowNames(r, use);
    LoadedRowPlaces(r, use);
    LoadedRowNumbers(r, use);
  }

  lemma LoadedRowNames(r: Schema.Record, use: bool)
    ensures var row := LoadedRow(r, use);
      Cell(row, Nome) == Str(r.nome) && Cell(row, LocalVotacao) == Str(r.nome)
      && Cell(row, Endereco) == Str(r.endereco) && Cell(row, EnderecoLabel) == Str(r.endereco)
  {
  }

  lemma LoadedRowPlaces(r: Schema.Record, use: bool)
    ensures var row := LoadedRow(r, use);
      Cell(row, Municipio) == Str(r.municipio) && Cell(row, MunicipioLabel) == Str(r.municipio)
      && Cell(row, BairroDistrito) == Str(if use then r.distrito else r.bairro)
  {
  }

  lemma LoadedRowNumbers(r: Schema.Record, use: bool)
    ensures var row := LoadedRow(r, use);
      Cell(row, QtVotos) == Float(r.qtVotos) && Cell(row, Lat) == OptFloat(r.lat) && Cell(row, Lon) == OptFloat(r.lon)
  {
  }

  /**
   * `load_votos_df` on the parsed file: normalise, then the column statements
   * of the source. Reading the file is left to the caller.
   */
  method LoadVotosDf(gj: Value) returns (r: Result<Table>)
    ensures r == VotesTable(gj)
  {
    if !Truthy(gj) {
      return Ok(EmptyTable);
    }
    var rows := Schema.NormalizeGeojson(gj, Str("votacao"), Some("local_votacao"));
    if rows.Raised? {
      return Raised;
    }
    var recs := rows.value;
    var df := FromRecords(recs);
    if df.rows == [] {
      return Ok(df);
    }
    df := DeriveColumns(recs);
    return Ok(df);
  }

  /** The column assignments and `dropna` of `load_votos_df`, one statement at a time. */
  method DeriveColumns(recs: seq<Schema.Record>) returns (df: Table)
    requires recs != []
    ensures df == LoadedTable(recs)
  {
    df := CopyColumns(recs);
    df := ChooseBairroDistrito(recs, df);
    df := CoerceVotes(recs, df);
    df := DropNa(df, Coordinates);
  }

  /** `df["Bairro/Distrito"]`: the district column when some district is not blank, else the neighbourhood column. */
  method ChooseBairroDistrito(recs: seq<Schema.Record>, df: Table) returns (r: Table)
    requires df.columns + [BairroDistrito] == LoadedColumns && BairroDistrito !in df.columns && QtVotos in df.columns
    requires |df.rows| == |recs| && forall i :: 0 <= i < |recs| ==> df.rows[i] == Friendly(recs[i])
    ensures r.columns == LoadedColumns && QtVotos in r.columns
    ensures |r.rows| == |recs| && forall i :: 0 <= i < |recs| ==>
      r.rows[i] == Friendly(recs[i])[BairroDistrito := Str(if UseDistrito(recs) then recs[i].distrito else recs[i].bairro)]
  {
    var distrito := Column(df, Distrito);
    assert AnyNonBlank(distrito) <==> UseDistrito(recs) by {
      forall i | 0 <= i < |recs| ensures distrito[i] == Str(recs[i].distrito) {
        FriendlyCells(recs[i]);
      }
    }
    var source := if AnyNonBlank(distrito) then distrito else Column(df, Bairro);
    r := Assign(df, BairroDistrito, source);
    forall i | 0 <= i < |recs|
      ensures r.rows[i] == Friendly(recs[i])[BairroDistrito := Str(if UseDistrito(recs) then recs[i].distrito else recs[i].bairro)]
    {
      FriendlyCells(recs[i]);
    }
  }

  /** `df["qt_votos"] = pd.to_numeric(df["qt_votos"], errors="coerce").fillna(0.0)` */
  method CoerceVotes(recs: seq<Schema.Record>, df: Table) returns (r: Table)
    requires QtVotos in df.columns
    requires |df.rows| == |recs| && forall i :: 0 <= i < |recs| ==>
      df.rows[i] == Friendly(recs[i])[BairroDistrito := Str(if UseDistrito(recs) then recs[i].distrito else recs[i].bairro)]
    ensures r.columns == df.columns && r.rows == LoadedRows(recs)
  {
    ghost var use := UseDistrito(recs);
    r := Assign(df, QtVotos, NumericColumn(Column(df, QtVotos)));
    forall i | 0 <= i < |recs| ensures r.rows[i] == LoadedRows(recs)[i] {
      assert r.rows[i] == df.rows[i][QtVotos := Float(NumericOrZero(Cell(df.rows[i], QtVotos)))];
      LoadedRowSteps(recs[i], use);
    }
  }

  /** `pd.DataFrame(rows)` and the three copy statements. */
  method CopyColumns(recs: seq<Schema.Record>) returns (df: Table)
    requires recs != []
    ensures df.columns == RecordColumns + [EnderecoLabel, MunicipioLabel]
    ensures BairroDistrito !in df.columns && QtVotos in df.columns
    ensures df.columns + [BairroDistrito] == LoadedColumns
    ensures |df.rows| == |recs| && forall i :: 0 <= i < |recs| ==> df.rows[i] == Friendly(recs[i])
  {
    CopiedColumns();
    var d0 := FromRecords(recs);
    var d1 := Assign(d0, LocalVotacao, Column(d0, Nome));
    var d2 := Assign(d1, EnderecoLabel, Column(d1, Endereco));
    df := Assign(d2, MunicipioLabel, Column(d2, Municipio));
    forall i | 0 <= i < |recs| ensures df.rows[i] == Friendly(recs[i]) {
      var row := RecordRow(recs[i]);
      assert d1.rows[i] == row[LocalVotacao := Cell(row, Nome)];
      assert d2.rows[i] == d1.rows[i][EnderecoLabel := Cell(d1.rows[i], Endereco)];
      assert df.rows[i] == d2.rows[i][MunicipioLabel := Cell(d2.rows[i], Municipio)];
      FriendlyCells(recs[i]);
    }
  }

  /** How the copy statements extend the record columns: the first overwrites an existing column, the other two append. */
  lemma CopiedColumns()
    ensures LocalVotacao in RecordColumns && QtVotos in RecordColumns
    ensures EnderecoLabel !in RecordColumns && MunicipioLabel !in RecordColumns + [EnderecoLabel]
    ensures BairroDistrito !in RecordColumns + [EnderecoLabel, MunicipioLabel]
    ensures RecordColumns + [EnderecoLabel] + [MunicipioLabel] == RecordColumns + [EnderecoLabel, MunicipioLabel]
    ensures RecordColumns + [EnderecoLabel, MunicipioLabel] + [BairroDistrito] == LoadedColumns
  {
  }

  /** The last two statements turn a record's copied row into its loaded row. */
  lemma LoadedRowSteps(r: Schema.Record, use: bool)
    ensures var row := Friendly(r)[BairroDistrito := Str(if use then r.distrito else r.bairro)];
      row[QtVotos := Float(NumericOrZero(Cell(row, QtVotos)))] == LoadedRow(r, use)
  {
    var row := Friendly(r)[BairroDistrito := Str(if use then r.distrito else r.bairro)];
    assert Cell(row, QtVotos) == Float(r.qtVotos);
    assert NumericOrZero(Float(r.qtVotos)) == r.qtVotos;
  }

  /** A record's row after the three copy statements. */
  function Friendly(r: Schema.Record): Cells {
    RecordRow(r)[LocalVotacao := Str(r.nome)][EnderecoLabel := Str(r.endereco)][MunicipioLabel := Str(r.municipio)]
  }

  /** The cells the column statements read, after the statements before them. */
  lemma FriendlyCells(r: Schema.Record)
    ensures var row := RecordRow(r);
      var row1 := row[LocalVotacao := Cell(row, Nome)];
      var row2 := row1[EnderecoLabel := Cell(row1, Endereco)];
      var row3 := row2[MunicipioLabel := Cell(row2, Municipio)];
      && row3 == Friendly(r)
      && Cell(row3, Distrito) == Str(r.distrito) && Cell(row3, Bairro) == Str(r.bairro)
      && Cell(row3, QtVotos) == Float(r.qtVotos)
      && Cell(row3[BairroDistrito := Str(r.distrito)], QtVotos) == Float(r.qtVotos)
      && Cell(row3[BairroDistrito := Str(r.bairro)], QtVotos) == Float(r.qtVotos)
  {
    RecordRowCells(r);
  }

  /** The cells of a record's row that the column statements read. */
  lemma RecordRowCells(r: Schema.Record)
    ensures var row := RecordRow(r);
      && Cell(row, Nome) == Str(r.nome) && Cell(row, Endereco) == Str(r.endereco)
      && Cell(row, Municipio) == Str(r.municipio) && Cell(row, Distrito) == Str(r.distrito)
      && Cell(row, Bairro) == Str(r.bairro) && Cell(row, QtVotos) == Float(r.qtVotos)
  {
  }

  /** Every row of the votes table has both coordinates. */
  lemma LoadedTableLocated(recs: seq<Schema.Record>)
    ensures forall row :: row in LoadedTable(recs).rows ==> Cell(row, Lat).Float? && Cell(row, Lon).Float?
  {
    var all := LoadedRows(recs);
    var kept := Filter(all, CompleteIn(Coordinates));
    forall row | row in kept ensures Cell(row, Lat).Float? && Cell(row, Lon).Float? {
      var k :| 0 <= k < |kept| && kept[k] == row;
      FilterAt(all, CompleteIn(Coordinates), k);
      var i := KeptIndices(all, Keep(CompleteIn(Coordinates)))[k];
      LoadedRowCell(recs[i], UseDistrito(recs));
      assert Lat in Coordinates && Lon in Coordinates;
    }
  }

  /**
   * The votes table has one row per record that has coordinates, in record
   * order: the k-th row comes from record `idx[k]`, the positions increase,
   * and every record with both coordinates is used.
   */
  lemma LoadedTableOrder(recs: seq<Schema.Record>)
    ensures var rows, idx := LoadedTable(recs).rows, KeptIndices(LoadedRows(recs), Keep(CompleteIn(Coordinates)));
      && |idx| == |rows| && Increasing(idx)
      && (forall k :: 0 <= k < |idx| ==>
            (idx[k] < |recs| && recs[idx[k]].lat.Some? && recs[idx[k]].lon.Some?
             && rows[k] == LoadedRow(recs[idx[k]], UseDistrito(recs))))
      && (forall i :: 0 <= i < |recs| && recs[i].lat.Some? && recs[i].lon.Some? ==> i in idx)
  {
    var use := UseDistrito(recs);
    var all := LoadedRows(recs);
    var idx := KeptIndices(all, Keep(CompleteIn(Coordinates)));
    FilterSelects(all, CompleteIn(Coordinates));
    forall k | 0 <= k < |idx|
      ensures idx[k] < |recs| && recs[idx[k]].lat.Some? && recs[idx[k]].lon.Some?
    {
      LoadedRowComplete(recs[idx[k]], use);
    }
    forall i | 0 <= i < |recs| && recs[i].lat.Some? && recs[i].lon.Some? ensures i in idx {
      LoadedRowComplete(recs[i], use);
    }
  }

  /** A loaded row survives `dropna` exactly when its record has both coordinates. */
  lemma LoadedRowComplete(r: Schema.Record, use: bool)
    ensures CompleteIn(Coordinates)(LoadedRow(r, use)) <==> r.lat.Some? && r.lon.Some?
  {
    LoadedRowNumbers(r, use);
    assert Lat in Coordinates && Lon in Coordinates;
    assert forall c :: c in Coordinates ==> c == Lat || c == Lon;
  }

  /**
   * Each row's friendly columns copy its record's name, address and
   * municipality, and `Bairro/Distrito` comes from `distrito` for every row
   * when any record has one, else from `bairro` for every row.
   */
  lemma LoadedRowColumns(recs: seq<Schema.Record>, r: Schema.Record)
    ensures var row := LoadedRow(r, UseDistrito(recs));
      && Cell(row, LocalVotacao) == Str(r.nome)
      && Cell(row, EnderecoLabel) == Str(r.endereco)
      && Cell(row, MunicipioLabel) == Str(r.municipio)
      && Cell(row, BairroDistrito) == Str(if UseDistrito(recs) then r.distrito else r.bairro)
      && Cell(row, QtVotos) == Float(r.qtVotos)
  {
    LoadedRowCell(r, UseDistrito(recs));
  }

  // ---------------------------------------------------------------- filter_points_within_polygon

  /**
   * The Shapely library as far as the filter uses it: whether `shape(geom)`
   * succeeds, and the outcome of `poly.contains(Point(lon, lat))` for that
   * shape (`None` when it raises).
   */
  datatype Shapely = Shapely(builds: bool, contains: (real, real) -> Option<bool>)

  /** `(geom.get("type") or "").lower()`; `None` when `.lower` or `.get` raises. */
  function GeometryType(geom: Value): Option<string> {
    if !geom.Dict? then None
    else
      var t := Or(Get(geom.entries, "type"), Str(""));
      if t.Str? then Some(Lower(t.s)) else None
  }

  predicate IsPolygonType(g: string) {
    g == "polygon" || g == "multipolygon"
  }

  /** The bounding box `(minlon, maxlon, minlat, maxlat)` of the flattened vertices; `None` when there are none. */
  function BoundingBox(coords: Value): Option<(real, real, real, real)> {
    var pts := Schema.Flatten(coords);
    if pts == [] then None
    else
      var lons := seq(|pts|, i requires 0 <= i < |pts| => NumberOf(pts[i].0));
      var lats := seq(|pts|, i requires 0 <= i < |pts| => NumberOf(pts[i].1));
      Some((MinOf(lons), MaxOf(lons), MinOf(lats), MaxOf(lats)))
  }

  /**
   * `minlon <= lon <= maxlon and minlat <= lat <= maxlat` for a row with
   * numeric coordinates; a missing cell (NaN in pandas) compares false.
   */
  function InBox(box: (real, real, real, real)): Cells -> bool {
    row =>
      var lon, lat := Cell(row, Lon), Cell(row, Lat);
      && IsNumber(lon) && IsNumber(lat)
      && box.0 <= NumberOf(lon) <= box.1 && box.2 <= NumberOf(lat) <= box.3
  }

  /** One entry of `inside_mask`: a row whose conversion or test raises is outside. */
  function Inside(lib: Shapely): Cells -> bool {
    row =>
      match (PyFloat(Cell(row, Lon)), PyFloat(Cell(row, Lat)))
      case (Some(lon), Some(lat)) => lib.contains(lon, lat).GetOr(false)
      case _ => false
  }

  /**
   * What `filter_points_within_polygon` does with the table: `Ok(None)` when
   * it hands the table back unchanged, `Ok(Some(p))` when it keeps the rows
   * satisfying `p`; `lib` is `None` when Shapely is not installed.
   */
  function Selection(t: Table, poly: Value, lib: Option<Shapely>): Result<Option<Cells -> bool>> {
    if t.rows == [] || !Truthy(poly) then Ok(None)
    else if !poly.Dict? then Raised
    else
      var geom := Or(Get(poly.entries, "geometry"), EmptyDict);
      match GeometryType(geom)
      case None => Raised
      case Some(g) =>
        if !IsPolygonType(g) then Ok(None)
        else if lib.None? then
          match BoundingBox(Get(geom.entries, "coordinates"))
          case None => Ok(None)
          case Some(box) => Ok(Some(InBox(box)))
        else if !lib.value.builds then Ok(None)
        else Ok(Some(Inside(lib.value)))
  }

  /** `filter_points_within_polygon`: the rows inside the drawn polygon, or the table unchanged whenever the polygon cannot be used. */
  function WithinPolygon(t: Table, poly: Value, lib: Option<Shapely>): Result<Table> {
    match Selection(t, poly, lib)
    case Raised => Raised
    case Ok(None) => Ok(t)
    case Ok(Some(p)) => Ok(Table(t.columns, Filter(t.rows, p)))
  }

  /** The exact path: build the mask row by row, then select with it. */
  method FilterPointsWithinPolygon(t: Table, poly: Value, lib: Option<Shapely>) returns (r: Result<Table>)
    ensures r == WithinPolygon(t, poly, lib)
  {
    if t.rows == [] || !Truthy(poly) {
      return Ok(t);
    }
    if !poly.Dict? {
      return Raised;
    }
    var geom := Or(Get(poly.entries, "geometry"), EmptyDict);
    var gtype := GeometryType(geom);
    if gtype.None? {
      return Raised;
    }
    if !IsPolygonType(gtype.value) {
      return Ok(t);
    }
    if lib.None? {
      var box := BoundingBox(Get(geom.entries, "coordinates"));
      if box.None? {
        return Ok(t);
      }
      return Ok(Table(t.columns, Filter(t.rows, InBox(box.value))));
    }
    if !lib.value.builds {
      return Ok(t);
    }
    var mask := InsideMask(t.rows, lib.value);
    if mask == [] {
      return Ok(t);
    }
    PickedByPredicate(t.rows, Inside(lib.value), mask);
    return Ok(MaskSelect(t, mask));
  }

  /** The `try` block for one row: `poly.contains(Point(float(lon), float(lat)))`, or `False` when anything raises. */
  method Contained(row: Cells, lib: Shapely) returns (b: bool)
    ensures b == Inside(lib)(row)
  {
    var lon := PyFloat(Cell(row, Lon));
    var lat := PyFloat(Cell(row, Lat));
    if lon.None? || lat.None? {
      return false;
    }
    var c := lib.contains(lon.value, lat.value);
    return if c.Some? then c.value else false;
  }

  /** The loop building `inside_mask`: one entry per row, in row order. */
  method InsideMask(rows: seq<Cells>, lib: Shapely) returns (mask: seq<bool>)
    ensures |mask| == |rows| && forall k :: 0 <= k < |rows| ==> mask[k] == Inside(lib)(rows[k])
  {
    mask := [];
    for i := 0 to |rows|
      invariant |mask| == i && forall k :: 0 <= k < i ==> mask[k] == Inside(lib)(rows[k])
    {
      var b := Contained(rows[i], lib);
      mask := mask + [b];
    }
  }

  /** The filter never invents, reorders or alters rows: its result is a subsequence of the input with the same columns. */
  lemma WithinPolygonSubsequence(t: Table, poly: Value, lib: Option<Shapely>)
    requires WithinPolygon(t, poly, lib).Ok?
    ensures var r := WithinPolygon(t, poly, lib).value;
      && r.columns == t.columns && |r.rows| <= |t.rows|
      && exists idx: seq<nat> :: |idx| == |r.rows| && Increasing(idx)
           && forall k :: 0 <= k < |idx| ==> idx[k] < |t.rows| && r.rows[k] == t.rows[idx[k]]
  {
    var r := WithinPolygon(t, poly, lib).value;
    match Selection(t, poly, lib).value
    case None =>
      var idx := seq(|t.rows|, i requires 0 <= i < |t.rows| => i as nat);
      assert |idx| == |r.rows| && Increasing(idx);
    case Some(p) =>
      FilterSelects(t.rows, p);
  }

  /**
   * The filter fails open: an empty table, a falsy polygon, a geometry that
   * is not a polygon, a shape Shapely cannot build, or (without Shapely) a
   * polygon with no vertices leaves the table as it is.
   */
  lemma WithinPolygonFailsOpen(t: Table, poly: Value, lib: Option<Shapely>)
    ensures t.rows == [] || !Truthy(poly) ==> WithinPolygon(t, poly, lib) == Ok(t)
    ensures poly.Dict? && GeometryType(Or(Get(poly.entries, "geometry"), EmptyDict)).Some?
      && !IsPolygonType(GeometryType(Or(Get(poly.entries, "geometry"), EmptyDict)).value)
      ==> WithinPolygon(t, poly, lib) == Ok(t)
    ensures lib.Some? && !lib.value.builds && WithinPolygon(t, poly, lib).Ok? ==> WithinPolygon(t, poly, lib) == Ok(t)
    ensures poly.Dict? ==>
      var geom := Or(Get(poly.entries, "geometry"), EmptyDict);
      GeometryType(geom).Some? && IsPolygonType(GeometryType(geom).value) && lib.None?
      && BoundingBox(Get(geom.entries, "coordinates")) == None
      ==> WithinPolygon(t, poly, lib) == Ok(t)
  {
  }

  /** Without Shapely the filter keeps exactly the rows inside the closed bounding box of the polygon's vertices. */
  lemma BoxFallbackKeepsBoxedRows(t: Table, poly: Value, geom: Value, box: (real, real, real, real))
    requires t.rows != [] && poly.Dict? && geom == Or(Get(poly.entries, "geometry"), EmptyDict)
    requires GeometryType(geom).Some? && IsPolygonType(GeometryType(geom).value)
    requires geom.Dict? && BoundingBox(Get(geom.entries, "coordinates")) == Some(box)
    ensures WithinPolygon(t, poly, None).Ok?
    ensures var r := WithinPolygon(t, poly, None).value.rows;
      && (forall row :: row in r ==> row in t.rows && InBox(box)(row))
      && (forall i :: 0 <= i < |t.rows| && InBox(box)(t.rows[i]) ==> t.rows[i] in r)
  {
    PolygonSelectionIsTruthy(poly);
    assert Selection(t, poly, None) == Ok(Some(InBox(box)));
    FilterSelects(t.rows, InBox(box));
  }

  /** A selection whose geometry has a polygon type is a non-empty dict, so it is never skipped as falsy. */
  lemma PolygonSelectionIsTruthy(poly: Value)
    requires poly.Dict?
    requires var geom := Or(Get(poly.entries, "geometry"), EmptyDict);
      GeometryType(geom).Some? && IsPolygonType(GeometryType(geom).value)
    ensures Truthy(poly)
  {
  }

  /** The box holds every vertex; `BoundingBoxIsTight` makes it the smallest one. */
  lemma BoundingBoxHoldsVertices(coords: Value, k: nat)
    requires k < |Schema.Flatten(coords)|
    ensures BoundingBox(coords).Some?
    ensures var b, p := BoundingBox(coords).value, Schema.Flatten(coords)[k];
      b.0 <= NumberOf(p.0) <= b.1 && b.2 <= NumberOf(p.1) <= b.3
  {
    var pts := Schema.Flatten(coords);
    var lons := seq(|pts|, i requires 0 <= i < |pts| => NumberOf(pts[i].0));
    var lats := seq(|pts|, i requires 0 <= i < |pts| => NumberOf(pts[i].1));
    assert lons[k] == NumberOf(pts[k].0) && lats[k] == NumberOf(pts[k].1);
  }

  /** Each side of the box passes through some vertex, so no smaller box holds them all. */
  lemma BoundingBoxIsTight(coords: Value)
    requires BoundingBox(coords).Some?
    ensures exists j :: 0 <= j < |Schema.Flatten(coords)| && NumberOf(Schema.Flatten(coords)[j].0) == BoundingBox(coords).value.0
    ensures exists j :: 0 <= j < |Schema.Flatten(coords)| && NumberOf(Schema.Flatten(coords)[j].0) == BoundingBox(coords).value.1
    ensures exists j :: 0 <= j < |Schema.Flatten(coords)| && NumberOf(Schema.Flatten(coords)[j].1) == BoundingBox(coords).value.2
    ensures exists j :: 0 <= j < |Schema.Flatten(coords)| && NumberOf(Schema.Flatten(coords)[j].1) == BoundingBox(coords).value.3
  {
    var b, pts := BoundingBox(coords).value, Schema.Flatten(coords);
    var lons := seq(|pts|, i requires 0 <= i < |pts| => NumberOf(pts[i].0));
    var lats := seq(|pts|, i requires 0 <= i < |pts| => NumberOf(pts[i].1));
    assert b == (MinOf(lons), MaxOf(lons), MinOf(lats), MaxOf(lats));
    var j0 :| 0 <= j0 < |lons| && lons[j0] == b.0;
    var j1 :| 0 <= j1 < |lons| && lons[j1] == b.1;
    var j2 :| 0 <= j2 < |lats| && lats[j2] == b.2;
    var j3 :| 0 <= j3 < |lats| && lats[j3] == b.3;
    assert NumberOf(pts[j0].0) == b.0 && NumberOf(pts[j1].0) == b.1;
    assert NumberOf(pts[j2].1) == b.2 && NumberOf(pts[j3].1) == b.3;
  }

  /** On the exact path a row is kept exactly when its coordinates convert and the polygon contains it without raising. */
  lemma ExactPathKeepsContained(t: Table, poly: Value, lib: Shapely)
    requires t.rows != [] && poly.Dict?
    requires var geom := Or(Get(poly.entries, "geometry"), EmptyDict);
      GeometryType(geom).Some? && IsPolygonType(GeometryType(geom).value) && lib.builds
    ensures WithinPolygon(t, poly, Some(lib)).Ok?
    ensures var r := WithinPolygon(t, poly, Some(lib)).value.rows;
      && (forall row :: row in r ==>
            (row in t.rows
             && PyFloat(Cell(row, Lon)).Some? && PyFloat(Cell(row, Lat)).Some?
             && lib.contains(PyFloat(Cell(row, Lon)).value, PyFloat(Cell(row, Lat)).value) == Some(true)))
      && (forall i :: 0 <= i < |t.rows| && Inside(lib)(t.rows[i]) ==> t.rows[i] in r)
  {
    PolygonSelectionIsTruthy(poly);
    assert Selection(t, poly, Some(lib)) == Ok(Some(Inside(lib)));
    FilterSelects(t.rows, Inside(lib));
  }
}
