/**
 * The part of a pandas `DataFrame` the dashboard relies on: named columns in
 * order and rows of cells. A missing cell (`NaN`/`None`) is `Null`.
 */
module Frame {
  import opened PyText
  import opened PyValue
  import opened Seqs

  /**
   * Column labels. The votes table's columns are a fixed vocabulary, so each
   * has its own constructor (`Name` gives the pandas label); any other label
   * is `Other`.
   */
  datatype Col =
    | Tipo | Nome | Municipio | Distrito | Bairro | Endereco | LocalVotacao | QtVotos
    | Lat | Lon | Properties | Geometry | Id
    | EnderecoLabel | MunicipioLabel | BairroDistrito
    | Other(text: string)
  {
    function Name(): string {
      match this
      case Tipo => "tipo"
      case Nome => "nome"
      case Municipio => "municipio"
      case Distrito => "distrito"
      case Bairro => "bairro"
      case Endereco => "endereco"
      case LocalVotacao => "local_votacao"
      case QtVotos => "qt_votos"
      case Lat => "lat"
      case Lon => "lon"
      case Properties => "properties"
      case Geometry => "geometry"
      case Id => "id"
      case EnderecoLabel => "Endere\U{E7}o"
      case MunicipioLabel => "Munic\U{ED}pio"
      case BairroDistrito => "Bairro/Distrito"
      case Other(text) => text
    }
  }

  type Cells = map<Col, Value>

  datatype Table = Table(columns: seq<Col>, rows: seq<Cells>)

  const EmptyTable: Table := Table([], [])

  /** `row[c]`, with `Null` for a cell the row does not have. */
  function Cell(row: Cells, c: Col): Value {
    if c in row then row[c] else Null
  }

  /** `df[c]` as a list of cells. */
  function Column(t: Table, c: Col): (r: seq<Value>)
    ensures |r| == |t.rows| && forall i :: 0 <= i < |t.rows| ==> r[i] == Cell(t.rows[i], c)
  {
    seq(|t.rows|, i requires 0 <= i < |t.rows| => Cell(t.rows[i], c))
  }

  /** `df[c] = vals`: replace the column in place, or add it as the last column. */
  function Assign(t: Table, c: Col, vals: seq<Value>): (r: Table)
    requires |vals| == |t.rows|
    ensures r.columns == if c in t.columns then t.columns else t.columns + [c]
    ensures |r.rows| == |t.rows| && forall i :: 0 <= i < |t.rows| ==> r.rows[i] == t.rows[i][c := vals[i]]
  {
    Table(if c in t.columns then t.columns else t.columns + [c],
          seq(|t.rows|, i requires 0 <= i < |t.rows| => t.rows[i][c := vals[i]]))
  }

  /** `df[mask]`: the rows whose mask entry is true, in order. */
  function MaskSelect(t: Table, mask: seq<bool>): (r: Table)
    requires |mask| == |t.rows|
    ensures r.columns == t.columns
  {
    Table(t.columns, Picked(t.rows, mask))
  }

  function Picked<A>(xs: seq<A>, mask: seq<bool>): (ys: seq<A>)
    requires |mask| == |xs|
    ensures |ys| <= |xs|
  {
    if xs == [] then [] else Picked(xs[..|xs| - 1], mask[..|xs| - 1]) + (if mask[|xs| - 1] then [xs[|xs| - 1]] else [])
  }

  /** Selecting by the mask of a predicate is filtering by it. */
  lemma {:induction false} PickedByPredicate<A>(xs: seq<A>, p: A -> bool, mask: seq<bool>)
    requires |mask| == |xs| && forall i :: 0 <= i < |xs| ==> mask[i] == p(xs[i])
    ensures Picked(xs, mask) == Filter(xs, p)
  {
    if xs != [] {
      var n := |xs| - 1;
      PickedByPredicate(xs[..n], p, mask[..n]);
      FilterAppend(xs[..n], xs[n], p);
      assert xs[..n] + [xs[n]] == xs;
    }
  }

  /** The row has a value in every one of `cols`. */
  predicate Complete(cols: seq<Col>, row: Cells) {
    forall c :: c in cols ==> Cell(row, c) != Null
  }

  function CompleteIn(cols: seq<Col>): Cells -> bool {
    row => Complete(cols, row)
  }

  /** `df.dropna(subset=cols)` */
  function DropNa(t: Table, cols: seq<Col>): (r: Table)
    ensures r.columns == t.columns
  {
    Table(t.columns, Filter(t.rows, CompleteIn(cols)))
  }

  /** `(col.astype(str).str.strip() != "").any()` */
  predicate AnyNonBlank(col: seq<Value>) {
    exists i :: 0 <= i < |col| && Strip(Render(col[i])) != ""
  }

  /** `pd.to_numeric(x, errors="coerce")` followed by `fillna(0.0)` for one cell. */
  function NumericOrZero(v: Value): (r: real)
    ensures IsNumber(v) && PyFloat(v).Some? ==> r == NumberOf(v)
    ensures v.Null? ==> r == 0.0
  {
    match v
    case Str(s) => ParseFloat(Strip(s)).GetOr(0.0)
    case _ => if IsNumber(v) then PyFloat(v).GetOr(0.0) else 0.0
  }

  function NumericColumn(col: seq<Value>): (r: seq<Value>)
    ensures |r| == |col| && forall i :: 0 <= i < |col| ==> r[i] == Float(NumericOrZero(col[i]))
  {
    seq(|col|, i requires 0 <= i < |col| => Float(NumericOrZero(col[i])))
  }
}
