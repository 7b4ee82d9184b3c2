/**
 * The decision rules written inline in the candidate page (`localiza/ui.py`),
 * each as a function of its inputs: which reference layers are drawn for the
 * chosen votes file, whether that file is the per-municipality one, the KPI
 * number format, the vote-range filter, which drawing becomes the polygon
 * selection, and the candidate picker. Widgets, layout and session state are
 * not part of this model: the values a widget returns are parameters.
 */
module UiRules {
  import opened PyText
  import opened PyValue
  import opened Seqs
  import opened Frame
  import Analytics
  import Schema
  import Charts

  // ---------------------------------------------------------------- base identifier and layer matching

  /**
   * The city part of the votes file's stem: `votos_fortaleza` and
   * `votos_fortaleza_municipios` both give `fortaleza`; a stem without the
   * `votos_` prefix, or no votes file at all, gives "".
   */
  function BaseIdentifier(votesStem: Option<string>): (r: string)
    ensures votesStem.None? ==> r == ""
    ensures votesStem.Some? && !StartsWith(Lower(votesStem.value), "votos_") ==> r == ""
  {
    if votesStem.None? then ""
    else
      var stem := Lower(votesStem.value);
      if StartsWith(stem, "votos_") then ReplaceAll(ReplaceAll(stem, "votos_", ""), "_municipios", "") else ""
  }

  /** The layer-name prefixes that tie a layer to one votes base. */
  const Prefixes: seq<string> := ["votos_", "locais_", "distritos_", "bairros_", "zonas_", "lider_"]

  predicate HasKnownPrefix(name: string) {
    exists p :: p in Prefixes && StartsWith(name, p)
  }

  /** A reference layer found on disk: its file stem and file name, and its first geometry type. */
  datatype LayerFile = LayerFile(stem: string, filename: string, geom: Value)

  /**
   * Whether the page draws a layer: always when there is no base identifier or
   * when the layer has none of the known prefixes; otherwise only when the
   * base identifier occurs in its lower-cased stem or file name.
   */
  predicate KeepLayer(base: string, layer: LayerFile) {
    var name := Lower(layer.stem);
    var file := Lower(layer.filename);
    base == "" || !HasKnownPrefix(name) || Contains(name, base) || Contains(file, base)
  }

  function KeepFor(base: string): LayerFile -> bool {
    layer => KeepLayer(base, layer)
  }

  /** The layer loop: skip the layers of other bases, keep the rest in order. */
  method SelectLayers(layers: seq<LayerFile>, base: string) returns (kept: seq<LayerFile>)
    ensures kept == Filter(layers, KeepFor(base))
  {
    kept := [];
    var i := 0;
    while i < |layers|
      invariant 0 <= i <= |layers|
      invariant kept == Filter(layers[..i], KeepFor(base))
    {
      var layer := layers[i];
      FilterAppend(layers[..i], layer, KeepFor(base));
      assert layers[..i + 1] == layers[..i] + [layer];
      i := i + 1;
      if base != "" {
        var name := Lower(layer.stem);
        var file := Lower(layer.filename);
        if HasKnownPrefix(name) {
          if !Contains(name, base) && !Contains(file, base) {
            continue;
          }
        }
      }
      kept := kept + [layer];
    }
    assert layers[..i] == layers;
  }

  /** Without a base identifier every layer is drawn. */
  lemma NoBaseDrawsAll(layers: seq<LayerFile>)
    ensures Filter(layers, KeepFor("")) == layers
  {
    FilterAll(layers, KeepFor(""));
  }

  /** No upper-case letter in `s`. */
  predicate NoUpper(s: string) {
    forall i :: 0 <= i < |s| ==> !IsUpper(s[i])
  }

  lemma LowerOfLower(s: string)
    requires NoUpper(s)
    ensures Lower(s) == s
  {
  }

  /** Lower-casing a votes-file stem lower-cases only the city part; the fixed parts are lower case already. */
  lemma VotesStemsLower(city: string)
    ensures Lower("votos_" + city) == "votos_" + Lower(city)
    ensures Lower("votos_" + city + "_municipios") == "votos_" + Lower(city) + "_municipios"
  {
    assert NoUpper("votos_") && NoUpper("_municipios");
    LowerOfLower("votos_");
    LowerOfLower("_municipios");
    LowerAppend("votos_", city);
    LowerAppend("votos_" + city, "_municipios");
  }

  /** The scan finds nothing in a string in which the pattern does not occur. */
  lemma NotFound(s: string, p: string)
    requires !Contains(s, p)
    ensures FindFrom(s, p, 0) == -1
  {
    var j := FindFrom(s, p, 0);
    assert j != -1 ==> OccursAt(s, p, j);
  }

  /** `(p + rest).replace(p, "")` is `rest` when `p` does not occur in `rest`. */
  lemma ReplaceLeading(p: string, rest: string)
    requires p != [] && FindFrom(rest, p, 0) == -1
    ensures ReplaceAll(p + rest, p, "") == rest
  {
    var s := p + rest;
    assert s[..|p|] == p;
    assert FindFrom(s, p, 0) == 0;
    assert s[|p|..] == rest;
  }

  /** No `votos_` occurs in `<c>_municipios` when none occurs in `c` and `c` does not end in `votos`. */
  lemma NoVotesPrefixIn(c: string)
    requires !Contains(c, "votos_") && !EndsWith(c, "votos")
    ensures FindFrom(c + "_municipios", "votos_", 0) == -1
  {
    var s := c + "_municipios";
    forall j | 0 <= j <= |s| - 6 ensures !OccursAt(s, "votos_", j) {
      NoVotesPrefixAt(c, j);
    }
  }

  /** The position-wise step of `NoVotesPrefixIn`: inside `c`, across the joint, or inside the suffix. */
  lemma NoVotesPrefixAt(c: string, j: nat)
    requires !Contains(c, "votos_") && !EndsWith(c, "votos")
    ensures !OccursAt(c + "_municipios", "votos_", j)
  {
    var s := c + "_municipios";
    if j + 6 > |s| {
    } else if j + 6 <= |c| {
      assert s[j..j + 6] == c[j..j + 6];
      assert !OccursAt(c, "votos_", j);
    } else if j + 5 == |c| {
      assert s[j..j + 5] == c[|c| - 5..];
      assert s[j..j + 6][..5] == s[j..j + 5];
    } else if j < |c| {
      assert s[j..j + 6][|c| - j] == s[|c|];
    } else {
      assert s[j..j + 6][5] == "_municipios"[j + 5 - |c|];
    }
  }

  /** Removing `_municipios` from `<c>_municipios` gives `c` back when none occurs in `c`. */
  lemma ReplaceSuffixMunicipios(c: string)
    requires !Contains(c, "_municipios")
    ensures ReplaceAll(c + "_municipios", "_municipios", "") == c
  {
    var p := "_municipios";
    var s := c + p;
    assert OccursAt(s, p, |c|) by { assert s[|c|..|c| + |p|] == p; }
    forall j | 0 <= j < |c| ensures !OccursAt(s, p, j) {
      if j + |p| <= |c| {
        assert s[j..j + |p|] == c[j..j + |p|];
        assert !OccursAt(c, p, j);
      } else {
        assert s[j..j + |p|][|c| - j] == s[|c|];
      }
    }
    var k := FindFrom(s, p, 0);
    assert k == |c|;
    assert s[..k] == c;
    assert s[k + |p|..] == [];
  }

  /**
   * `votos_<city>` gives the lower-cased city as base identifier, for every
   * city name in which neither `votos_` nor `_municipios` occurs (multi-word
   * names such as `sao_paulo` and capitalised ones included).
   */
  lemma PlainFileBase(city: string)
    requires !Contains(Lower(city), "votos_") && !Contains(Lower(city), "_municipios")
    ensures BaseIdentifier(Some("votos_" + city)) == Lower(city)
  {
    var c := Lower(city);
    VotesStemsLower(city);
    BaseOfVotesStem("votos_" + city, c);
    NotFound(c, "votos_");
    ReplaceLeading("votos_", c);
    NotFound(c, "_municipios");
  }

  /** `votos_<city>_municipios` gives the same base identifier as `votos_<city>`, unless the city name ends in `votos`. */
  lemma MunicipiosFileBase(city: string)
    requires !Contains(Lower(city), "votos_") && !Contains(Lower(city), "_municipios")
    requires !EndsWith(Lower(city), "votos")
    ensures BaseIdentifier(Some("votos_" + city + "_municipios")) == Lower(city)
  {
    var c := Lower(city);
    var stem := "votos_" + city + "_municipios";
    assert Lower(stem) == "votos_" + (c + "_municipios") by {
      VotesStemsLower(city);
      assert "votos_" + c + "_municipios" == "votos_" + (c + "_municipios");
    }
    BaseOfVotesStem(stem, c + "_municipios");
    StripMunicipiosStem(c);
  }

  /** A stem that starts with `votos_` once lower-cased goes through both replacements. */
  lemma BaseOfVotesStem(stem: string, rest: string)
    requires Lower(stem) == "votos_" + rest
    ensures BaseIdentifier(Some(stem)) == ReplaceAll(ReplaceAll("votos_" + rest, "votos_", ""), "_municipios", "")
  {
    assert ("votos_" + rest)[..6] == "votos_";
  }

  /** The two replacements of the base identifier take `votos_<c>_municipios` back to `c`. */
  lemma StripMunicipiosStem(c: string)
    requires !Contains(c, "votos_") && !Contains(c, "_municipios") && !EndsWith(c, "votos")
    ensures ReplaceAll(ReplaceAll("votos_" + (c + "_municipios"), "votos_", ""), "_municipios", "") == c
  {
    var rest := c + "_municipios";
    NoVotesPrefixIn(c);
    ReplaceLeading("votos_", rest);
    ReplaceSuffixMunicipios(c);
  }

  /** The per-municipality votes file of any city is recognised as such. */
  lemma MunicipiosFileDetected(city: string)
    ensures IsMunicipios(Some("votos_" + city + "_municipios"))
  {
    var muni := "votos_" + Lower(city) + "_municipios";
    VotesStemsLower(city);
    assert muni[|muni| - 11..] == "_municipios";
    assert muni[|muni| - 10..] == "_municipios"[1..] == "municipios";
    assert OccursAt(muni, "municipios", |muni| - 10);
  }

  /** The plain votes file of a city whose lower-cased name does not mention `municipios` is not taken for the per-municipality one. */
  lemma PlainFileNotMunicipios(city: string)
    requires !Contains(Lower(city), "municipios")
    ensures !IsMunicipios(Some("votos_" + city))
  {
    VotesStemsLower(city);
    NoMunicipiosAfterPrefix(Lower(city));
  }

  /** `municipios` cannot straddle the `_` of `votos_`, so it occurs in `votos_<c>` only when it occurs in `c`. */
  lemma NoMunicipiosAfterPrefix(c: string)
    requires !Contains(c, "municipios")
    ensures !Contains("votos_" + c, "municipios")
  {
    var plain := "votos_" + c;
    forall j | 0 <= j <= |plain| - 10 ensures !OccursAt(plain, "municipios", j) {
      if j < 6 {
        assert plain[j..j + 10][5 - j] == plain[5];
      } else {
        assert plain[j..j + 10] == c[j - 6..j + 4];
        assert !OccursAt(c, "municipios", j - 6);
      }
    }
  }

  /**
   * With the votes file `votos_<city>`, a layer whose lower-cased stem
   * mentions the lower-cased city is drawn, and a layer with one of the known
   * prefixes is drawn exactly when its stem or file name mentions the city.
   */
  lemma CityLayerDrawn(city: string, layer: LayerFile)
    requires !Contains(Lower(city), "votos_") && !Contains(Lower(city), "_municipios")
    ensures Contains(Lower(layer.stem), Lower(city)) ==> KeepLayer(BaseIdentifier(Some("votos_" + city)), layer)
    ensures city != [] && HasKnownPrefix(Lower(layer.stem)) ==>
      (KeepLayer(BaseIdentifier(Some("votos_" + city)), layer) <==>
        (Contains(Lower(layer.stem), Lower(city)) || Contains(Lower(layer.filename), Lower(city))))
  {
    PlainFileBase(city);
  }

  // ---------------------------------------------------------------- is_municipios

  /** `"municipios" in votos_file.stem.lower()`, false without a votes file. */
  predicate IsMunicipios(votesStem: Option<string>) {
    votesStem.Some? && Contains(Lower(votesStem.value), "municipios")
  }

  // ---------------------------------------------------------------- format_number

  /** Digits grouped in threes from the right, the groups separated by '.'. */
  function Group3(d: string): string
    decreases |d|
  {
    if |d| <= 3 then d else Group3(d[..|d| - 3]) + "." + d[|d| - 3..]
  }

  predicate AllDigits(d: string) {
    forall i :: 0 <= i < |d| ==> IsDigit(d[i])
  }

  /** A dot at exactly every fourth position counted from the right end. */
  predicate DotsEveryFour(r: string) {
    forall i :: 0 <= i < |r| ==> (r[i] == '.' <==> (|r| - i) % 4 == 0)
  }

  lemma AllDigitsPrefix(d: string, n: nat)
    requires AllDigits(d) && n <= |d|
    ensures AllDigits(d[..n])
  {
    forall i | 0 <= i < n ensures IsDigit(d[..n][i]) {
      assert d[..n][i] == d[i];
    }
  }

  lemma NoDotInDigits(d: string)
    requires AllDigits(d)
    ensures '.' !in d
  {
    forall i | 0 <= i < |d| ensures d[i] != '.' {
      assert IsDigit(d[i]);
    }
  }

  /** The grouped text: digits and dots only, a dot every fourth place from the right, never a leading dot. */
  lemma {:induction false} Group3Shape(d: string)
    requires d != [] && AllDigits(d)
    ensures DotsEveryFour(Group3(d)) && |Group3(d)| % 4 != 0
    ensures forall i :: 0 <= i < |Group3(d)| ==> Group3(d)[i] == '.' || IsDigit(Group3(d)[i])
    decreases |d|
  {
    if |d| <= 3 {
      forall i | 0 <= i < |d| ensures d[i] != '.' && (|d| - i) % 4 != 0 {
        assert IsDigit(d[i]);
      }
    } else {
      var h := d[..|d| - 3];
      AllDigitsPrefix(d, |d| - 3);
      Group3Shape(h);
      var t := d[|d| - 3..];
      assert AllDigits(t) by {
        forall i | 0 <= i < 3 ensures IsDigit(t[i]) {
          assert t[i] == d[|d| - 3 + i];
        }
      }
      GroupAppend(Group3(h), t);
    }
  }

  /** One more group of three digits after a well-grouped head keeps the text well grouped. */
  lemma GroupAppend(head: string, t: string)
    requires DotsEveryFour(head) && |head| % 4 != 0
    requires forall i :: 0 <= i < |head| ==> head[i] == '.' || IsDigit(head[i])
    requires |t| == 3 && AllDigits(t)
    ensures var r := head + "." + t;
      && DotsEveryFour(r) && |r| % 4 != 0
      && forall i :: 0 <= i < |r| ==> r[i] == '.' || IsDigit(r[i])
  {
    var r := head + "." + t;
    forall i | 0 <= i < |r| ensures (r[i] == '.' <==> (|r| - i) % 4 == 0) && (r[i] == '.' || IsDigit(r[i])) {
      GroupAppendAt(head, t, i);
    }
  }

  /** The position-wise step of `GroupAppend`. */
  lemma GroupAppendAt(head: string, t: string, i: nat)
    requires DotsEveryFour(head) && |head| % 4 != 0
    requires forall k :: 0 <= k < |head| ==> head[k] == '.' || IsDigit(head[k])
    requires |t| == 3 && AllDigits(t)
    requires i < |head| + 4
    ensures var r := head + "." + t;
      (r[i] == '.' <==> (|r| - i) % 4 == 0) && (r[i] == '.' || IsDigit(r[i]))
  {
    var r := head + "." + t;
    if i < |head| {
      assert r[i] == head[i] && (|r| - i) % 4 == (|head| - i) % 4;
    } else if i > |head| {
      assert r[i] == t[i - |head| - 1];
    }
  }


  /** Deleting the separators gives the digits back. */
  lemma {:induction false} Group3RoundTrip(d: string)
    requires AllDigits(d)
    ensures RemoveChar(Group3(d), '.') == d
    decreases |d|
  {
    if |d| <= 3 {
      NoDotInDigits(d);
      Schema.RemoveCharAbsent(d, '.');
    } else {
      var head := d[..|d| - 3];
      var tail := d[|d| - 3..];
      AllDigitsPrefix(d, |d| - 3);
      NoDotInDigits(tail);
      var g := Group3(head);
      assert Group3(d) == g + "." + tail;
      Group3RoundTrip(head);
      RemoveDotJoin(g, tail);
      assert head + tail == d;
    }
  }

  lemma {:induction false} RemoveDotJoin(g: string, tail: string)
    requires '.' !in tail
    ensures RemoveChar(g + "." + tail, '.') == RemoveChar(g, '.') + tail
  {
    var s := g + "." + tail;
    if g == [] {
      assert s[0] == '.' && s[1..] == tail;
      Schema.RemoveCharDropped(s, '.');
      Schema.RemoveCharAbsent(tail, '.');
    } else {
      RemoveDotJoin(g[1..], tail);
      assert s[0] == g[0] && s[1..] == g[1..] + "." + tail;
      if g[0] == '.' {
        Schema.RemoveCharDropped(s, '.');
        Schema.RemoveCharDropped(g, '.');
      } else {
        Schema.RemoveCharKept(s, '.');
        Schema.RemoveCharKept(g, '.');
        assert [g[0]] + (RemoveChar(g[1..], '.') + tail) == ([g[0]] + RemoveChar(g[1..], '.')) + tail;
      }
    }
  }

  /**
   * `f"{n:,}".replace(",", ".")`: thousands separated by dots. Deleting the
   * dots gives back the plain decimal `str(n)`.
   */
  function FormatNumber(n: int): (r: string)
    ensures RemoveChar(r, '.') == IntText(n)
  {
    if n < 0 then
      var g := Group3(NatText(-n));
      Group3RoundTrip(NatText(-n));
      Schema.RemoveCharAppend("-", g, '.');
      Schema.RemoveCharAbsent("-", '.');
      "-" + g
    else
      Group3RoundTrip(NatText(n));
      Group3(NatText(n))
  }

  // ---------------------------------------------------------------- vote-range filter

  /** Python's `int()` of a float: truncation toward zero. */
  function Trunc(x: real): (r: int)
    ensures x >= 0.0 ==> r as real <= x < r as real + 1.0
    ensures x < 0.0 ==> r as real - 1.0 < x <= r as real
  {
    if x >= 0.0 then x.Floor else -((-x).Floor)
  }

  /** The `qt_votos` column of a table, as numbers. */
  function Qts(t: Table): (r: seq<real>)
    ensures |r| == |t.rows| && forall i :: 0 <= i < |t.rows| ==> r[i] == Charts.Votes(t.rows[i])
  {
    seq(|t.rows|, i requires 0 <= i < |t.rows| => Charts.Votes(t.rows[i]))
  }

  /** The slider only appears when the table is non-empty, has votes, and its truncated minimum is below its truncated maximum. */
  predicate RangeApplies(t: Table) {
    t.rows != [] && QtVotos in t.columns && Trunc(MinOf(Qts(t))) < Trunc(MaxOf(Qts(t)))
  }

  function Between(lo: int, hi: int): Cells -> bool {
    row => lo as real <= Charts.Votes(row) <= hi as real
  }

  /** The vote-range filter with the bounds `lo`, `hi` the two number inputs return. */
  function VoteRangeFilter(t: Table, lo: int, hi: int): (r: Table)
    ensures r.columns == t.columns
    ensures !RangeApplies(t) ==> r == t
  {
    if RangeApplies(t) then Table(t.columns, Filter(t.rows, Between(lo, hi))) else t
  }

  /**
   * When the slider is shown, the filter keeps exactly the rows whose vote
   * count lies in `[lo, hi]`, in their order.
   */
  lemma VoteRangeKeepsExactly(t: Table, lo: int, hi: int)
    requires RangeApplies(t)
    ensures var r := VoteRangeFilter(t, lo, hi).rows;
      && (forall k :: 0 <= k < |r| ==> lo as real <= Charts.Votes(r[k]) <= hi as real)
      && (forall i :: 0 <= i < |t.rows| && lo as real <= Charts.Votes(t.rows[i]) <= hi as real ==> t.rows[i] in r)
      && exists idx: seq<nat> :: |idx| == |r| && Increasing(idx)
           && forall k :: 0 <= k < |idx| ==> idx[k] < |t.rows| && r[k] == t.rows[idx[k]]
  {
    assert VoteRangeFilter(t, lo, hi).rows == Filter(t.rows, Between(lo, hi));
    FilterKeepsExactly(t.rows, Between(lo, hi));
  }

  /**
   * With whole vote counts, the range the widgets start with (the truncated
   * minimum and maximum) drops nothing.
   */
  lemma DefaultRangeKeepsAll(t: Table)
    requires t.rows != [] && QtVotos in t.columns
    requires forall i :: 0 <= i < |t.rows| ==> Charts.Votes(t.rows[i]) == Charts.Votes(t.rows[i]).Floor as real
    ensures VoteRangeFilter(t, Trunc(MinOf(Qts(t))), Trunc(MaxOf(Qts(t)))) == t
  {
    var qs := Qts(t);
    var lo, hi := Trunc(MinOf(qs)), Trunc(MaxOf(qs));
    assert lo as real == MinOf(qs) && hi as real == MaxOf(qs) by {
      var a :| 0 <= a < |qs| && qs[a] == MinOf(qs);
      var b :| 0 <= b < |qs| && qs[b] == MaxOf(qs);
      IntegralTrunc(qs[a]);
      IntegralTrunc(qs[b]);
    }
    FilterAll(t.rows, Between(lo, hi));
  }

  /** `math.ceil` of a number. */
  function Ceil(x: real): (r: int)
    ensures r as real - 1.0 < x <= r as real
  {
    -((-x).Floor)
  }

  /** Two rows whose vote counts are 1.0 and 3.5 (`safe_number("3,5")` is 3.5). */
  const FractionRows: seq<Cells> := [map[QtVotos := Float(1.0)], map[QtVotos := Float(3.5)]]

  /**
   * The widgets are bounded by `int(min)` and `int(max)`: for counts 1.0 and
   * 3.5 the slider is shown with the bounds 1 and 3, and every range the
   * widgets allow drops the 3.5 row, so it can never be displayed.
   */
  lemma FractionalMaxUnreachable(lo: int, hi: int)
    requires hi <= 3
    ensures var t := Table([QtVotos], FractionRows);
      && Trunc(MinOf(Qts(t))) == 1 && Trunc(MaxOf(Qts(t))) == 3 && RangeApplies(t)
      && FractionRows[1] !in VoteRangeFilter(t, lo, hi).rows
  {
    var t := Table([QtVotos], FractionRows);
    var qs := Qts(t);
    assert qs == [1.0, 3.5] by {
      assert Charts.Votes(FractionRows[0]) == 1.0 && Charts.Votes(FractionRows[1]) == 3.5;
    }
    assert MinOf(qs) == 1.0 && MaxOf(qs) == 3.5;
    assert Trunc(3.5) == 3 by { assert (3.5).Floor == 3; }
    var r := Filter(t.rows, Between(lo, hi));
    FilterSelects(t.rows, Between(lo, hi));
    forall k | 0 <= k < |r| ensures r[k] != FractionRows[1] {
      assert Charts.Votes(r[k]) <= hi as real;
    }
  }

  /**
   * Bounding the widgets by the floor of the smallest count and the ceiling of
   * the largest makes their initial range keep every row, whatever the counts.
   */
  lemma WideDefaultRangeKeepsAll(t: Table)
    requires t.rows != []
    ensures VoteRangeFilter(t, MinOf(Qts(t)).Floor, Ceil(MaxOf(Qts(t)))) == t
  {
    var qs := Qts(t);
    var lo, hi := MinOf(qs).Floor, Ceil(MaxOf(qs));
    forall i | 0 <= i < |t.rows| ensures Between(lo, hi)(t.rows[i]) {
      assert Charts.Votes(t.rows[i]) == qs[i];
    }
    FilterAll(t.rows, Between(lo, hi));
  }

  lemma IntegralTrunc(x: real)
    requires x == x.Floor as real
    ensures Trunc(x) as real == x
  {
    if x < 0.0 {
      assert (-x).Floor == -(x.Floor);
    }
  }

  // ---------------------------------------------------------------- polygon selection

  /**
   * Whether the page stores the last drawing as the selection: a dict whose
   * geometry is set and whose `str(type).lower()` is polygon or multipolygon.
   * A geometry that is set but is not a dict raises.
   */
  function AcceptSelection(last: Value): (r: Result<bool>)
    ensures !last.Dict? || !Truthy(Get(last.entries, "geometry")) ==> r == Ok(false)
    ensures r.Raised? <==> last.Dict? && Truthy(Get(last.entries, "geometry")) && !Get(last.entries, "geometry").Dict?
    ensures r == Ok(true) ==> Analytics.IsPolygonType(Lower(Render(Get(Get(last.entries, "geometry").entries, "type"))))
  {
    if !last.Dict? then Ok(false)
    else
      var geom := Get(last.entries, "geometry");
      if !Truthy(geom) then Ok(false)
      else if !geom.Dict? then Raised
      else Ok(Analytics.IsPolygonType(Lower(Render(Get(geom.entries, "type")))))
  }

  /** `str(v).lower()` of a value that is not a string is never a polygon type name. */
  lemma RenderIsNoPolygonName(v: Value)
    requires !v.Str?
    ensures !Analytics.IsPolygonType(Lower(Render(v)))
  {
    var s := Render(v);
    RenderFirstChar(v);
    assert Lower(s)[0] == LowerChar(s[0]);
  }

  /** `str(v)` of a value that is not a string starts with a sign, a digit, a bracket or `N`, `T`, `F`. */
  lemma RenderFirstChar(v: Value)
    requires !v.Str?
    ensures Render(v) != [] && Render(v)[0] in "-0123456789[{NTF"
  {
    match v
    case Null =>
    case Bool(b) =>
    case Int(i) =>
      IntTextFirst(i);
      NumberTextFirst(IntText(i));
    case Float(x) =>
      NumberTextFirst(FloatText(x));
    case List(items) =>
    case Dict(entries) =>
  }

  /** A sign or a digit is one of the first characters `RenderFirstChar` allows. */
  lemma NumberTextFirst(t: string)
    requires t != [] && (t[0] == '-' || IsDigit(t[0]))
    ensures t[0] in "-0123456789[{NTF"
  {
  }

  /** `str(i)` starts with its sign or a digit. */
  lemma IntTextFirst(i: int)
    ensures IntText(i)[0] == '-' || IsDigit(IntText(i)[0])
  {
    if i < 0 {
      assert IntText(i) == "-" + NatText(-i);
    }
  }

  /**
   * A drawing the page stores as the selection always passes the polygon-type
   * check of `filter_points_within_polygon`, so a stored selection is never
   * ignored for its type.
   */
  lemma StoredSelectionIsPolygon(last: Value)
    requires AcceptSelection(last) == Ok(true)
    ensures var geom := Or(Get(last.entries, "geometry"), EmptyDict);
      Analytics.GeometryType(geom).Some? && Analytics.IsPolygonType(Analytics.GeometryType(geom).value)
  {
    var geom := Get(last.entries, "geometry");
    var t := Get(geom.entries, "type");
    if !t.Str? {
      RenderIsNoPolygonName(t);
    }
  }

  // ---------------------------------------------------------------- pick_candidate

  /** A candidate found on disk: its folder name and its entry script. */
  datatype Candidate = Candidate(folder: string, entry: string)

  /** The label shown for a candidate: its folder name with `_` as spaces, stripped. */
  function CandidateLabel(folder: string): (r: string)
    ensures '_' !in r
    ensures r == [] || (!IsSpace(r[0]) && !IsSpace(r[|r| - 1]))
  {
    var spaced := ReplaceChar(folder, '_', ' ');
    assert '_' !in spaced;
    StripKeepsAbsent(spaced, '_');
    Strip(spaced)
  }

  /** `strip` adds no character: one absent from `s` is absent from `s.strip()`. */
  lemma StripKeepsAbsent(s: string, c: char)
    requires c !in s
    ensures c !in Strip(s)
  {
    StripIsSlice(s);
    var k := |s| - |TrimStart(s)|;
    forall i | 0 <= i < |Strip(s)| ensures Strip(s)[i] != c {
      assert Strip(s)[i] == s[k + i];
    }
  }

  lemma StripIsSlice(s: string)
    ensures var k := |s| - |TrimStart(s)|; k + |Strip(s)| <= |s| && Strip(s) == s[k..k + |Strip(s)|]
  {
  }

  /** The labels of the candidates, in order. */
  function Labels(cands: seq<Candidate>): (r: seq<string>)
    ensures |r| == |cands| && forall j :: 0 <= j < |cands| ==> r[j] == CandidateLabel(cands[j].folder)
  {
    seq(|cands|, j requires 0 <= j < |cands| => CandidateLabel(cands[j].folder))
  }

  /** The first position holding `x`, or `|xs|`. */
  function FirstIndex(xs: seq<string>, x: string): (r: nat)
    ensures r <= |xs|
    ensures r < |xs| ==> xs[r] == x
    ensures forall j :: 0 <= j < r ==> xs[j] != x
  {
    if xs == [] then 0
    else if xs[0] == x then 0
    else 1 + FirstIndex(xs[1..], x)
  }

  /** The position `pick_candidate` returns: the first one labelled `chosen`, else the first. */
  function Picked(cands: seq<Candidate>, chosen: string): nat {
    var p := FirstIndex(Labels(cands), chosen);
    if p < |cands| then p else 0
  }

  /** The `(label, candidate)` pairs `pick_candidate` builds first. */
  method LabelCandidates(cands: seq<Candidate>) returns (items: seq<(string, Candidate)>)
    ensures |items| == |cands|
    ensures forall j :: 0 <= j < |cands| ==> items[j].0 == Labels(cands)[j] && items[j].1 == cands[j]
  {
    items := [];
    var i := 0;
    while i < |cands|
      invariant 0 <= i <= |cands| && |items| == i
      invariant forall j :: 0 <= j < i ==> items[j].0 == Labels(cands)[j] && items[j].1 == cands[j]
    {
      items := items + [(CandidateLabel(cands[i].folder), cands[i])];
      i := i + 1;
    }
  }

  /**
   * `pick_candidate` with the label the select box returned: the first
   * candidate with that label, the first candidate when none has it, `None`
   * when there are no candidates.
   */
  method PickCandidate(cands: seq<Candidate>, chosen: string) returns (r: Option<Candidate>)
    ensures r.None? <==> cands == []
    ensures r.Some? ==> Picked(cands, chosen) < |cands| && r.value == cands[Picked(cands, chosen)]
  {
    if cands == [] {
      return None;
    }
    ghost var labels := Labels(cands);
    var items := LabelCandidates(cands);
    var i := 0;
    while i < |items|
      invariant 0 <= i <= |items|
      invariant chosen !in labels[..i]
    {
      assert items[i].0 == labels[i];
      assert labels[..i + 1] == labels[..i] + [labels[i]];
      if items[i].0 == chosen {
        FirstIndexIs(labels, chosen, i);
        return Some(items[i].1);
      }
      i := i + 1;
    }
    assert labels[..i] == labels;
    FirstIndexIs(labels, chosen, |labels|);
    return Some(items[0].1);
  }

  /** `FirstIndex` is pinned down by its two properties. */
  lemma FirstIndexIs(xs: seq<string>, x: string, i: nat)
    requires i <= |xs| && (i < |xs| ==> xs[i] == x)
    requires x !in xs[..i]
    ensures FirstIndex(xs, x) == i
  {
  }

  /** The select box only offers existing labels, so the candidate picked carries the chosen label and comes no later than any other with it. */
  lemma PickHonoursChoice(cands: seq<Candidate>, k: nat)
    requires k < |cands|
    ensures var chosen := CandidateLabel(cands[k].folder);
      Picked(cands, chosen) <= k && CandidateLabel(cands[Picked(cands, chosen)].folder) == chosen
  {
    var labels := Labels(cands);
    assert labels[k] == CandidateLabel(cands[k].folder);
  }
}
