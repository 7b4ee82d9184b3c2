/**
 * The data side of the dashboard's charts (`localiza/charts.py`): vote totals
 * per label, ranked and cut to the top N, and the number of points per vote
 * band. The chart encoding itself is not part of this model.
 */
module Charts {
  import opened PyText
  import opened PyValue
  import opened Seqs
  import opened Frame

  /** A row's votes as the charts add them up: a missing cell counts as 0. */
  function Votes(row: Cells): (r: real)
    ensures Cell(row, QtVotos) == Null ==> r == 0.0
    ensures Cell(row, QtVotos).Float? ==> r == Cell(row, QtVotos).x
  {
    var v := Cell(row, QtVotos);
    if IsNumber(v) then NumberOf(v) else 0.0
  }

  // ---------------------------------------------------------------- groupby(label)["qt_votos"].sum()

  type Total = (Value, real)
  type Totals = seq<Total>

  /** Add one row's votes to its label's total, opening a new group for a label not seen before. */
  function AddVotes(g: Totals, name: Value, v: real): (r: Totals)
    ensures |r| == |g| || r == g + [(name, v)]
  {
    var i := KeyIndex(g, name);
    if i < |g| then g[i := (name, g[i].1 + v)] else g + [(name, v)]
  }

  /** The groups of the rows by their `key` cell with their vote totals, in order of first appearance. */
  function GroupSums(rows: seq<Cells>, key: Col): Totals {
    if rows == [] then []
    else
      var n := |rows| - 1;
      AddVotes(GroupSums(rows[..n], key), Cell(rows[n], key), Votes(rows[n]))
  }

  /** The reference total: the votes of the rows whose `key` cell is `label`, added up. */
  function SumWhere(rows: seq<Cells>, key: Col, name: Value): real {
    if rows == [] then 0.0
    else
      var n := |rows| - 1;
      SumWhere(rows[..n], key, name) + (if Cell(rows[n], key) == name then Votes(rows[n]) else 0.0)
  }

  predicate Occurs(rows: seq<Cells>, key: Col, name: Value) {
    exists i :: 0 <= i < |rows| && Cell(rows[i], key) == name
  }

  predicate DistinctLabels(g: Totals) {
    forall i, j :: 0 <= i < j < |g| ==> g[i].0 != g[j].0
  }

  /** A label that no row carries adds up to nothing. */
  lemma {:induction false} SumWhereAbsent(rows: seq<Cells>, key: Col, name: Value)
    requires !Occurs(rows, key, name)
    ensures SumWhere(rows, key, name) == 0.0
  {
    if rows != [] {
      var n := |rows| - 1;
      assert !Occurs(rows[..n], key, name) by {
        forall i | 0 <= i < n ensures Cell(rows[..n][i], key) != name {
          assert rows[..n][i] == rows[i];
        }
      }
      SumWhereAbsent(rows[..n], key, name);
    }
  }

  /** What adding one row does to the groups: labels keep their places, and only `name`'s total grows. */
  lemma AddVotesSpec(g: Totals, name: Value, v: real)
    ensures var r := AddVotes(g, name, v); var at := KeyIndex(g, name);
      && |r| == (if at < |g| then |g| else |g| + 1)
      && (forall j :: 0 <= j < |g| ==> r[j].0 == g[j].0)
      && (at == |g| ==> r[at] == (name, v))
      && (at < |g| ==> r == g[at := (name, g[at].1 + v)])
      && (DistinctLabels(g) ==> DistinctLabels(r))
  {
  }

  /** Every label appears in one group only. */
  lemma {:induction false} GroupSumsDistinct(rows: seq<Cells>, key: Col)
    ensures DistinctLabels(GroupSums(rows, key))
  {
    if rows != [] {
      var n := |rows| - 1;
      GroupSumsDistinct(rows[..n], key);
      AddVotesSpec(GroupSums(rows[..n], key), Cell(rows[n], key), Votes(rows[n]));
    }
  }

  /** Every row's label has a group. */
  lemma {:induction false} GroupSumsCovers(rows: seq<Cells>, key: Col, i: nat)
    requires i < |rows|
    ensures KeyIndex(GroupSums(rows, key), Cell(rows[i], key)) < |GroupSums(rows, key)|
  {
    var n := |rows| - 1;
    var init := rows[..n];
    var g0 := GroupSums(init, key);
    var name := Cell(rows[n], key);
    var g := GroupSums(rows, key);
    AddVotesSpec(g0, name, Votes(rows[n]));
    if i < n {
      GroupSumsCovers(init, key, i);
      assert init[i] == rows[i];
      var k := KeyIndex(g0, Cell(rows[i], key));
      KeyIndexAt(g, Cell(rows[i], key), k);
    } else {
      KeyIndexAt(g, name, KeyIndex(g0, name));
    }
  }

  lemma KeyIndexAt(g: Totals, name: Value, k: nat)
    requires k < |g| && g[k].0 == name
    ensures KeyIndex(g, name) <= k
  {
  }

  /** Each group's label occurs in the rows and its total is the sum of the votes of the rows carrying that label. */
  lemma {:induction false} GroupSumsAt(rows: seq<Cells>, key: Col, j: nat)
    requires j < |GroupSums(rows, key)|
    ensures var g := GroupSums(rows, key);
      Occurs(rows, key, g[j].0) && g[j].1 == SumWhere(rows, key, g[j].0)
  {
    var n := |rows| - 1;
    var init := rows[..n];
    var g0 := GroupSums(init, key);
    var name, v := Cell(rows[n], key), Votes(rows[n]);
    var g := GroupSums(rows, key);
    var at := KeyIndex(g0, name);
    AddVotesSpec(g0, name, v);
    var l := g[j].0;
    assert SumWhere(rows, key, l) == SumWhere(init, key, l) + (if name == l then v else 0.0);
    if j < |g0| {
      GroupSumsAt(init, key, j);
      var i :| 0 <= i < n && Cell(init[i], key) == l;
      assert init[i] == rows[i];
      if j != at && l == name {
        GroupSumsDistinct(init, key);
      }
    } else {
      assert Cell(rows[n], key) == l;
      assert !Occurs(init, key, name) by {
        if Occurs(init, key, name) {
          var i :| 0 <= i < n && Cell(init[i], key) == name;
          GroupSumsCovers(init, key, i);
        }
      }
      SumWhereAbsent(init, key, name);
    }
  }

  // ---------------------------------------------------------------- sort_values(ascending=False)

  predicate Descending(s: Totals) {
    forall i, j :: 0 <= i < j < |s| ==> s[i].1 >= s[j].1
  }

  /** Insert `x` into a ranking after every group with a larger total and ahead of those with an equal one. */
  function Insert(x: Total, s: Totals): (r: Totals)
    ensures multiset(r) == multiset(s) + multiset{x}
  {
    if s == [] then [x]
    else
      assert s == [s[0]] + s[1..];
      if s[0].1 > x.1 then [s[0]] + Insert(x, s[1..])
    else [x] + s
  }

  /**
   * The groups ordered by descending total. Each group is inserted ahead of
   * the later groups with the same total, so ties keep the order of `g`.
   */
  function SortDesc(g: Totals): (r: Totals)
    ensures multiset(r) == multiset(g)
  {
    if g == [] then [] else assert g == [g[0]] + g[1..]; Insert(g[0], SortDesc(g[1..]))
  }

  lemma {:induction false} InsertDescending(x: Total, s: Totals)
    requires Descending(s)
    ensures Descending(Insert(x, s))
  {
    if s != [] && s[0].1 > x.1 {
      var rest := Insert(x, s[1..]);
      InsertDescending(x, s[1..]);
      forall j | 0 <= j < |rest| ensures s[0].1 >= rest[j].1 {
        assert rest[j] in multiset(rest);
        InsertedBelow(x, s, rest[j]);
      }
      assert Insert(x, s) == [s[0]] + rest;
      ConsDescending(s[0], rest);
    }
  }

  /** A group totalling at least every group of a descending ranking can head it. */
  lemma ConsDescending(h: Total, rest: Totals)
    requires Descending(rest)
    requires forall j :: 0 <= j < |rest| ==> h.1 >= rest[j].1
    ensures Descending([h] + rest)
  {
    var r := [h] + rest;
    forall i, j | 0 <= i < j < |r| ensures r[i].1 >= r[j].1 {
      if i == 0 {
        assert r[j] == rest[j - 1];
      } else {
        assert r[i] == rest[i - 1] && r[j] == rest[j - 1];
      }
    }
  }

  /** Every group of `Insert(x, s[1..])` totals at most the head of a descending `s` that is at least `x`. */
  lemma InsertedBelow(x: Total, s: Totals, e: Total)
    requires Descending(s) && s != [] && s[0].1 >= x.1
    requires e in multiset(Insert(x, s[1..]))
    ensures s[0].1 >= e.1
  {
    if e != x {
      assert e in multiset(s[1..]);
      var m :| 0 <= m < |s[1..]| && s[1..][m] == e;
      assert s[1..][m] == s[m + 1];
    }
  }

  /**
   * Ties keep their order: when groups `i < j` of `g` have the same total,
   * `g[i]` comes before `g[j]` in the ranking.
   */
  lemma SortDescStable(g: Totals, i: nat, j: nat)
    requires i < j < |g| && g[i].1 == g[j].1
    ensures exists p, q :: 0 <= p < q < |SortDesc(g)| && SortDesc(g)[p] == g[i] && SortDesc(g)[q] == g[j]
  {
    var p, q := TiePositions(g, i, j);
  }

  /** The positions of `g[i]` and `g[j]` in the ranking, by induction on `g`. */
  lemma {:induction false} TiePositions(g: Totals, i: nat, j: nat) returns (p: nat, q: nat)
    requires i < j < |g| && g[i].1 == g[j].1
    ensures p < q < |SortDesc(g)| && SortDesc(g)[p] == g[i] && SortDesc(g)[q] == g[j]
    decreases |g|, 1
  {
    if i == 0 {
      p, q := HeadTiePositions(g, j);
    } else {
      p, q := TailTiePositions(g, i, j);
    }
  }

  /** `g[0]` is inserted ahead of a later group with the same total. */
  lemma HeadTiePositions(g: Totals, j: nat) returns (p: nat, q: nat)
    requires 0 < j < |g| && g[0].1 == g[j].1
    ensures p < q < |SortDesc(g)| && SortDesc(g)[p] == g[0] && SortDesc(g)[q] == g[j]
  {
    var k := SortDescSplit(g);
    assert g[1..][j - 1] == g[j];
    var q' := RankPosition(g[1..], j - 1);
    p, q := TieAfterInserted(g[0], SortDesc(g[1..]), SortDesc(g), k, q');
  }

  /** Two tied groups after the head keep their order in the tail's ranking, and inserting `g[0]` keeps it. */
  lemma TailTiePositions(g: Totals, i: nat, j: nat) returns (p: nat, q: nat)
    requires 0 < i < j < |g| && g[i].1 == g[j].1
    ensures p < q < |SortDesc(g)| && SortDesc(g)[p] == g[i] && SortDesc(g)[q] == g[j]
    decreases |g|, 0
  {
    var k := SortDescSplit(g);
    assert g[1..][i - 1] == g[i] && g[1..][j - 1] == g[j];
    var p', q' := TiePositions(g[1..], i - 1, j - 1);
    p, q := InsertKeepsOrder(g[0], SortDesc(g[1..]), SortDesc(g), k, p', q');
  }

  /** Where group `m` of `g` ends up in the ranking. */
  lemma {:induction false} RankPosition(g: Totals, m: nat) returns (q: nat)
    requires m < |g|
    ensures q < |SortDesc(g)| && SortDesc(g)[q] == g[m]
  {
    var k := SortDescSplit(g);
    if m == 0 {
      q := k;
    } else {
      assert g[1..][m - 1] == g[m];
      var q' := RankPosition(g[1..], m - 1);
      q := if q' < k then q' else q' + 1;
    }
  }

  /** The ranking of `g` is the ranking of its tail with `g[0]` inserted. */
  lemma SortDescSplit(g: Totals) returns (k: nat)
    requires g != []
    ensures SplitAt(g[0], SortDesc(g[1..]), SortDesc(g), k)
  {
    k := InsertSplit(g[0], SortDesc(g[1..]));
  }

  /**
   * `r` is `s` with `x` inserted at `k`: `s[..k] + [x] + s[k..]`, where the
   * `k` groups ahead of `x` all total more than it.
   */
  predicate SplitAt(x: Total, s: Totals, r: Totals, k: nat) {
    && k <= |s| && |r| == |s| + 1 && r[k] == x
    && (forall m :: 0 <= m < k ==> r[m] == s[m] && s[m].1 > x.1)
    && (forall m :: k <= m < |s| ==> r[m + 1] == s[m])
  }

  /** `Insert` puts `x` right after the groups that total more than it. */
  lemma {:induction false} InsertSplit(x: Total, s: Totals) returns (k: nat)
    ensures SplitAt(x, s, Insert(x, s), k)
  {
    if s == [] {
      k := 0;
    } else if s[0].1 > x.1 {
      var k' := InsertSplit(x, s[1..]);
      k := k' + 1;
      assert Insert(x, s) == [s[0]] + Insert(x, s[1..]);
      SplitCons(x, s, Insert(x, s[1..]), k');
    } else {
      k := 0;
      assert Insert(x, s) == [x] + s;
    }
  }

  lemma SplitCons(x: Total, s: Totals, t: Totals, k: nat)
    requires s != [] && s[0].1 > x.1 && SplitAt(x, s[1..], t, k)
    ensures SplitAt(x, s, [s[0]] + t, k + 1)
  {
    var r := [s[0]] + t;
    forall m | 0 <= m < k + 1 ensures r[m] == s[m] && s[m].1 > x.1 {
      if m > 0 {
        assert s[1..][m - 1] == s[m];
      }
    }
    forall m | k + 1 <= m < |s| ensures r[m + 1] == s[m] {
      assert s[1..][m - 1] == s[m];
    }
  }

  /** A group with the same total as the inserted one stays behind it. */
  lemma TieAfterInserted(x: Total, s: Totals, r: Totals, k: nat, q: nat) returns (p': nat, q': nat)
    requires SplitAt(x, s, r, k) && q < |s| && s[q].1 == x.1
    ensures p' < q' < |r| && r[p'] == x && r[q'] == s[q]
  {
    assert q >= k;
    p', q' := k, q + 1;
  }

  /** Insertion keeps the relative order of the groups already there. */
  lemma InsertKeepsOrder(x: Total, s: Totals, r: Totals, k: nat, p: nat, q: nat) returns (p': nat, q': nat)
    requires SplitAt(x, s, r, k) && p < q < |s|
    ensures p' < q' < |r| && r[p'] == s[p] && r[q'] == s[q]
  {
    p', q' := if p < k then p else p + 1, if q < k then q else q + 1;
  }

  /** The ranking is in descending order of total and is a permutation of the groups. */
  lemma {:induction false} SortDescSpec(g: Totals)
    ensures Descending(SortDesc(g)) && multiset(SortDesc(g)) == multiset(g)
  {
    if g != [] {
      SortDescSpec(g[1..]);
      InsertDescending(g[0], SortDesc(g[1..]));
    }
  }

  // ---------------------------------------------------------------- blank labels and head(n)

  /** `label.astype(str).str.strip() != ""` */
  predicate NonBlank(t: Total) {
    Strip(Render(t.0)) != ""
  }

  /** `head(n)`: the first `n` rows; a negative `n` drops the last `-n` rows. */
  function Head<A>(s: seq<A>, n: int): (r: seq<A>)
    ensures r <= s
    ensures n >= 0 ==> |r| == if n < |s| then n else |s|
  {
    if n >= 0 then (if n < |s| then s[..n] else s)
    else if |s| + n > 0 then s[..|s| + n] else []
  }

  /**
   * The shared aggregation of `chart_top_locais` and `chart_top_bairros`: totals
   * by `key`, ranked, blank labels removed, the first `n` kept, `None` when
   * nothing is left. A missing label or `qt_votos` column raises.
   */
  function TopGroups(t: Table, key: Col, n: int): (r: Result<Option<Totals>>)
    ensures r.Ok? <==> key in t.columns && QtVotos in t.columns
  {
    if key !in t.columns || QtVotos !in t.columns then Raised
    else
      var shown := Head(Ranking(t.rows, key), n);
      Ok(if shown == [] then None else Some(shown))
  }

  /** The non-blank groups, best first. */
  function Ranking(rows: seq<Cells>, key: Col): Totals {
    Filter(SortDesc(GroupSums(rows, key)), NonBlank)
  }

  /** What is shown is the start of the ranking. */
  lemma TopIsPrefix(t: Table, key: Col, n: int)
    requires TopGroups(t, key, n).Ok? && TopGroups(t, key, n).value.Some?
    ensures var s := TopGroups(t, key, n).value.value;
      |s| <= |Ranking(t.rows, key)| && s == Ranking(t.rows, key)[..|s|]
  {
  }

  /** `chart_top_locais` */
  function TopLocais(t: Table, n: int): (r: Result<Option<Totals>>)
    ensures r.Ok? <==> LocalVotacao in t.columns && QtVotos in t.columns
  {
    TopGroups(t, LocalVotacao, n)
  }

  /** The column `chart_top_bairros` groups by. */
  function BairroColumn(t: Table): (c: Col)
    ensures c == BairroDistrito <==> BairroDistrito in t.columns
  {
    if BairroDistrito in t.columns then BairroDistrito else Bairro
  }

  /** `chart_top_bairros`: it raises exactly when `qt_votos` is missing or neither neighbourhood column is there. */
  function TopBairros(t: Table, n: int): (r: Result<Option<Totals>>)
    ensures r.Ok? <==> QtVotos in t.columns && (BairroDistrito in t.columns || Bairro in t.columns)
  {
    TopGroups(t, BairroColumn(t), n)
  }

  /** A table as `load_votos_df` leaves it always ranks by `Bairro/Distrito`. */
  lemma TopBairrosOfLoadedTable(t: Table, n: int)
    requires BairroDistrito in t.columns && QtVotos in t.columns
    ensures TopBairros(t, n) == TopGroups(t, BairroDistrito, n) && TopBairros(t, n).Ok?
  {
  }

  /**
   * Every shown entry is a non-blank label of the table with its true vote
   * total, the entries are ranked by descending total, and there are at most
   * `n` of them.
   */
  lemma TopGroupsSound(t: Table, key: Col, n: int)
    requires TopGroups(t, key, n).Ok? && TopGroups(t, key, n).value.Some?
    ensures var s := TopGroups(t, key, n).value.value;
      && s != []
      && (n >= 0 ==> |s| <= n)
      && Descending(s)
      && (forall j :: 0 <= j < |s| ==> NonBlank(s[j]) && Occurs(t.rows, key, s[j].0) && s[j].1 == SumWhere(t.rows, key, s[j].0))
  {
    var s := TopGroups(t, key, n).value.value;
    var f := Ranking(t.rows, key);
    TopIsPrefix(t, key, n);
    RankingSound(t.rows, key);
    assert forall j :: 0 <= j < |s| ==> s[j] == f[j];
  }

  /** The ranking is best first, and each of its entries is a non-blank label of the rows with its total. */
  lemma RankingSound(rows: seq<Cells>, key: Col)
    ensures var f := Ranking(rows, key);
      && Descending(f)
      && (forall j :: 0 <= j < |f| ==> NonBlank(f[j]) && Occurs(rows, key, f[j].0) && f[j].1 == SumWhere(rows, key, f[j].0))
  {
    var g := GroupSums(rows, key);
    var ranked := SortDesc(g);
    var f := Filter(ranked, NonBlank);
    SortDescSpec(g);
    FilterSelects(ranked, NonBlank);
    var idx := KeptIndices(ranked, Keep(NonBlank));
    forall j | 0 <= j < |f| ensures NonBlank(f[j]) && Occurs(rows, key, f[j].0) && f[j].1 == SumWhere(rows, key, f[j].0) {
      assert f[j] == ranked[idx[j]];
      assert ranked[idx[j]] in multiset(g);
      var m :| 0 <= m < |g| && g[m] == ranked[idx[j]];
      GroupSumsAt(rows, key, m);
    }
    forall i, j | 0 <= i < j < |f| ensures f[i].1 >= f[j].1 {
      assert f[i] == ranked[idx[i]] && f[j] == ranked[idx[j]];
    }
  }

  /**
   * The shown entries really are the top: a non-blank label of the table that
   * was not shown has a total no larger than any shown one.
   */
  lemma TopGroupsComplete(t: Table, key: Col, n: int, name: Value)
    requires TopGroups(t, key, n).Ok? && TopGroups(t, key, n).value.Some?
    requires Occurs(t.rows, key, name) && Strip(Render(name)) != ""
    requires forall e :: e in TopGroups(t, key, n).value.value ==> e.0 != name
    ensures forall e :: e in TopGroups(t, key, n).value.value ==> e.1 >= SumWhere(t.rows, key, name)
  {
    var s := TopGroups(t, key, n).value.value;
    var f := Ranking(t.rows, key);
    var k := RankOf(t.rows, key, name);
    TopIsPrefix(t, key, n);
    assert forall m :: 0 <= m < |s| ==> s[m] in s && s[m] == f[m];
    assert |s| <= k;
    SortDescSpec(GroupSums(t.rows, key));
    forall j | 0 <= j < |s| ensures s[j].1 >= SumWhere(t.rows, key, name) {
      assert s[j] == f[j];
      FilterKeepsRanking(SortDesc(GroupSums(t.rows, key)), j, k);
    }
  }

  /** A non-blank label of the rows has a place in the ranking, with its total. */
  lemma RankOf(rows: seq<Cells>, key: Col, name: Value) returns (k: nat)
    requires Occurs(rows, key, name) && Strip(Render(name)) != ""
    ensures k < |Ranking(rows, key)| && Ranking(rows, key)[k] == (name, SumWhere(rows, key, name))
  {
    var g := GroupSums(rows, key);
    var ranked := SortDesc(g);
    SortDescSpec(g);
    var i0 :| 0 <= i0 < |rows| && Cell(rows[i0], key) == name;
    GroupSumsCovers(rows, key, i0);
    var at := KeyIndex(g, Cell(rows[i0], key));
    GroupSumsAt(rows, key, at);
    var e := g[at];
    assert e == (name, SumWhere(rows, key, name));
    assert e in multiset(ranked);
    var i :| 0 <= i < |ranked| && ranked[i] == e;
    var idx := KeptIndices(ranked, Keep(NonBlank));
    assert NonBlank(ranked[i]);
    FilterHas(ranked, NonBlank, i);
    k :| 0 <= k < |idx| && idx[k] == i;
    FilterAt(ranked, NonBlank, k);
  }

  /** Removing blank labels from a ranking leaves a ranking. */
  lemma FilterKeepsRanking(ranked: Totals, j: nat, k: nat)
    requires Descending(ranked) && j < k < |Filter(ranked, NonBlank)|
    ensures Filter(ranked, NonBlank)[j].1 >= Filter(ranked, NonBlank)[k].1
  {
    FilterSelects(ranked, NonBlank);
  }

  // ---------------------------------------------------------------- chart_hist_votos

  const Bins: seq<real> := [0.0, 10.0, 30.0, 60.0, 100.0, 200.0, 500.0, 1000.0, 999999.0]
  const BandLabels: seq<string> := ["0-10", "11-30", "31-60", "61-100", "101-200", "201-500", "501-1000", "1000+"]

  /**
   * `pd.cut(..., bins, include_lowest=True)` for one value: band `b` holds the
   * values in `(Bins[b], Bins[b + 1]]`, the first band also holds 0, and a
   * value outside `[0, 999999]` is in no band.
   */
  function Band(x: real): (r: Option<nat>)
    ensures r.Some? <==> Bins[0] <= x <= Bins[8]
    ensures r.Some? ==> r.value < 8 && x <= Bins[r.value + 1] && (Bins[r.value] < x || (r.value == 0 && x == Bins[0]))
  {
    if x < 0.0 || x > 999999.0 then None
    else if x <= 10.0 then Some(0)
    else if x <= 30.0 then Some(1)
    else if x <= 60.0 then Some(2)
    else if x <= 100.0 then Some(3)
    else if x <= 200.0 then Some(4)
    else if x <= 500.0 then Some(5)
    else if x <= 1000.0 then Some(6)
    else Some(7)
  }

  /** How many rows fall in band `b`. */
  function CountBand(rows: seq<Cells>, b: nat): nat {
    if rows == [] then 0
    else
      var n := |rows| - 1;
      CountBand(rows[..n], b) + (if Band(Votes(rows[n])) == Some(b) then 1 else 0)
  }

  /** `chart_hist_votos`'s table: one row per band label, in the fixed label order; `None` without a `qt_votos` column. */
  function Histogram(t: Table): (r: Option<seq<(string, nat)>>)
    ensures r.None? <==> QtVotos !in t.columns
    ensures r.Some? ==> |r.value| == |BandLabels| && forall b :: 0 <= b < |BandLabels| ==> r.value[b].0 == BandLabels[b]
  {
    if QtVotos !in t.columns then None
    else Some(seq(|BandLabels|, b requires 0 <= b < |BandLabels| => (BandLabels[b], CountBand(t.rows, b))))
  }

  /** How many rows have a vote count inside `[0, 999999]`. */
  function InRangeCount(rows: seq<Cells>): nat {
    if rows == [] then 0
    else
      var n := |rows| - 1;
      InRangeCount(rows[..n]) + (if 0.0 <= Votes(rows[n]) <= 999999.0 then 1 else 0)
  }

  function CountsTotal(h: seq<(string, nat)>): nat {
    if h == [] then 0 else CountsTotal(h[..|h| - 1]) + h[|h| - 1].1
  }

  /** The rows counted in the first `k` bands. */
  function BandTotal(rows: seq<Cells>, k: nat): nat {
    if k == 0 then 0 else BandTotal(rows, k - 1) + CountBand(rows, k - 1)
  }

  lemma {:induction false} BandTotalStep(rows: seq<Cells>, k: nat)
    requires rows != []
    ensures var n := |rows| - 1; var b := Band(Votes(rows[n]));
      BandTotal(rows, k) == BandTotal(rows[..n], k) + (if b.Some? && b.value < k then 1 else 0)
  {
    if k > 0 {
      BandTotalStep(rows, k - 1);
    }
  }

  lemma {:induction false} BandTotalNone(k: nat)
    ensures BandTotal([], k) == 0
  {
    if k > 0 {
      BandTotalNone(k - 1);
    }
  }

  lemma {:induction false} BandTotalInRange(rows: seq<Cells>)
    ensures BandTotal(rows, 8) == InRangeCount(rows)
  {
    if rows == [] {
      BandTotalNone(8);
    } else {
      BandTotalInRange(rows[..|rows| - 1]);
      BandTotalStep(rows, 8);
      var x := Votes(rows[|rows| - 1]);
      assert Band(x).Some? <==> 0.0 <= x <= 999999.0;
    }
  }

  /** The histogram counts every row whose vote count lies in `[0, 999999]` exactly once, and no other row. */
  lemma HistogramCountsInRangeRows(t: Table)
    requires QtVotos in t.columns
    ensures CountsTotal(Histogram(t).value) == InRangeCount(t.rows)
  {
    var h := Histogram(t).value;
    forall k | 0 <= k <= 8 ensures CountsTotal(h[..k]) == BandTotal(t.rows, k) {
      HistogramPrefix(t, h, k);
    }
    assert h[..8] == h;
    BandTotalInRange(t.rows);
  }

  lemma {:induction false} HistogramPrefix(t: Table, h: seq<(string, nat)>, k: nat)
    requires QtVotos in t.columns && h == Histogram(t).value && k <= 8
    ensures CountsTotal(h[..k]) == BandTotal(t.rows, k)
  {
    if k > 0 {
      HistogramPrefix(t, h, k - 1);
      assert h[..k][..k - 1] == h[..k - 1];
    }
  }
}
