/**
 * `localiza/schema.py`: the alias table, the text and number sanitisers, the
 * alias resolver, the latitude/longitude extraction, the feature and
 * collection normalisers, and the bounds of a feature collection.
 */
module Schema {
  import opened PyText
  import opened PyValue
  import opened Seqs

  // ---------------------------------------------------------------- aliases

  /** The canonical fields of a normalised record that are resolved through aliases. */
  datatype Field = Id | Nome | Municipio | Distrito | Endereco | Bairro | LocalVotacao | QtVotos

  /** The alias list of each canonical field, in priority order. */
  function Aliases(f: Field): (r: seq<string>)
    ensures r != []
  {
    match f
    case Id => ["id", "ID", "_id", "fid", "objectid", "OBJECTID"]
    case Nome => ["nome", "Nome", "Name", "NM_DISTRITO", "NM_DISTRIT", "NM_DIST", "NM", "NOME", "LABEL",
                  "label", "BAIRRO", "BAI_NM", "nome_proje", "LOCALIDADE", "BAIRRO_DISTRITO", "Bairro/Distrito"]
    case Municipio => ["municipio", "munic\U{ED}pio", "Municipio", "Munic\U{ED}pio", "MUNICIPIO", "Mun"]
    case Distrito => ["distrito", "Distrito", "nome_do_distrito", "DIST", "NM_DISTRITO", "NM_DISTR", "NM_DIST",
                      "BAIRRO_DISTRITO", "Bairro/Distrito"]
    case Endereco => ["Endere\U{E7}o", "Endereco", "endereco", "address", "logradouro", "LOGRADOURO"]
    case Bairro => ["Bairro", "bairro", "Bairro/Distrito", "bairro/distrito", "BAIRRO", "Distrito", "distrito"]
    case LocalVotacao => ["local_votacao", "local vota\U{E7}\U{E3}o", "local", "local_de_votacao", "LOCAL_VOT"]
    case QtVotos => ["qt_votos", "qtvotos", "votos", "qtde_votos", "quantidade_votos", "QT_VOTOS"]
  }

  const LatKeys: seq<string> := ["lat", "LAT", "latitude", "Latitude"]
  const LonKeys: seq<string> := ["lon", "LON", "longitude", "Longitude", "lng", "LNG"]

  // ---------------------------------------------------------------- sanitiser

  /** The spellings of a missing value that the sanitisers treat as empty. */
  predicate IsSentinel(s: string) {
    Lower(s) == "nan" || Lower(s) == "none" || Lower(s) == "null"
  }

  /** A sanitised text: no surrounding whitespace and never a missing-value spelling. */
  predicate Clean(s: string) {
    Strip(s) == s && !IsSentinel(s)
  }

  /**
   * `safe_text`: the stripped `str()` of the value, or "" when the value is
   * `None` or spells a missing value in any letter case.
   */
  function SafeText(v: Value): (r: string)
    ensures Clean(r)
    ensures r == "" || r == Strip(Render(v))
    ensures r == "" <==> v.Null? || Strip(Render(v)) == "" || IsSentinel(Strip(Render(v)))
  {
    if v.Null? then ""
    else
      var s := Strip(Render(v));
      StripIdempotent(Render(v));
      if IsSentinel(s) then "" else s
  }

  /** Sanitising an already sanitised string changes nothing. */
  lemma SafeTextIdempotent(v: Value)
    ensures SafeText(Str(SafeText(v))) == SafeText(v)
  {
  }

  /** Characters other than the two separators, in order. */
  function Unseparated(s: string): (r: string)
    ensures '.' !in r && ',' !in r
  {
    if s == [] then [] else (if s[0] == '.' || s[0] == ',' then [] else [s[0]]) + Unseparated(s[1..])
  }

  lemma UnseparatedAppend(a: string, b: string)
    ensures Unseparated(a + b) == Unseparated(a) + Unseparated(b)
  {
    if a != [] {
      assert (a + b)[0] == a[0] && (a + b)[1..] == a[1..] + b;
      UnseparatedAppend(a[1..], b);
      var h := if a[0] == '.' || a[0] == ',' then [] else [a[0]];
      assert Unseparated(a + b) == h + Unseparated(a[1..] + b);
      assert Unseparated(a) == h + Unseparated(a[1..]);
      assert h + (Unseparated(a[1..]) + Unseparated(b)) == (h + Unseparated(a[1..])) + Unseparated(b);
    } else {
      assert a + b == b;
    }
  }

  lemma UnseparatedRemove(s: string, c: char)
    requires c == '.' || c == ','
    ensures Unseparated(RemoveChar(s, c)) == Unseparated(s)
  {
    if s != [] {
      UnseparatedRemove(s[1..], c);
      UnseparatedAppend(if s[0] == c then [] else [s[0]], RemoveChar(s[1..], c));
    }
  }

  lemma UnseparatedReplace(s: string, c: char, d: char)
    requires (c == '.' || c == ',') && (d == '.' || d == ',')
    ensures Unseparated(ReplaceChar(s, c, d)) == Unseparated(s)
  {
    if s != [] {
      UnseparatedReplace(s[1..], c, d);
      UnseparatedAppend([if s[0] == c then d else s[0]], ReplaceChar(s[1..], c, d));
    }
  }

  lemma RemoveCharAppend(a: string, b: string, c: char)
    ensures RemoveChar(a + b, c) == RemoveChar(a, c) + RemoveChar(b, c)
  {
    if a != [] {
      assert (a + b)[0] == a[0] && (a + b)[1..] == a[1..] + b;
      RemoveCharAppend(a[1..], b, c);
      var h := if a[0] == c then [] else [a[0]];
      assert RemoveChar(a + b, c) == h + RemoveChar(a[1..] + b, c);
      assert RemoveChar(a, c) == h + RemoveChar(a[1..], c);
      Associative(h, RemoveChar(a[1..], c), RemoveChar(b, c));
    } else {
      assert a + b == b;
    }
  }

  lemma RemoveCharKept(s: string, c: char)
    requires s != [] && s[0] != c
    ensures RemoveChar(s, c) == [s[0]] + RemoveChar(s[1..], c)
  {
  }

  lemma RemoveCharDropped(s: string, c: char)
    requires s != [] && s[0] == c
    ensures RemoveChar(s, c) == RemoveChar(s[1..], c)
  {
  }

  lemma RemoveCharAbsent(s: string, c: char)
    requires c !in s
    ensures RemoveChar(s, c) == s
  {
    if s != [] {
      RemoveCharAbsent(s[1..], c);
    }
  }

  /** The index of the rightmost separator of a string that has one. */
  function LastSeparator(s: string): (j: nat)
    requires ',' in s || '.' in s
    ensures j < |s| && (s[j] == ',' || s[j] == '.')
    ensures forall i :: j < i < |s| ==> s[i] != ',' && s[i] != '.'
  {
    var c, d := RFind(s, ','), RFind(s, '.');
    if c > d then c else d
  }

  /**
   * Removing every `c` from `s` whose character at `j` is not `c` and whose
   * tail after `j` holds no `c` keeps `s[j..]` as the tail of the result.
   */
  lemma RemoveCharKeepsTail(s: string, c: char, j: nat)
    requires j < |s| && s[j] != c && c !in s[j + 1..]
    ensures |s| - j <= |RemoveChar(s, c)| && RemoveChar(s, c)[|RemoveChar(s, c)| - (|s| - j)..] == s[j..]
  {
    assert s == s[..j] + s[j..];
    RemoveCharAppend(s[..j], s[j..], c);
    assert s[j..] == [s[j]] + s[j + 1..];
    RemoveCharAppend([s[j]], s[j + 1..], c);
    RemoveCharAbsent(s[j + 1..], c);
  }

  /**
   * The separator rules applied to a stripped string without spaces: with
   * both separators the rightmost one is the decimal point and the other is
   * dropped; with only ',' the dots are dropped and ',' becomes '.'; with
   * only '.' or none the string is left alone.
   */
  function NormalizeSeparators(s: string): string {
    if ',' in s && '.' in s then
      if RFind(s, ',') > RFind(s, '.') then ReplaceChar(RemoveChar(s, '.'), ',', '.')
      else RemoveChar(s, ',')
    else if ',' in s then ReplaceChar(RemoveChar(s, '.'), ',', '.')
    else s
  }

  /** No ',' survives the separator rules, no space is introduced, and a string without ',' is left alone. */
  lemma SeparatorsLeaveNoComma(s: string)
    ensures ',' !in NormalizeSeparators(s)
    ensures ' ' !in s ==> ' ' !in NormalizeSeparators(s)
    ensures ',' !in s ==> NormalizeSeparators(s) == s
  {
    if ',' in s && !('.' in s && RFind(s, ',') <= RFind(s, '.')) {
      var t := RemoveChar(s, '.');
      RemoveCharKeeps(s, '.', ' ');
      ReplaceCharAbsent(t, ',', '.', ',');
      ReplaceCharAbsent(t, ',', '.', ' ');
    } else if ',' in s {
      RemoveCharKeeps(s, ',', ' ');
    }
  }

  /** The separator rules only drop or rewrite separators: everything else is kept, in order. */
  lemma SeparatorsKeepDigits(s: string)
    ensures Unseparated(NormalizeSeparators(s)) == Unseparated(s)
  {
    if ',' in s && '.' in s && RFind(s, ',') <= RFind(s, '.') {
      UnseparatedRemove(s, ',');
    } else if ',' in s {
      UnseparatedRemove(s, '.');
      UnseparatedReplace(RemoveChar(s, '.'), ',', '.');
    }
  }

  /** The rightmost separator becomes the decimal point, and everything after it is kept. */
  lemma RightmostSeparatorIsDecimal(s: string)
    requires ',' in s
    ensures var r, j := NormalizeSeparators(s), LastSeparator(s);
      |s| - j <= |r| && r[|r| - (|s| - j)..] == "." + s[j + 1..]
  {
    DecimalTailOf(s, NormalizeSeparators(s));
  }

  /** `r` ends with '.' followed by what comes after the rightmost separator of `s`. */
  predicate DecimalTail(s: string, r: string)
    requires ',' in s || '.' in s
  {
    var j := LastSeparator(s);
    |s| - j <= |r| && r[|r| - (|s| - j)..] == "." + s[j + 1..]
  }

  lemma DecimalTailOf(s: string, r: string)
    requires ',' in s && r == NormalizeSeparators(s)
    ensures DecimalTail(s, r)
  {
    if '.' in s && RFind(s, ',') <= RFind(s, '.') {
      NormalizeDotLast(s);
      DotDecimalTail(s);
    } else {
      NormalizeCommaLast(s);
      CommaDecimalTail(s);
    }
  }

  /** With both separators and the '.' rightmost, the rules drop the commas. */
  lemma NormalizeDotLast(s: string)
    requires ',' in s && '.' in s && RFind(s, ',') <= RFind(s, '.')
    ensures NormalizeSeparators(s) == RemoveChar(s, ',')
  {
  }

  /** With the ',' rightmost, the rules drop the dots and turn the commas into dots. */
  lemma NormalizeCommaLast(s: string)
    requires ',' in s && RFind(s, ',') > RFind(s, '.')
    ensures NormalizeSeparators(s) == ReplaceChar(RemoveChar(s, '.'), ',', '.')
  {
  }

  /** The tail of `s.replace(",", "")` when the rightmost separator is a '.'. */
  lemma DotDecimalTail(s: string)
    requires ',' in s && '.' in s && RFind(s, ',') <= RFind(s, '.')
    ensures var j := LastSeparator(s); var r := RemoveChar(s, ',');
      |s| - j <= |r| && r[|r| - (|s| - j)..] == "." + s[j + 1..]
  {
    var j := LastSeparator(s);
    DotIsLast(s);
    RemoveCharKeepsTail(s, ',', j);
    HeadAndTail(s, j);
  }

  /** With both separators and the rightmost one a '.', no ',' follows that '.'. */
  lemma DotIsLast(s: string)
    requires ',' in s && '.' in s && RFind(s, ',') <= RFind(s, '.')
    ensures var j := LastSeparator(s); s[j] == '.' && ',' !in s[j + 1..]
  {
    var j := LastSeparator(s);
    assert j == RFind(s, '.');
    var tail := s[j + 1..];
    assert forall i :: 0 <= i < |tail| ==> tail[i] == s[j + 1 + i];
  }

  /** A slice from `j` is its first character followed by the rest. */
  lemma HeadAndTail(s: string, j: nat)
    requires j < |s|
    ensures s[j..] == [s[j]] + s[j + 1..]
  {
    assert s[j..][0] == s[j] && s[j..][1..] == s[j + 1..];
  }

  /** The tail of `s.replace(".", "").replace(",", ".")` when the rightmost separator is a ','. */
  lemma CommaDecimalTail(s: string)
    requires ',' in s && RFind(s, ',') > RFind(s, '.')
    ensures var j := LastSeparator(s); var r := ReplaceChar(RemoveChar(s, '.'), ',', '.');
      |s| - j <= |r| && r[|r| - (|s| - j)..] == "." + s[j + 1..]
  {
    var j := LastSeparator(s);
    assert s[j] == ',';
    var t := RemoveChar(s, '.');
    RemoveCharKeepsTail(s, '.', j);
    CommaTail(s, t, j);
    ReplaceCharTail(t, ',', '.', |s| - j);
  }

  /** Replacing `c` by `d` where the last `n` characters hold `c` only at their head turns that head into `d`. */
  lemma ReplaceCharTail(t: string, c: char, d: char, n: nat)
    requires 0 < n <= |t| && t[|t| - n] == c && c !in t[|t| - n + 1..]
    ensures ReplaceChar(t, c, d)[|t| - n..] == [d] + t[|t| - n + 1..]
  {
    var k := |t| - n;
    var q := t[k + 1..];
    var r := ReplaceChar(t, c, d)[k..];
    assert |r| == n;
    forall i | 0 < i < n ensures r[i] == q[i - 1] {
      assert q[i - 1] == t[k + i] && q[i - 1] in q;
    }
    assert r == [d] + q;
  }

  /** Replacing one character by another never introduces a third. */
  lemma ReplaceCharAbsent(s: string, c: char, d: char, x: char)
    ensures x != d && x !in s ==> x !in ReplaceChar(s, c, d)
  {
    var r := ReplaceChar(s, c, d);
    forall i | 0 <= i < |r| && x != d && x !in s ensures r[i] != x {
      assert r[i] == s[i] || r[i] == d;
    }
  }

  lemma CommaTail(s: string, t: string, j: nat)
    requires j < |s| && s[j] == ',' && |s| - j <= |t| && t[|t| - (|s| - j)..] == s[j..]
    requires forall i :: j < i < |s| ==> s[i] != ',' && s[i] != '.'
    ensures t[|t| - (|s| - j)] == ','
    ensures t[|t| - (|s| - j) + 1..] == s[j + 1..]
    ensures ',' !in t[|t| - (|s| - j) + 1..]
  {
    var n := |s| - j;
    assert t[|t| - n] == t[|t| - n..][0];
    assert t[|t| - n + 1..] == t[|t| - n..][1..];
  }

  /**
   * `safe_number`: ints and floats go through `float()` untouched; other
   * values are rendered, stripped, checked against the missing-value
   * spellings, freed of spaces and of the thousands separator, and handed to
   * `float()`, which strips again: dropping a leading separator can uncover
   * whitespace other than ' '.
   * `None` is the model of every path that returns `None`.
   */
  function SafeNumber(v: Value): (r: Option<real>)
    ensures v.Null? ==> r == None
    ensures IsNumber(v) ==> r == PyFloat(v)
    ensures v.Int? && -FloatOverflow < v.i < FloatOverflow ==> r == Some(v.i as real)
    ensures v.Float? ==> r == Some(v.x)
    ensures !v.Null? && (Strip(Render(v)) == "" || IsSentinel(Strip(Render(v)))) && !IsNumber(v) ==> r == None
  {
    if v.Null? then None
    else if IsNumber(v) then PyFloat(v)
    else
      var s := Strip(Render(v));
      if s == "" || IsSentinel(s) then None
      else PyFloat(Str(NormalizeSeparators(RemoveChar(s, ' '))))
  }

  /** The text handed to the parser: stripped, without spaces and without ','. */
  function NumberText(v: Value): string {
    NormalizeSeparators(RemoveChar(Strip(Render(v)), ' '))
  }

  /** A string with no whitespace at all reaches the separator rules unchanged. */
  lemma NumberTextOfUnspaced(s: string)
    requires forall i :: 0 <= i < |s| ==> !IsSpace(s[i])
    ensures NumberText(Str(s)) == NormalizeSeparators(s)
  {
    StripOfTrimmed(s);
    RemoveCharAbsent(s, ' ');
  }

  /** Neither separator occurs in `s`. */
  predicate NoSeparator(s: string) {
    ',' !in s && '.' !in s
  }

  /** `RFind` is pinned down by an occurrence with nothing equal after it. */
  lemma RFindIs(s: string, x: char, i: nat)
    requires i < |s| && s[i] == x
    requires forall j :: i < j < |s| ==> s[j] != x
    ensures RFind(s, x) == i
  {
  }

  /** Removing `g` from `a + [g] + rest` where `a` holds no `g`. */
  lemma RemoveSeparator(a: string, g: char, rest: string)
    requires g !in a
    ensures RemoveChar(a + [g] + rest, g) == a + RemoveChar(rest, g)
  {
    assert RemoveChar([g], g) == [] by {
      RemoveCharDropped([g], g);
      assert [g][1..] == [];
    }
    assert RemoveChar(a + [g], g) == a by {
      RemoveCharAppend(a, [g], g);
      RemoveCharAbsent(a, g);
      assert a + [] == a;
    }
    RemoveCharAppend(a + [g], rest, g);
  }

  /** In `a + [g] + b + [d] + c` the last `g` is the one after `a` and the last `d` the one after `b`. */
  lemma GroupedSeparatorsAt(a: string, g: char, b: string, d: char, c: string)
    requires NoSeparator(a) && NoSeparator(b) && NoSeparator(c)
    requires (g == '.' && d == ',') || (g == ',' && d == '.')
    ensures var s := a + [g] + b + [d] + c;
      RFind(s, g) == |a| && RFind(s, d) == |a| + 1 + |b|
  {
    var s := a + [g] + b + [d] + c;
    var p := |a| + 1 + |b|;
    assert s[|a|] == g && s[p] == d;
    forall j | |a| < j < |s| ensures s[j] != g {
      if j < p {
        assert s[j] == b[j - |a| - 1];
      } else if j > p {
        assert s[j] == c[j - p - 1];
      }
    }
    forall j | p < j < |s| ensures s[j] != d {
      assert s[j] == c[j - p - 1];
    }
    RFindIs(s, g, |a|);
    RFindIs(s, d, p);
  }

  /** Dropping the grouping separator of `a + [g] + b + [d] + c`. */
  lemma GroupingDropped(a: string, g: char, b: string, d: char, c: string)
    requires NoSeparator(a) && NoSeparator(b) && NoSeparator(c)
    requires (g == '.' && d == ',') || (g == ',' && d == '.')
    ensures RemoveChar(a + [g] + b + [d] + c, g) == a + b + [d] + c
  {
    var rest := b + [d] + c;
    assert a + [g] + b + [d] + c == a + [g] + rest;
    assert g !in b && g !in [d] && g !in c;
    RemoveCharAbsent(rest, g);
    RemoveSeparator(a, g, rest);
  }

  /** The one ',' of `t + [','] + c` becomes '.'. */
  lemma CommaBecomesDot(t: string, c: string)
    requires ',' !in t && ',' !in c
    ensures ReplaceChar(t + [','] + c, ',', '.') == t + "." + c
  {
    var u := t + [','] + c;
    var r := ReplaceChar(u, ',', '.');
    forall j | 0 <= j < |u| ensures r[j] == (t + "." + c)[j] {
      if j < |t| {
        assert u[j] == t[j];
      } else if j > |t| {
        assert u[j] == c[j - |t| - 1];
      }
    }
  }

  /**
   * A number written with one grouping separator `g` and one decimal
   * separator `d`, in either convention: the rightmost separator becomes the
   * decimal point and the grouping separator is dropped.
   */
  lemma GroupedDecimal(a: string, g: char, b: string, d: char, c: string)
    requires NoSeparator(a) && NoSeparator(b) && NoSeparator(c)
    requires (g == '.' && d == ',') || (g == ',' && d == '.')
    ensures NormalizeSeparators(a + [g] + b + [d] + c) == a + b + "." + c
  {
    var s := a + [g] + b + [d] + c;
    GroupedSeparatorsAt(a, g, b, d, c);
    assert s[|a|] == g && s[|a| + 1 + |b|] == d;
    GroupingDropped(a, g, b, d, c);
    if d == ',' {
      assert ',' !in a + b;
      CommaBecomesDot(a + b, c);
    }
  }

  /** Brazilian grouping: the dots are thousands separators and the comma is the decimal point. */
  lemma BrazilianGroupingExample(s: string)
    requires s == "1.234,56"
    ensures NormalizeSeparators(s) == "1234.56"
  {
    var a, b, c := s[..1], s[2..5], s[6..];
    assert s == a + [s[1]] + b + [s[5]] + c;
    assert NoSeparator(a) && NoSeparator(b) && NoSeparator(c);
    GroupedDecimal(a, s[1], b, s[5], c);
    JoinedPieces(a, b, c);
  }

  /** The digits of "1?234?56" around its separators, joined by a dot. */
  lemma JoinedPieces(a: string, b: string, c: string)
    requires a == "1" && b == "234" && c == "56"
    ensures a + b + "." + c == "1234.56"
  {
    assert a + b == "1234";
    assert "1234" + "." == "1234.";
    assert "1234." + c == "1234.56";
  }

  /** International grouping: the commas are thousands separators and the dot is the decimal point. */
  lemma InternationalGroupingExample(s: string)
    requires s == "1,234.56"
    ensures NormalizeSeparators(s) == "1234.56"
  {
    var a, b, c := s[..1], s[2..5], s[6..];
    assert s == a + [s[1]] + b + [s[5]] + c;
    assert NoSeparator(a) && NoSeparator(b) && NoSeparator(c);
    GroupedDecimal(a, s[1], b, s[5], c);
    JoinedPieces(a, b, c);
  }

  /** A lone comma is the decimal point. */
  lemma LoneCommaExample(s: string)
    requires s == "1234,56"
    ensures NumberText(Str(s)) == "1234.56"
  {
    var a, c := s[..4], s[5..];
    assert s == a + [','] + c;
    assert NoSeparator(a) && NoSeparator(c);
    LoneCommaDecimal(a, c);
    assert a + "." + c == "1234.56" by {
      assert a == "1234";
      assert "1234" + "." == "1234.";
      assert "1234." + c == "1234.56";
    }
    NumberTextOfUnspaced(s);
  }

  /** A number with one comma and no dot: the comma is the decimal point. */
  lemma LoneCommaDecimal(a: string, c: string)
    requires NoSeparator(a) && NoSeparator(c)
    ensures NormalizeSeparators(a + [','] + c) == a + "." + c
  {
    var s := a + [','] + c;
    assert s[|a|] == ',';
    assert '.' !in s by {
      forall j | 0 <= j < |s| ensures s[j] != '.' {
        if j < |a| {
          assert s[j] == a[j];
        } else if j > |a| {
          assert s[j] == c[j - |a| - 1];
        }
      }
    }
    RemoveCharAbsent(s, '.');
    CommaBecomesDot(a, c);
  }

  /** `float("1.250")` is one and a quarter. */
  lemma LoneDotParse(s: string)
    requires s == "1.250"
    ensures ParseFloat(s) == Some(1.25)
  {
    ParseFloatUnsigned(s);
    LoneDotShape(s);
    FractionParse(s, 1);
    DigitsValueOf1250(s[..1] + s[2..]);
    assert Pow10(3) == 1000;
    assert 1250 as real / 1000 as real == 1.25;
  }

  /** "1.250" has no exponent, its dot at index 1 and the digits "1250" around it. */
  lemma LoneDotShape(s: string)
    requires s == "1.250"
    ensures ExpIndex(s) == |s| && DotIndex(s) == 1
    ensures AllDigits(s[..1]) && AllDigits(s[2..]) && s[..1] + s[2..] == "1250"
  {
    assert s[..1] == "1" && s[2..] == "250";
  }

  /** The digits "1250" denote 1250. */
  lemma DigitsValueOf1250(t: string)
    requires t == "1250"
    ensures AllDigits(t) && DigitsValue(t) == 1250
  {
    var t3 := t[..3];
    var t2 := t3[..2];
    var t1 := t2[..1];
    assert t1 == ['1'] && t2 == t1 + ['2'] && t3 == t2 + ['5'] && t == t3 + ['0'];
    assert AllDigits(t1) && AllDigits(t2) && AllDigits(t3);
    assert t1[..0] == [];
    assert DigitsValue(t1) == 1;
    assert DigitsValue(t2) == 12;
    assert DigitsValue(t3) == 125;
  }

  /** A literal without exponent and with a dot at `d` is its digits over a power of ten. */
  lemma FractionParse(s: string, d: nat)
    requires ExpIndex(s) == |s| && d == DotIndex(s) < |s|
    requires AllDigits(s[..d]) && AllDigits(s[d + 1..]) && |s| > 1
    ensures ParseUnsigned(s) == Some(DigitsValue(s[..d] + s[d + 1..]) as real / Pow10(|s| - d - 1) as real)
  {
    var mant := s[..ExpIndex(s)];
    assert mant == s;
    var fp := s[d + 1..];
    assert |fp| == |s| - d - 1 && |s[..d]| + |fp| > 0;
    var v := DigitsValue(s[..d] + fp) as real / Pow10(|fp|) as real;
    assert Scale(0) == 1.0 && v * Scale(0) == v;
  }

  /** A non-numeric value whose text has no whitespace and is not a missing-value spelling is parsed after the separator rules. */
  lemma SafeNumberOfUnspaced(s: string)
    requires s != [] && !IsSentinel(s)
    requires forall i :: 0 <= i < |s| ==> !IsSpace(s[i])
    ensures SafeNumber(Str(s)) == ParseFloat(NormalizeSeparators(s))
  {
    StripOfTrimmed(s);
    RemoveCharAbsent(s, ' ');
    SeparatorsAddNoSpace(s);
    StripOfTrimmed(NormalizeSeparators(s));
  }

  /** The separator rules never put whitespace into a string. */
  lemma SeparatorsAddNoSpace(s: string)
    requires forall i :: 0 <= i < |s| ==> !IsSpace(s[i])
    ensures var r := NormalizeSeparators(s); forall i :: 0 <= i < |r| ==> !IsSpace(r[i])
  {
    var r := NormalizeSeparators(s);
    SeparatorsKeepDigits(s);
    forall i | 0 <= i < |r| ensures !IsSpace(r[i]) {
      if IsSpace(r[i]) {
        UnseparatedHas(r, r[i]);
        UnseparatedHas(s, r[i]);
      }
    }
  }

  /** A character other than a separator survives `Unseparated` exactly when it was there. */
  lemma {:induction false} UnseparatedHas(s: string, x: char)
    requires x != '.' && x != ','
    ensures x in Unseparated(s) <==> x in s
  {
    if s != [] {
      UnseparatedHas(s[1..], x);
      assert x in s <==> x == s[0] || x in s[1..];
    }
  }

  /** Whitespace uncovered by dropping a leading separator is stripped by `float()`: ",\t5.6" is 5.6. */
  lemma UncoveredSpaceExample(s: string)
    requires s == ",\t5.6"
    ensures SafeNumber(Str(s)) == Some(5.6)
  {
    UncoveredSpaceText(s);
    TabThenNumber("\t5.6");
    FivePointSixParse("5.6");
  }

  /** ",\t5.6" passes the sanitiser unchanged, and the separator rules drop its comma. */
  lemma UncoveredSpaceText(s: string)
    requires s == ",\t5.6"
    ensures Strip(s) == s && !IsSentinel(s)
    ensures NormalizeSeparators(RemoveChar(s, ' ')) == "\t5.6"
  {
    StripOfTrimmed(s);
    assert |Lower(s)| == 5;
    RemoveCharAbsent(s, ' ');
    CommaBeforeDot(s);
  }

  /** The only ',' comes before the only '.', so it is the thousands separator and is dropped. */
  lemma CommaBeforeDot(s: string)
    requires s == ",\t5.6"
    ensures NormalizeSeparators(s) == "\t5.6"
  {
    assert s[0] == ',' && s[3] == '.';
    RFindIs(s, ',', 0);
    RFindIs(s, '.', 3);
    assert s[1..] == "\t5.6";
    RemoveCharAbsent(s[1..], ',');
  }

  lemma TabThenNumber(t: string)
    requires t == "\t5.6"
    ensures Strip(t) == "5.6"
  {
    assert t[1..] == "5.6";
    TrimStartOfNonSpace("5.6");
    StripOfTrimmed("5.6");
  }

  lemma FivePointSixParse(s: string)
    requires s == "5.6"
    ensures ParseFloat(s) == Some(5.6)
  {
    ParseFloatUnsigned(s);
    assert ExpIndex(s) == |s| && DotIndex(s) == 1;
    assert s[..1] == "5" && s[2..] == "6" && s[..1] + s[2..] == "56";
    FractionParse(s, 1);
    assert DigitsValue("56") == 56;
    assert Pow10(1) == 10;
  }

  /** A lone dot is always the decimal point: "1.250" is one and a quarter, not a thousand two hundred and fifty. */
  lemma LoneDotExample(s: string)
    requires s == "1.250"
    ensures SafeNumber(Str(s)) == Some(1.25)
  {
    assert forall i :: 0 <= i < |s| ==> !IsSpace(s[i]);
    assert !IsSentinel(s) by { assert Lower(s) == s; }
    assert NormalizeSeparators(s) == s by { assert ',' !in s; }
    SafeNumberOfUnspaced(s);
    LoneDotParse(s);
  }

  /** The missing-value spellings are not numbers, whatever the case and surrounding spaces. */
  lemma SentinelExample()
    ensures SafeNumber(Str(" NaN ")) == None
  {
    assert IsSpace(' ') && !IsSpace('N');
    assert TrimStart(" NaN ") == "NaN " by {
      assert " NaN "[1..] == "NaN ";
      TrimStartOfNonSpace("NaN ");
    }
    assert TrimEnd("NaN ") == "NaN" by {
      assert "NaN "[..3] == "NaN";
      TrimEndOfNonSpace("NaN");
    }
    assert Lower("NaN") == "nan";
  }

  // ---------------------------------------------------------------- alias resolver

  /** `str(a).lower() == str(b).lower()` */
  predicate SameKey(a: string, b: string) {
    Lower(a) == Lower(b)
  }

  /** The first entry whose key equals `k` ignoring case, or `|d|`. */
  function CaseIndex(d: seq<(string, Value)>, k: string): (r: nat)
    ensures r <= |d|
    ensures r < |d| ==> SameKey(d[r].0, k)
    ensures forall j :: 0 <= j < r ==> !SameKey(d[j].0, k)
  {
    if d == [] then 0 else if SameKey(d[0].0, k) then 0 else 1 + CaseIndex(d[1..], k)
  }

  /**
   * `pick_prop` on a dict: for each alias in order, an exact key first, then
   * the first key equal to it ignoring case; `None` when no alias matches.
   */
  function PickIn(d: seq<(string, Value)>, keys: seq<string>): Value {
    if keys == [] then Null
    else if HasKey(d, keys[0]) then Get(d, keys[0])
    else if CaseIndex(d, keys[0]) < |d| then Get(d, d[CaseIndex(d, keys[0])].0)
    else PickIn(d, keys[1..])
  }

  /** `pick_prop(props, keys)`: `None` for anything that is not a dict. */
  function Pick(props: Value, keys: seq<string>): (r: Value)
    ensures !props.Dict? ==> r == Null
  {
    if props.Dict? then PickIn(props.entries, keys) else Null
  }

  /**
   * Entry `j` is the one the resolver should return for `keys`: alias `i` is
   * the first alias naming any key (ignoring case), and `j` is its first exact
   * key if it has one, otherwise its first key ignoring case.
   */
  ghost predicate Wins(d: seq<(string, Value)>, keys: seq<string>, i: int, j: int) {
    && 0 <= i < |keys| && 0 <= j < |d| && SameKey(d[j].0, keys[i])
    && (forall i', j' :: 0 <= i' < i && 0 <= j' < |d| ==> !SameKey(d[j'].0, keys[i']))
    && (if HasKey(d, keys[i]) then d[j].0 == keys[i] && forall j' :: 0 <= j' < j ==> d[j'].0 != keys[i]
        else forall j' :: 0 <= j' < j ==> !SameKey(d[j'].0, keys[i]))
  }

  /** The value found through a key that is the first to match ignoring case is that entry's value. */
  lemma GetFirstCaseMatch(d: seq<(string, Value)>, k: string, j: nat)
    requires j < |d| && SameKey(d[j].0, k)
    requires forall j' :: 0 <= j' < j ==> !SameKey(d[j'].0, k)
    ensures Get(d, d[j].0) == d[j].1
  {
    HasKeyAt(d, d[j].0, j);
  }

  /** An exact key is also a match ignoring case. */
  lemma ExactKeyIsSameKey(d: seq<(string, Value)>, k: string)
    ensures HasKey(d, k) ==> SameKey(d[KeyIndex(d, k)].0, k)
  {
  }

  /** A winner found past an alias that names nothing is the winner among the remaining aliases. */
  lemma WinsShift(d: seq<(string, Value)>, keys: seq<string>, i: int, j: int)
    requires keys != [] && Wins(d, keys, i, j) && CaseIndex(d, keys[0]) == |d|
    ensures i > 0 && Wins(d, keys[1..], i - 1, j)
  {
    assert i != 0;
    var rest := keys[1..];
    assert rest[i - 1] == keys[i];
    forall i', j' | 0 <= i' < i - 1 && 0 <= j' < |d| ensures !SameKey(d[j'].0, rest[i']) {
      assert rest[i'] == keys[i' + 1];
    }
  }

  /** The resolver returns the winning entry's value. */
  lemma {:induction false} PickInReturnsWinner(d: seq<(string, Value)>, keys: seq<string>, i: int, j: int)
    requires Wins(d, keys, i, j)
    ensures PickIn(d, keys) == d[j].1
    decreases |keys|
  {
    var k := keys[0];
    ExactKeyIsSameKey(d, k);
    if HasKey(d, k) {
      assert i == 0;
    } else if CaseIndex(d, k) < |d| {
      GetFirstCaseMatch(d, k, CaseIndex(d, k));
      assert i == 0;
    } else {
      WinsShift(d, keys, i, j);
      PickInReturnsWinner(d, keys[1..], i - 1, j);
    }
  }

  /** As soon as some alias names some key ignoring case, there is a winner. */
  lemma {:induction false} WinnerExists(d: seq<(string, Value)>, keys: seq<string>, i: int, j: int)
    requires 0 <= i < |keys| && 0 <= j < |d| && SameKey(d[j].0, keys[i])
    ensures exists i', j' :: Wins(d, keys, i', j')
    decreases |keys|
  {
    var k := keys[0];
    if HasKey(d, k) {
      var x := KeyIndex(d, k);
      assert SameKey(d[x].0, k);
      assert Wins(d, keys, 0, x);
    } else if CaseIndex(d, k) < |d| {
      assert Wins(d, keys, 0, CaseIndex(d, k));
    } else {
      var rest := keys[1..];
      assert i != 0;
      assert rest[i - 1] == keys[i];
      WinnerExists(d, rest, i - 1, j);
      var i', j' :| Wins(d, rest, i', j');
      forall a, b | 0 <= a < i' + 1 && 0 <= b < |d| ensures !SameKey(d[b].0, keys[a]) {
        if a > 0 { assert keys[a] == rest[a - 1]; }
      }
      assert Wins(d, keys, i' + 1, j');
    }
  }

  /** When no alias names any key, even ignoring case, the resolver finds nothing. */
  lemma {:induction false} PickInNoMatch(d: seq<(string, Value)>, keys: seq<string>)
    requires forall i, j :: 0 <= i < |keys| && 0 <= j < |d| ==> !SameKey(d[j].0, keys[i])
    ensures PickIn(d, keys) == Null
    decreases |keys|
  {
    if keys != [] {
      ExactKeyIsSameKey(d, keys[0]);
      var rest := keys[1..];
      forall i, j | 0 <= i < |rest| && 0 <= j < |d| ensures !SameKey(d[j].0, rest[i]) {
        assert rest[i] == keys[i + 1];
      }
      PickInNoMatch(d, rest);
    }
  }

  /** `pick_prop` as the source writes it: nested scans with early returns. */
  method PickProp(props: Value, keys: seq<string>) returns (r: Value)
    ensures r == Pick(props, keys)
  {
    if !props.Dict? {
      return Null;
    }
    var d := props.entries;
    for i := 0 to |keys|
      invariant PickIn(d, keys) == PickIn(d, keys[i..])
    {
      var k := keys[i];
      assert keys[i..][1..] == keys[i + 1..];
      if HasKey(d, k) {
        return Get(d, k);
      }
      for j := 0 to |d|
        invariant forall j' :: 0 <= j' < j ==> !SameKey(d[j'].0, k)
      {
        if Lower(d[j].0) == Lower(k) {
          return Get(d, d[j].0);
        }
      }
    }
    return Null;
  }

  /** The first listed alias wins even when a later alias is an exact key. */
  lemma AliasPriorityExample()
    ensures Pick(Dict([("NM_MUNICIPIO", Str("Fortaleza")), ("municipio", Str("Other"))]), ["municipio", "NM_MUNICIPIO"]) == Str("Other")
  {
    var d := [("NM_MUNICIPIO", Str("Fortaleza")), ("municipio", Str("Other"))];
    assert KeyIndex(d, "municipio") == 1;
  }

  // ---------------------------------------------------------------- coordinates

  /** The truthy geometry as `(geom or {})` sees it. */
  function GeometryOf(geom: Value): Value {
    Or(geom, EmptyDict)
  }

  /**
   * The Point fallback of `get_latlon`: `(lat, lon)` from the first two
   * coordinates of a Point geometry, which GeoJSON writes `[lon, lat]`. Every
   * failure, a geometry that is not a dict included, means no coordinates.
   */
  function PointLatLon(geom: Value): (r: Option<(real, real)>)
    ensures r.Some? ==> GeometryOf(geom).Dict?
    ensures r.Some? ==>
      var g := GeometryOf(geom).entries; var c := Get(g, "coordinates");
      && Get(g, "type") == Str("Point") && c.List? && |c.items| >= 2
      && PyFloat(c.items[1]) == Some(r.value.0) && PyFloat(c.items[0]) == Some(r.value.1)
    ensures GeometryOf(geom).Dict? ==>
      var g := GeometryOf(geom).entries; var c := Get(g, "coordinates");
      (Get(g, "type") == Str("Point") && c.List? && |c.items| >= 2
        && PyFloat(c.items[1]).Some? && PyFloat(c.items[0]).Some?) ==> r.Some?
  {
    var g := GeometryOf(geom);
    if !g.Dict? || Get(g.entries, "type") != Str("Point") then None
    else
      var coords := Or(Get(g.entries, "coordinates"), List([]));
      if !coords.List? || |coords.items| < 2 then None
      else
        match (PyFloat(coords.items[1]), PyFloat(coords.items[0]))
        case (Some(lat), Some(lon)) => Some((lat, lon))
        case _ => None
  }

  /**
   * `get_latlon`: the property pair when both parse (whatever their range),
   * otherwise the Point fallback; `None` stands for `(None, None)`.
   */
  function GetLatLon(props: Value, geom: Value): (r: Option<(real, real)>)
    ensures var lat, lon := SafeNumber(Pick(props, LatKeys)), SafeNumber(Pick(props, LonKeys));
      lat.Some? && lon.Some? ==> r == Some((lat.value, lon.value))
    ensures r.Some? ==> r == PointLatLon(geom) || (SafeNumber(Pick(props, LatKeys)) == Some(r.value.0) && SafeNumber(Pick(props, LonKeys)) == Some(r.value.1))
  {
    var lat, lon := SafeNumber(Pick(props, LatKeys)), SafeNumber(Pick(props, LonKeys));
    if lat.Some? && lon.Some? then Some((lat.value, lon.value)) else PointLatLon(geom)
  }

  /** Properties outrank geometry: once both property coordinates parse, the geometry is never consulted. */
  lemma PropertiesOutrankGeometry(props: Value, g1: Value, g2: Value)
    requires SafeNumber(Pick(props, LatKeys)).Some? && SafeNumber(Pick(props, LonKeys)).Some?
    ensures GetLatLon(props, g1) == GetLatLon(props, g2)
  {
  }

  /** Without property coordinates, a Point `[lon, lat]` is read in swapped order, unchecked. */
  lemma PointFallbackExample(lon: real, lat: real)
    ensures GetLatLon(EmptyDict, Dict([("type", Str("Point")), ("coordinates", List([Float(lon), Float(lat)]))])) == Some((lat, lon))
  {
    PickInEmpty(LatKeys);
    assert SafeNumber(Pick(EmptyDict, LatKeys)) == None;
    PointGeometryLatLon(lon, lat);
  }

  /** A Point geometry `[lon, lat]` gives `(lat, lon)`. */
  lemma PointGeometryLatLon(lon: real, lat: real)
    ensures PointLatLon(Dict([("type", Str("Point")), ("coordinates", List([Float(lon), Float(lat)]))])) == Some((lat, lon))
  {
    var g := [("type", Str("Point")), ("coordinates", List([Float(lon), Float(lat)]))];
    assert KeyIndex(g, "type") == 0;
    assert KeyIndex(g, "coordinates") == 1;
    assert PyFloat(Float(lat)) == Some(lat) && PyFloat(Float(lon)) == Some(lon);
  }

  // ---------------------------------------------------------------- feature normaliser

  /** The record `normalize_feature` returns; `lat`/`lon` are `None` together. */
  datatype Record = Record(
    tipo: string, nome: string, municipio: string, distrito: string, bairro: string,
    endereco: string, localVotacao: string, qtVotos: real,
    lat: Option<real>, lon: Option<real>,
    properties: Value, geometry: Value, id: string)

  /** `(ft or {}).get("properties") or {}`, for a feature that is a dict after `or {}`. */
  function PropsOf(ft: Value): Value
    requires Or(ft, EmptyDict).Dict?
  {
    Or(Get(Or(ft, EmptyDict).entries, "properties"), EmptyDict)
  }

  /** The name override: the sanitised value under `forceNomeFrom`, or "" when there is none to use. */
  function Forced(props: Value, forceNomeFrom: Option<string>): (r: string)
    ensures Clean(r)
  {
    if forceNomeFrom.Some? && forceNomeFrom.value != "" then SafeText(Pick(props, [forceNomeFrom.value])) else ""
  }

  /**
   * `props` after the vote write-back: `QT_VOTOS` is added (at the end) when
   * it is absent and some vote alias was found.
   */
  function WithVotes(props: Value, present: bool, qtRaw: Value, qt: real): (r: Value)
    requires qtRaw != Null ==> props.Dict?
  {
    if !present && qtRaw != Null then Dict(Set(props.entries, "QT_VOTOS", Float(qt))) else props
  }

  /**
   * `normalize_feature`. It raises when the feature is truthy but not a dict
   * (`.get` on it), and when the properties are a truthy number, for which
   * `"QT_VOTOS" not in props` is a TypeError.
   */
  function Normalized(ft: Value, tipo: Value, forceNomeFrom: Option<string>): (r: Result<Record>)
  {
    var f := Or(ft, EmptyDict);
    if !f.Dict? then Raised
    else
      var props := PropsOf(ft);
      var geom := Or(Get(f.entries, "geometry"), EmptyDict);
      var qtRaw := Pick(props, Aliases(QtVotos));
      var qt := SafeNumber(qtRaw).GetOr(0.0);
      var forced := Forced(props, forceNomeFrom);
      var nome := if forced != "" then forced else SafeText(Pick(props, Aliases(Nome)));
      var ll := GetLatLon(props, geom);
      match In("QT_VOTOS", props)
      case None => Raised
      case Some(present) =>
        var props' := WithVotes(props, present, qtRaw, qt);
        Ok(Record(
          SafeText(tipo), nome,
          SafeText(Pick(props, Aliases(Municipio))), SafeText(Pick(props, Aliases(Distrito))),
          SafeText(Pick(props, Aliases(Bairro))), SafeText(Pick(props, Aliases(Endereco))),
          SafeText(Pick(props, Aliases(LocalVotacao))), qt,
          if ll.Some? then Some(ll.value.0) else None, if ll.Some? then Some(ll.value.1) else None,
          props', geom, SafeText(Pick(props', Aliases(Id)))))
  }

  /** Exactly the two failure points of `normalize_feature` make it raise. */
  lemma NormalizedRaises(ft: Value, tipo: Value, force: Option<string>)
    ensures Normalized(ft, tipo, force).Raised? <==>
      !Or(ft, EmptyDict).Dict? || (IsNumber(PropsOf(ft)) && Truthy(PropsOf(ft)))
  {
  }

  /** Every text field of a normalised record is sanitised. */
  lemma NormalizedFieldsClean(ft: Value, tipo: Value, force: Option<string>)
    requires Normalized(ft, tipo, force).Ok?
    ensures var r := Normalized(ft, tipo, force).value;
      && Clean(r.tipo) && Clean(r.nome) && Clean(r.municipio) && Clean(r.distrito) && Clean(r.bairro)
      && Clean(r.endereco) && Clean(r.localVotacao) && Clean(r.id)
  {
    var r := Normalized(ft, tipo, force).value;
    assert Clean(r.tipo) && Clean(r.nome) && Clean(r.municipio) && Clean(r.distrito);
  }

  /** Latitude and longitude are found together or not at all. */
  lemma NormalizedCoordinatesPaired(ft: Value, tipo: Value, force: Option<string>)
    requires Normalized(ft, tipo, force).Ok?
    ensures var r := Normalized(ft, tipo, force).value; r.lat.Some? <==> r.lon.Some?
  {
  }

  /** The vote count is the parsed vote alias, and 0.0 when it is missing or does not parse. */
  lemma NormalizedVotes(ft: Value, tipo: Value, force: Option<string>)
    requires Normalized(ft, tipo, force).Ok?
    ensures var r, n := Normalized(ft, tipo, force).value, SafeNumber(Pick(PropsOf(ft), Aliases(QtVotos)));
      && (n.None? ==> r.qtVotos == 0.0)
      && (n.Some? ==> r.qtVotos == n.value)
  {
  }

  /** The override replaces the alias-resolved name exactly when its sanitised value is non-empty. */
  lemma NormalizedNameOverride(ft: Value, tipo: Value, force: Option<string>)
    requires Normalized(ft, tipo, force).Ok?
    ensures var r, forced := Normalized(ft, tipo, force).value, Forced(PropsOf(ft), force);
      && (forced != "" ==> r.nome == forced)
      && (forced == "" ==> r.nome == SafeText(Pick(PropsOf(ft), Aliases(Nome))))
      && (force.None? ==> r.nome == SafeText(Pick(PropsOf(ft), Aliases(Nome))))
  {
  }

  /**
   * The write-back: `QT_VOTOS` is added exactly when the properties are a
   * dict without that key and some vote alias was found; no other key is
   * added, removed or changed, and a properties value that is not a dict is
   * passed through.
   */
  lemma NormalizedWriteBack(ft: Value, tipo: Value, force: Option<string>)
    requires Normalized(ft, tipo, force).Ok?
    ensures var r, props := Normalized(ft, tipo, force).value, PropsOf(ft);
      var written := props.Dict? && !HasKey(props.entries, "QT_VOTOS") && Pick(props, Aliases(QtVotos)) != Null;
      && (!written ==> r.properties == props)
      && (written ==>
            && r.properties.Dict?
            && Keys(r.properties.entries) == Keys(props.entries) + ["QT_VOTOS"]
            && Get(r.properties.entries, "QT_VOTOS") == Float(r.qtVotos)
            && forall k :: k != "QT_VOTOS" ==> Get(r.properties.entries, k) == Get(props.entries, k))
  {
    var props := PropsOf(ft);
    if props.Dict? {
      SetSpec(props.entries, "QT_VOTOS", Float(Normalized(ft, tipo, force).value.qtVotos));
    }
  }

  // ---------------------------------------------------------------- collection normaliser

  /** One feature through `normalize_feature` inside `try`: the record, or nothing when it raises. */
  function NormalizeStep(tipo: Value, force: Option<string>): Value -> Option<Record> {
    ft => if Normalized(ft, tipo, force).Ok? then Some(Normalized(ft, tipo, force).value) else None
  }

  /** `(gj or {}).get("features") or []` as iterated by `for`; `None` when either step raises. */
  function Features(gj: Value): Option<seq<Value>> {
    var g := Or(gj, EmptyDict);
    if !g.Dict? then None else Iterate(Or(Get(g.entries, "features"), List([])))
  }

  /** `normalize_geojson`: the records of the features that normalise, in feature order. */
  method NormalizeGeojson(gj: Value, tipo: Value, force: Option<string>) returns (r: Result<seq<Record>>)
    ensures Features(gj).None? ==> r == Raised
    ensures Features(gj).Some? ==> r == Ok(FilterMap(Features(gj).value, NormalizeStep(tipo, force)))
  {
    var feats := Features(gj);
    if feats.None? {
      return Raised;
    }
    var items := feats.value;
    var rows: seq<Record> := [];
    for i := 0 to |items|
      invariant rows == FilterMap(items[..i], NormalizeStep(tipo, force))
    {
      FilterMapStep(items, i, NormalizeStep(tipo, force));
      var n := NormalizeStep(tipo, force)(items[i]);
      if n.Some? {
        rows := rows + [n.value];
      }
    }
    assert items[..|items|] == items;
    return Ok(rows);
  }

  /**
   * The collection keeps feature order and drops exactly the features whose
   * normalisation raises: the k-th record comes from feature `idx[k]`, the
   * positions increase, and a feature is used if and only if it normalises.
   */
  lemma {:induction false} CollectionKeepsOrder(items: seq<Value>, tipo: Value, force: Option<string>)
    ensures var rows, idx := FilterMap(items, NormalizeStep(tipo, force)), KeptIndices(items, NormalizeStep(tipo, force));
      && |rows| <= |items| && |idx| == |rows| && Increasing(idx)
      && (forall k :: 0 <= k < |idx| ==> idx[k] < |items| && Normalized(items[idx[k]], tipo, force) == Ok(rows[k]))
      && (forall i :: 0 <= i < |items| ==> (Normalized(items[i], tipo, force).Ok? <==> i in idx))
  {
    var f := NormalizeStep(tipo, force);
    var rows, idx := FilterMap(items, f), KeptIndices(items, f);
    FilterMapSelects(items, f);
    forall k | 0 <= k < |idx| ensures idx[k] < |items| && Normalized(items[idx[k]], tipo, force) == Ok(rows[k]) {
      assert f(items[idx[k]]) == Some(rows[k]);
    }
    forall i | 0 <= i < |items| ensures Normalized(items[i], tipo, force).Ok? <==> i in idx {
      if i in idx {
        var k :| 0 <= k < |idx| && idx[k] == i;
        assert f(items[idx[k]]) == Some(rows[k]);
      } else {
        assert f(items[i]).None?;
      }
    }
  }

  /** A `null` feature is not skipped: `ft or {}` turns it into an empty record. */
  lemma NullFeatureIsKept(tipo: Value, force: Option<string>)
    ensures Normalized(Null, tipo, force).Ok?
    ensures Normalized(Null, tipo, force).value.qtVotos == 0.0
    ensures Normalized(Null, tipo, force).value.lat == None
  {
    var e := EmptyDict;
    assert PropsOf(Null) == e;
    NormalizedRaises(Null, tipo, force);
    NormalizedVotes(Null, tipo, force);
    assert SafeNumber(Pick(e, Aliases(QtVotos))) == None by {
      PickInEmpty(Aliases(QtVotos));
    }
    NormalizedCoordinates(Null, tipo, force);
    assert Get(EmptyDict.entries, "geometry") == Null;
    EmptyHasNoCoordinates();
  }

  /** The record's coordinates are the pair `get_lat_lon` finds, if any. */
  lemma NormalizedCoordinates(ft: Value, tipo: Value, force: Option<string>)
    requires Normalized(ft, tipo, force).Ok?
    ensures var r, ll := Normalized(ft, tipo, force).value,
                         GetLatLon(PropsOf(ft), Or(Get(Or(ft, EmptyDict).entries, "geometry"), EmptyDict));
      && r.lat == (if ll.Some? then Some(ll.value.0) else None)
      && r.lon == (if ll.Some? then Some(ll.value.1) else None)
  {
  }

  /** An empty property dict and an empty geometry give no coordinates. */
  lemma EmptyHasNoCoordinates()
    ensures GetLatLon(EmptyDict, EmptyDict) == None
  {
    PickInEmpty(LatKeys);
    assert SafeNumber(Pick(EmptyDict, LatKeys)) == None;
    assert PointLatLon(EmptyDict) == None;
  }

  /** An empty dict resolves no alias. */
  lemma PickInEmpty(keys: seq<string>)
    ensures PickIn([], keys) == Null
  {
    PickInNoMatch([], keys);
  }

  // ---------------------------------------------------------------- flattening

  /** A coordinate pair as `_flatten_coords` recognises it: a two-element list of numbers. */
  predicate IsPosition(v: Value) {
    v.List? && |v.items| == 2 && IsNumber(v.items[0]) && IsNumber(v.items[1])
  }

  /** The two coordinates of a position. */
  function PairOf(v: Value): (Value, Value) {
    if v.List? && |v.items| == 2 then (v.items[0], v.items[1]) else (Null, Null)
  }

  /** `_flatten_coords`: the number pairs of a nested coordinate list, depth first, in order. */
  function Flatten(coords: Value): (r: seq<(Value, Value)>)
    ensures forall k :: 0 <= k < |r| ==> IsNumber(r[k].0) && IsNumber(r[k].1)
    decreases coords, 1
  {
    if IsPosition(coords) then [(coords.items[0], coords.items[1])]
    else if coords.List? then FlattenFrom(coords, 0)
    else []
  }

  /** The flattening of `coords.items[i..]`, concatenated. */
  function FlattenFrom(coords: Value, i: nat): (r: seq<(Value, Value)>)
    requires coords.List? && i <= |coords.items|
    ensures forall k :: 0 <= k < |r| ==> IsNumber(r[k].0) && IsNumber(r[k].1)
    decreases coords, 0, |coords.items| - i
  {
    if i == |coords.items| then [] else Flatten(coords.items[i]) + FlattenFrom(coords, i + 1)
  }

  /** `_flatten_coords` as the source writes it: a recursive walk extending `out`. */
  method FlattenCoords(coords: Value) returns (out: seq<(Value, Value)>)
    ensures out == Flatten(coords)
    decreases coords
  {
    out := [];
    if coords.Null? {
      return;
    }
    if IsPosition(coords) {
      out := out + [(coords.items[0], coords.items[1])];
      return;
    }
    if coords.List? {
      var items := coords.items;
      for i := 0 to |items|
        invariant out + FlattenFrom(coords, i) == Flatten(coords)
      {
        assert items[i] in items;
        var sub := FlattenCoords(items[i]);
        out := out + sub;
      }
    }
  }

  /** A ring of positions flattens to its positions, in order. */
  lemma {:induction false} FlattenRing(ring: seq<Value>, i: nat)
    requires forall k :: 0 <= k < |ring| ==> IsPosition(ring[k])
    requires i <= |ring|
    ensures |FlattenFrom(List(ring), i)| == |ring| - i
    ensures forall k :: i <= k < |ring| ==> FlattenFrom(List(ring), i)[k - i] == PairOf(ring[k])
    decreases |ring| - i
  {
    if i < |ring| {
      FlattenRing(ring, i + 1);
    }
  }

  /** A position with a third coordinate (altitude) is not a pair and contributes nothing. */
  lemma ThreeCoordinatesIgnored(x: Value, y: Value, z: Value)
    requires IsNumber(x) && IsNumber(y) && IsNumber(z)
    ensures Flatten(List([x, y, z])) == []
  {
    var c := List([x, y, z]);
    assert Flatten(x) == [] && Flatten(y) == [] && Flatten(z) == [];
    assert FlattenFrom(c, 3) == [];
    assert FlattenFrom(c, 2) == [];
    assert FlattenFrom(c, 1) == [];
  }

  // ---------------------------------------------------------------- bounds

  /** `[[minlat, minlon], [maxlat, maxlon]]` */
  datatype Bounds = Bounds(minLat: real, minLon: real, maxLat: real, maxLon: real)

  /** The centre `[(minlat + maxlat) / 2, (minlon + maxlon) / 2]`. */
  function Center(b: Bounds): (real, real) {
    ((b.minLat + b.maxLat) / 2.0, (b.minLon + b.maxLon) / 2.0)
  }

  /** The flattened positions of one feature; `None` when `.get` reaches something that is not a dict. */
  function FeaturePositions(ft: Value): Option<seq<(Value, Value)>> {
    if !ft.Dict? then None
    else
      var geom := Or(Get(ft.entries, "geometry"), EmptyDict);
      if !geom.Dict? then None else Some(Flatten(Get(geom.entries, "coordinates")))
  }

  /**
   * One pass of the `try` block: a position whose first coordinate fails to
   * convert adds nothing, one whose second fails adds only its longitude.
   */
  function GatherStep(acc: (seq<real>, seq<real>), p: (Value, Value)): (seq<real>, seq<real>) {
    match PyFloat(p.0)
    case None => acc
    case Some(x) =>
      match PyFloat(p.1)
      case None => (acc.0 + [x], acc.1)
      case Some(y) => (acc.0 + [x], acc.1 + [y])
  }

  /** The longitudes and latitudes appended to `acc` by the `try` block over `pts`, in order. */
  function GatherFrom(acc: (seq<real>, seq<real>), pts: seq<(Value, Value)>): (seq<real>, seq<real>)
    decreases |pts|
  {
    if pts == [] then acc else GatherFrom(GatherStep(acc, pts[0]), pts[1..])
  }

  /** The same over every feature in turn; `None` when some feature raises. */
  function CollectFrom(acc: (seq<real>, seq<real>), feats: seq<Value>): Option<(seq<real>, seq<real>)>
    decreases |feats|
  {
    if feats == [] then Some(acc)
    else
      match FeaturePositions(feats[0])
      case None => None
      case Some(pts) => CollectFrom(GatherFrom(acc, pts), feats[1..])
  }

  /** `bounds_center_from_geojson` without the centre: `Ok(None)` for `(None, None)`. */
  function BoundsOf(gj: Value): Result<Option<Bounds>> {
    if !Truthy(gj) then Ok(None)
    else if !gj.Dict? then Raised
    else
      match Iterate(Or(Get(gj.entries, "features"), List([])))
      case None => Raised
      case Some(feats) =>
        match CollectFrom(([], []), feats)
        case None => Raised
        case Some((lons, lats)) =>
          if lons == [] || lats == [] then Ok(None)
          else Ok(Some(Bounds(MinOf(lats), MinOf(lons), MaxOf(lats), MaxOf(lons))))
  }

  /** The `try` block for one position: append the longitude, then the latitude, stopping at the first failure. */
  method GatherPoint(lons0: seq<real>, lats0: seq<real>, p: (Value, Value)) returns (lons: seq<real>, lats: seq<real>)
    ensures (lons, lats) == GatherStep((lons0, lats0), p)
  {
    lons, lats := lons0, lats0;
    var x := PyFloat(p.0);
    if x.Some? {
      lons := lons + [x.value];
      var y := PyFloat(p.1);
      if y.Some? {
        lats := lats + [y.value];
      }
    }
  }

  /** The inner loop over the positions of one feature. */
  method GatherInto(lons0: seq<real>, lats0: seq<real>, pts: seq<(Value, Value)>) returns (lons: seq<real>, lats: seq<real>)
    ensures (lons, lats) == GatherFrom((lons0, lats0), pts)
  {
    lons, lats := lons0, lats0;
    for j := 0 to |pts|
      invariant GatherFrom((lons, lats), pts[j..]) == GatherFrom((lons0, lats0), pts)
    {
      assert pts[j..][1..] == pts[j + 1..];
      lons, lats := GatherPoint(lons, lats, pts[j]);
    }
  }

  /** The outer loop over the features; `None` when a feature raises. */
  method GatherFeatures(feats: seq<Value>) returns (r: Option<(seq<real>, seq<real>)>)
    ensures r == CollectFrom(([], []), feats)
  {
    var lons: seq<real>, lats: seq<real> := [], [];
    for i := 0 to |feats|
      invariant CollectFrom((lons, lats), feats[i..]) == CollectFrom(([], []), feats)
    {
      assert feats[i..][1..] == feats[i + 1..];
      if !feats[i].Dict? {
        return None;
      }
      var geom := Or(Get(feats[i].entries, "geometry"), EmptyDict);
      if !geom.Dict? {
        return None;
      }
      var pts := FlattenCoords(Get(geom.entries, "coordinates"));
      lons, lats := GatherInto(lons, lats, pts);
    }
    return Some((lons, lats));
  }

  /** `bounds_center_from_geojson`: the bounds and their centre, or `None` for `(None, None)`. */
  method BoundsCenterFromGeojson(gj: Value) returns (r: Result<Option<(Bounds, (real, real))>>)
    ensures BoundsOf(gj).Raised? ==> r == Raised
    ensures BoundsOf(gj) == Ok(None) ==> r == Ok(None)
    ensures BoundsOf(gj).Ok? && BoundsOf(gj).value.Some? ==>
      var b := BoundsOf(gj).value.value; r == Ok(Some((b, Center(b))))
  {
    if !Truthy(gj) {
      return Ok(None);
    }
    if !gj.Dict? {
      return Raised;
    }
    var it := Iterate(Or(Get(gj.entries, "features"), List([])));
    if it.None? {
      return Raised;
    }
    var acc := GatherFeatures(it.value);
    if acc.None? {
      return Raised;
    }
    var (lons, lats) := acc.value;
    if lons == [] || lats == [] {
      return Ok(None);
    }
    var b := Bounds(MinOf(lats), MinOf(lons), MaxOf(lats), MaxOf(lons));
    return Ok(Some((b, Center(b))));
  }

  /** One step only appends; a position whose two coordinates convert appends both. */
  lemma GatherStepExtends(acc: (seq<real>, seq<real>), p: (Value, Value))
    ensures acc.0 <= GatherStep(acc, p).0 && acc.1 <= GatherStep(acc, p).1
    ensures PyFloat(p.0).Some? && PyFloat(p.1).Some? ==>
      GatherStep(acc, p) == (acc.0 + [PyFloat(p.0).value], acc.1 + [PyFloat(p.1).value])
  {
  }

  /** What has been collected stays collected: gathering only appends. */
  lemma {:induction false} GatherFromExtends(acc: (seq<real>, seq<real>), pts: seq<(Value, Value)>)
    ensures acc.0 <= GatherFrom(acc, pts).0 && acc.1 <= GatherFrom(acc, pts).1
    decreases |pts|
  {
    if pts != [] {
      var next := GatherStep(acc, pts[0]);
      GatherStepExtends(acc, pts[0]);
      GatherFromExtends(next, pts[1..]);
    }
  }

  /** A position whose two coordinates convert contributes its longitude and its latitude. */
  lemma {:induction false} GatherFromContains(acc: (seq<real>, seq<real>), pts: seq<(Value, Value)>, k: nat)
    requires k < |pts| && PyFloat(pts[k].0).Some? && PyFloat(pts[k].1).Some?
    ensures PyFloat(pts[k].0).value in GatherFrom(acc, pts).0 && PyFloat(pts[k].1).value in GatherFrom(acc, pts).1
    decreases |pts|
  {
    var next := GatherStep(acc, pts[0]);
    assert GatherFrom(acc, pts) == GatherFrom(next, pts[1..]);
    if k == 0 {
      var x, y := PyFloat(pts[0].0).value, PyFloat(pts[0].1).value;
      GatherStepExtends(acc, pts[0]);
      GatherFromExtends(next, pts[1..]);
      var r := GatherFrom(next, pts[1..]);
      assert r.0[|acc.0|] == next.0[|acc.0|] == x;
      assert r.1[|acc.1|] == next.1[|acc.1|] == y;
    } else {
      assert pts[1..][k - 1] == pts[k];
      GatherFromContains(next, pts[1..], k - 1);
    }
  }

  /** Collecting over features only appends. */
  lemma {:induction false} CollectFromExtends(acc: (seq<real>, seq<real>), feats: seq<Value>)
    requires CollectFrom(acc, feats).Some?
    ensures acc.0 <= CollectFrom(acc, feats).value.0 && acc.1 <= CollectFrom(acc, feats).value.1
    decreases |feats|
  {
    if feats != [] {
      var pts := FeaturePositions(feats[0]).value;
      GatherFromExtends(acc, pts);
      CollectFromExtends(GatherFrom(acc, pts), feats[1..]);
    }
  }

  /** Every convertible position of every feature ends up among the collected coordinates. */
  lemma {:induction false} CollectFromContains(acc: (seq<real>, seq<real>), feats: seq<Value>, i: nat, k: nat)
    requires CollectFrom(acc, feats).Some?
    requires i < |feats| && FeaturePositions(feats[i]).Some?
    requires var pts := FeaturePositions(feats[i]).value; k < |pts| && PyFloat(pts[k].0).Some? && PyFloat(pts[k].1).Some?
    ensures var p, r := FeaturePositions(feats[i]).value[k], CollectFrom(acc, feats).value;
      PyFloat(p.0).value in r.0 && PyFloat(p.1).value in r.1
    decreases |feats|
  {
    var pts := FeaturePositions(feats[0]).value;
    var mid := GatherFrom(acc, pts);
    if i == 0 {
      GatherFromContains(acc, pts, k);
      CollectFromExtends(mid, feats[1..]);
      var p, r := pts[k], CollectFrom(acc, feats).value;
      var x, y := PyFloat(p.0).value, PyFloat(p.1).value;
      var a :| 0 <= a < |mid.0| && mid.0[a] == x;
      var b :| 0 <= b < |mid.1| && mid.1[b] == y;
      assert r.0[a] == r.0[..|mid.0|][a];
      assert r.1[b] == r.1[..|mid.1|][b];
    } else {
      CollectFromContains(mid, feats[1..], i - 1, k);
    }
  }

  /**
   * Every position of every feature whose coordinates convert lies inside
   * the bounds, and the centre, their midpoint, lies inside as well.
   */
  lemma BoundsContainPoints(gj: Value, i: nat, k: nat)
    requires BoundsOf(gj).Ok? && BoundsOf(gj).value.Some?
    requires gj.Dict? && Iterate(Or(Get(gj.entries, "features"), List([]))).Some?
    requires var feats := Iterate(Or(Get(gj.entries, "features"), List([]))).value;
      i < |feats| && FeaturePositions(feats[i]).Some?
      && k < |FeaturePositions(feats[i]).value|
      && PyFloat(FeaturePositions(feats[i]).value[k].0).Some? && PyFloat(FeaturePositions(feats[i]).value[k].1).Some?
    ensures var p := FeaturePositions(Iterate(Or(Get(gj.entries, "features"), List([]))).value[i]).value[k];
      var b, lon, lat := BoundsOf(gj).value.value, PyFloat(p.0).value, PyFloat(p.1).value;
      && b.minLon <= lon <= b.maxLon && b.minLat <= lat <= b.maxLat
      && b.minLat <= Center(b).0 <= b.maxLat && b.minLon <= Center(b).1 <= b.maxLon
  {
    var feats := Iterate(Or(Get(gj.entries, "features"), List([]))).value;
    CollectFromContains(([], []), feats, i, k);
  }

  /** Features without positions give no bounds: `(None, None)`. */
  lemma {:induction false} NoPositionsNoBounds(acc: (seq<real>, seq<real>), feats: seq<Value>)
    requires forall i :: 0 <= i < |feats| ==> FeaturePositions(feats[i]) == Some([])
    ensures CollectFrom(acc, feats) == Some(acc)
    decreases |feats|
  {
    if feats != [] {
      assert FeaturePositions(feats[0]) == Some([]);
      NoPositionsNoBounds(acc, feats[1..]);
    }
  }

  /** A collection whose features all have no positions gets no bounds: `(None, None)`. */
  lemma NoPositionsBoundsOf(gj: Value)
    requires gj.Dict? && Iterate(Or(Get(gj.entries, "features"), List([]))).Some?
    requires var feats := Iterate(Or(Get(gj.entries, "features"), List([]))).value;
      forall i :: 0 <= i < |feats| ==> FeaturePositions(feats[i]) == Some([])
    ensures BoundsOf(gj) == Ok(None)
  {
    NoPositionsNoBounds(([], []), Iterate(Or(Get(gj.entries, "features"), List([]))).value);
  }
}
