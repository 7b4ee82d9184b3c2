/**
 * `slugify` of `add_candidato.py`: the folder and file name a new candidate
 * gets. The name is lower-cased, its accented vowels and `ç` lose their
 * accents, every run of characters outside `[a-z0-9]` becomes one `_`, and
 * leading and trailing `_` are stripped.
 */
module Slug {
  import opened PyText
  import Seqs

  /** The six accent substitutions; their character classes are disjoint, so they act as one map on characters. */
  function Deaccent(c: char): (r: char)
    ensures r == c || (r in "aeiouc" && !('a' <= c <= 'z'))
  {
    if '\U{E0}' <= c <= '\U{E5}' then 'a'
    else if '\U{E8}' <= c <= '\U{EB}' then 'e'
    else if '\U{EC}' <= c <= '\U{EF}' then 'i'
    else if '\U{F2}' <= c <= '\U{F6}' then 'o'
    else if '\U{F9}' <= c <= '\U{FC}' then 'u'
    else if c == '\U{E7}' then 'c'
    else c
  }

  function DeaccentAll(s: string): (r: string)
    ensures |r| == |s| && forall i :: 0 <= i < |s| ==> r[i] == Deaccent(s[i])
  {
    seq(|s|, i requires 0 <= i < |s| => Deaccent(s[i]))
  }

  /** The characters `[a-z0-9]` keeps. */
  predicate IsSlugChar(c: char) {
    ('a' <= c <= 'z') || ('0' <= c <= '9')
  }

  /** The `[a-z0-9]` characters of `s`, in order. */
  function Letters(s: string): (r: string)
    ensures forall i :: 0 <= i < |r| ==> IsSlugChar(r[i])
  {
    if s == [] then [] else Letters(s[..|s| - 1]) + (if IsSlugChar(s[|s| - 1]) then [s[|s| - 1]] else [])
  }

  lemma LettersSnoc(t: string, c: char)
    ensures Letters(t + [c]) == Letters(t) + (if IsSlugChar(c) then [c] else [])
  {
    assert (t + [c])[..|t|] == t;
  }

  /**
   * `re.sub(r'[^a-z0-9]+', '_', s)`: every maximal run of other characters
   * becomes a single `_`. `CollapseKeepsLetters` says that the `[a-z0-9]`
   * characters are kept, in order; `CollapseAppend`, `CollapseRun` and
   * `CollapseOfSlug` say where the `_` go.
   */
  function Collapse(s: string): (r: string)
    ensures r == [] <==> s == []
    ensures forall i :: 0 <= i < |r| ==> IsSlugChar(r[i]) || r[i] == '_'
    ensures forall i, j :: 0 <= i && j == i + 1 && j < |r| ==> !(r[i] == '_' && r[j] == '_')
    ensures r != [] ==> (r[|r| - 1] == '_' <==> !IsSlugChar(s[|s| - 1]))
    ensures r != [] ==> (r[0] == '_' <==> !IsSlugChar(s[0]))
  {
    if s == [] then []
    else
      var n := |s| - 1;
      var init := Collapse(s[..n]);
      assert init != [] ==> s[..n][0] == s[0];
      if IsSlugChar(s[n]) then init + [s[n]]
      else if n > 0 && !IsSlugChar(s[n - 1]) then init
      else init + ['_']
  }

  /** `re.sub` keeps every character of `[a-z0-9]`, in order, and adds no other letter or digit. */
  lemma {:induction false} CollapseKeepsLetters(s: string)
    ensures Letters(Collapse(s)) == Letters(s)
    decreases |s|
  {
    if s != [] {
      var n := |s| - 1;
      CollapseKeepsLetters(s[..n]);
      LettersSnoc(Collapse(s[..n]), s[n]);
      LettersSnoc(Collapse(s[..n]), '_');
    }
  }

  /**
   * Two pieces collapse separately when they do not split a run, that is
   * when the first ends or the second starts with a character of `[a-z0-9]`.
   */
  lemma {:induction false} CollapseAppend(x: string, y: string)
    requires y == [] || IsSlugChar(y[0]) || (x != [] && IsSlugChar(x[|x| - 1]))
    ensures Collapse(x + y) == Collapse(x) + Collapse(y)
    decreases |y|
  {
    if y == [] {
      assert x + y == x;
    } else {
      var n := |y| - 1;
      if n > 0 {
        assert y[..n][0] == y[0];
        CollapseAppend(x, y[..n]);
      } else {
        assert y[..n] == [] && x + y[..n] == x;
      }
      CollapseAppendStep(x, y[..n], y[n]);
      assert y[..n] + [y[n]] == y;
    }
  }

  /** The step of `CollapseAppend`: one more character on the second piece. */
  lemma CollapseAppendStep(x: string, y: string, c: char)
    requires y != [] || IsSlugChar(c) || (x != [] && IsSlugChar(x[|x| - 1]))
    requires Collapse(x + y) == Collapse(x) + Collapse(y)
    ensures Collapse(x + (y + [c])) == Collapse(x) + Collapse(y + [c])
  {
    Seqs.Associative(x, y, [c]);
    CollapseSnoc(x + y, c);
    CollapseSnoc(y, c);
    CollapseStepAfter(x, y, c);
    Seqs.Associative(Collapse(x), Collapse(y), CollapseStep(y, c));
  }

  /** Whether `c` opens a run depends only on the character before it. */
  lemma CollapseStepAfter(x: string, y: string, c: char)
    requires y != [] || IsSlugChar(c) || (x != [] && IsSlugChar(x[|x| - 1]))
    ensures CollapseStep(x + y, c) == CollapseStep(y, c)
  {
    if y != [] {
      assert (x + y)[|x + y| - 1] == y[|y| - 1];
    } else {
      assert x + y == x;
    }
  }

  /** What one more character `c` after `t` adds to the collapsed text: itself, nothing inside a run, or the `_` that opens a run. */
  function CollapseStep(t: string, c: char): string {
    if IsSlugChar(c) then [c] else if t != [] && !IsSlugChar(t[|t| - 1]) then [] else "_"
  }

  lemma CollapseSnoc(t: string, c: char)
    ensures Collapse(t + [c]) == Collapse(t) + CollapseStep(t, c)
  {
    var s := t + [c];
    assert s[..|t|] == t && s[|t|] == c;
    if t != [] {
      assert s[|t| - 1] == t[|t| - 1];
    }
  }

  /** A non-empty run of characters outside `[a-z0-9]` becomes one `_`. */
  lemma {:induction false} CollapseRun(sep: string)
    requires sep != [] && forall i :: 0 <= i < |sep| ==> !IsSlugChar(sep[i])
    ensures Collapse(sep) == "_"
    decreases |sep|
  {
    var n := |sep| - 1;
    if n > 0 {
      CollapseRun(sep[..n]);
    } else {
      assert sep[..n] == [];
    }
  }

  /** `s.lstrip(c)` */
  function TrimStartChar(s: string, c: char): (r: string)
    ensures |r| <= |s|
    ensures r == [] || r[0] != c
  {
    if s != [] && s[0] == c then TrimStartChar(s[1..], c) else s
  }

  /** `s.rstrip(c)` */
  function TrimEndChar(s: string, c: char): (r: string)
    ensures |r| <= |s|
    ensures r == [] || r[|r| - 1] != c
  {
    if s != [] && s[|s| - 1] == c then TrimEndChar(s[..|s| - 1], c) else s
  }

  /** `lstrip` keeps a suffix of its input. */
  lemma {:induction false} TrimStartCharAt(s: string, c: char, i: nat)
    requires i < |TrimStartChar(s, c)|
    ensures TrimStartChar(s, c)[i] == s[|s| - |TrimStartChar(s, c)| + i]
  {
    if s != [] && s[0] == c {
      TrimStartCharAt(s[1..], c, i);
    }
  }

  /** `rstrip` keeps a prefix of its input. */
  lemma {:induction false} TrimEndCharAt(s: string, c: char, i: nat)
    requires i < |TrimEndChar(s, c)|
    ensures TrimEndChar(s, c)[i] == s[i]
  {
    if s != [] && s[|s| - 1] == c {
      TrimEndCharAt(s[..|s| - 1], c, i);
    }
  }

  /** `s.strip(c)` */
  function StripChar(s: string, c: char): string {
    TrimEndChar(TrimStartChar(s, c), c)
  }


  /** What a slug looks like: only `[a-z0-9_]`, no `__`, and no `_` at either end. */
  predicate IsSlug(s: string) {
    && (forall i :: 0 <= i < |s| ==> IsSlugChar(s[i]) || s[i] == '_')
    && (forall i :: 0 <= i < |s| - 1 ==> !(s[i] == '_' && s[i + 1] == '_'))
    && (s == [] || (s[0] != '_' && s[|s| - 1] != '_'))
  }

  /** `slugify(text)`: whatever the input, the result is a slug. */
  function Slugify(text: string): (r: string)
    ensures IsSlug(r)
  {
    var collapsed := Collapse(DeaccentAll(Lower(text)));
    StripOfRunFree(collapsed);
    StripChar(collapsed, '_')
  }

  /** Stripping `_` from a string without `__` and outside characters leaves a slug. */
  lemma StripOfRunFree(c: string)
    requires forall i :: 0 <= i < |c| ==> IsSlugChar(c[i]) || c[i] == '_'
    requires forall i :: 0 <= i < |c| - 1 ==> !(c[i] == '_' && c[i + 1] == '_')
    ensures IsSlug(StripChar(c, '_'))
  {
    var a := TrimStartChar(c, '_');
    var r := TrimEndChar(a, '_');
    var off := |c| - |a|;
    forall i | 0 <= i < |r| ensures r[i] == c[off + i] {
      TrimEndCharAt(a, '_', i);
      TrimStartCharAt(c, '_', i);
    }
    forall i | 0 <= i < |r| ensures IsSlugChar(r[i]) || r[i] == '_' {
      assert r[i] == c[off + i];
    }
    forall i | 0 <= i < |r| - 1 ensures !(r[i] == '_' && r[i + 1] == '_') {
      assert r[i] == c[off + i] && r[i + 1] == c[off + i + 1];
    }
    if r != [] {
      TrimEndCharAt(a, '_', 0);
    }
  }

  /** No output character is an upper-case letter or an accented letter. */
  lemma SlugifyIsLowerAndPlain(text: string, i: nat)
    requires i < |Slugify(text)|
    ensures var c := Slugify(text)[i]; !IsUpper(c) && Deaccent(c) == c
  {
  }

  /**
   * A name that lower-cases and loses its accents to letters and digits only
   * comes out as exactly that: each accented vowel or `ç` is replaced by its
   * plain letter, in place, and nothing else changes.
   */
  lemma PlainWordSlug(text: string)
    requires forall i :: 0 <= i < |text| ==> IsSlugChar(Deaccent(LowerChar(text[i])))
    ensures Slugify(text) == DeaccentAll(Lower(text))
  {
    PlainLetters(text);
    SlugOfPlain(DeaccentAll(Lower(text)));
  }

  /** Letters and digits alone pass `re.sub` and `strip("_")` unchanged. */
  lemma SlugOfPlain(s: string)
    requires forall i :: 0 <= i < |s| ==> IsSlugChar(s[i])
    ensures StripChar(Collapse(s), '_') == s
  {
    CollapseOfSlug(s);
    StripUntouched(s, '_');
  }

  /** Under the premise of `PlainWordSlug`, the lower-cased, de-accented name is all letters and digits. */
  lemma PlainLetters(text: string)
    requires forall i :: 0 <= i < |text| ==> IsSlugChar(Deaccent(LowerChar(text[i])))
    ensures var s := DeaccentAll(Lower(text)); forall i :: 0 <= i < |s| ==> IsSlugChar(s[i])
  {
    var s := DeaccentAll(Lower(text));
    forall i | 0 <= i < |s| ensures IsSlugChar(s[i]) {
      assert s[i] == Deaccent(LowerChar(text[i]));
    }
  }

  /** `strip(c)` leaves a string that neither starts nor ends with `c` alone. */
  lemma StripUntouched(s: string, c: char)
    requires s == [] || (s[0] != c && s[|s| - 1] != c)
    ensures StripChar(s, c) == s
  {
    assert TrimStartChar(s, c) == s;
  }

  /** `slugify("João") == "joao"` */
  lemma AccentedNameExample(text: string)
    requires text == "Jo\U{E3}o"
    ensures Slugify(text) == "joao"
  {
    var plain := DeaccentAll(Lower(text));
    forall i | 0 <= i < |text| ensures plain[i] == "joao"[i] && IsSlugChar(Deaccent(LowerChar(text[i]))) {
    }
    PlainWordSlug(text);
  }

  /** The capital accented vowels and `Ç` are lower-cased first, then lose their accents: `slugify("ÀÉÎÕÜÇ") == "aeiouc"`. */
  lemma AccentClassesExample(text: string)
    requires text == "\U{C0}\U{C9}\U{CE}\U{D5}\U{DC}\U{C7}"
    ensures Slugify(text) == "aeiouc"
  {
    var plain := DeaccentAll(Lower(text));
    forall i | 0 <= i < |text| ensures plain[i] == "aeiouc"[i] && IsSlugChar(Deaccent(LowerChar(text[i]))) {
    }
    PlainWordSlug(text);
  }

  /** `re.sub` leaves a string that already has no runs alone. */
  lemma {:induction false} CollapseOfSlug(s: string)
    requires forall i :: 0 <= i < |s| ==> IsSlugChar(s[i]) || s[i] == '_'
    requires forall i :: 0 <= i < |s| - 1 ==> !(s[i] == '_' && s[i + 1] == '_')
    ensures Collapse(s) == s
  {
    if s != [] {
      var n := |s| - 1;
      CollapseOfSlug(s[..n]);
      assert s[..n] + [s[n]] == s;
    }
  }

  /** Lower-casing and removing accents act character by character. */
  lemma PlainAppend(x: string, y: string)
    ensures DeaccentAll(Lower(x + y)) == DeaccentAll(Lower(x)) + DeaccentAll(Lower(y))
  {
    LowerAppend(x, y);
    DeaccentAllAppend(Lower(x), Lower(y));
  }

  lemma DeaccentAllAppend(u: string, v: string)
    ensures DeaccentAll(u + v) == DeaccentAll(u) + DeaccentAll(v)
  {
    var l, r := DeaccentAll(u + v), DeaccentAll(u) + DeaccentAll(v);
    forall i | 0 <= i < |l| ensures l[i] == r[i] {
      if i >= |u| {
        assert (u + v)[i] == v[i - |u|];
      }
    }
  }

  /**
   * Two plain words around a separator that has no letter or digit, even
   * after lower-casing and removing accents, are joined by one `_`.
   */
  lemma TwoWordSlug(a: string, sep: string, b: string)
    requires a != [] && sep != [] && b != []
    requires forall i :: 0 <= i < |a| ==> IsSlugChar(Deaccent(LowerChar(a[i])))
    requires forall i :: 0 <= i < |sep| ==> !IsSlugChar(Deaccent(LowerChar(sep[i])))
    requires forall i :: 0 <= i < |b| ==> IsSlugChar(Deaccent(LowerChar(b[i])))
    ensures Slugify(a + sep + b) == DeaccentAll(Lower(a)) + "_" + DeaccentAll(Lower(b))
  {
    var wa, ws, wb := DeaccentAll(Lower(a)), DeaccentAll(Lower(sep)), DeaccentAll(Lower(b));
    PlainAppend(a, sep);
    PlainAppend(a + sep, b);
    PlainLetters(a);
    PlainLetters(b);
    forall i | 0 <= i < |ws| ensures !IsSlugChar(ws[i]) {
      assert ws[i] == Deaccent(LowerChar(sep[i]));
    }
    CollapseTwoWords(wa, ws, wb);
    StripUntouched(wa + "_" + wb, '_');
  }

  /** Letters and digits, a run of other characters, letters and digits: the run becomes one `_`. */
  lemma CollapseTwoWords(wa: string, ws: string, wb: string)
    requires wa != [] && ws != [] && wb != []
    requires forall i :: 0 <= i < |wa| ==> IsSlugChar(wa[i])
    requires forall i :: 0 <= i < |ws| ==> !IsSlugChar(ws[i])
    requires forall i :: 0 <= i < |wb| ==> IsSlugChar(wb[i])
    ensures var r := Collapse(wa + ws + wb);
      r == wa + "_" + wb && r[0] != '_' && r[|r| - 1] != '_'
  {
    CollapseWordThenRun(wa, ws);
    CollapseAppend(wa + ws, wb);
    CollapseOfSlug(wb);
    EndsOfJoined(wa, wb);
  }

  /** A word followed by a run collapses to the word and one `_`. */
  lemma CollapseWordThenRun(wa: string, ws: string)
    requires wa != [] && ws != []
    requires forall i :: 0 <= i < |wa| ==> IsSlugChar(wa[i])
    requires forall i :: 0 <= i < |ws| ==> !IsSlugChar(ws[i])
    ensures Collapse(wa + ws) == wa + "_"
    ensures (wa + ws)[|wa + ws| - 1] == ws[|ws| - 1]
  {
    CollapseAppend(wa, ws);
    CollapseOfSlug(wa);
    CollapseRun(ws);
  }

  lemma EndsOfJoined(wa: string, wb: string)
    requires wa != [] && wb != [] && wa[0] != '_' && wb[|wb| - 1] != '_'
    ensures var r := wa + "_" + wb; r[0] != '_' && r[|r| - 1] != '_'
  {
    var r := wa + "_" + wb;
    assert r[0] == wa[0] && r[|r| - 1] == wb[|wb| - 1];
  }

  /** `slugify("João Silva") == "joao_silva"` */
  lemma TwoWordExample(text: string)
    requires text == "Jo\U{E3}o Silva"
    ensures Slugify(text) == "joao_silva"
  {
    var a, sep, b := "Jo\U{E3}o", " ", "Silva";
    NameSplits(text, a, sep, b);
    JoaoIsPlain(a);
    SilvaIsPlain(b);
    assert !IsSlugChar(Deaccent(LowerChar(sep[0])));
    TwoWordSlug(a, sep, b);
    SlugJoins("joao", "silva");
  }

  lemma NameSplits(text: string, a: string, sep: string, b: string)
    requires text == "Jo\U{E3}o Silva" && a == "Jo\U{E3}o" && sep == " " && b == "Silva"
    ensures text == a + sep + b
  {
  }

  lemma SlugJoins(x: string, y: string)
    requires x == "joao" && y == "silva"
    ensures x + "_" + y == "joao_silva"
  {
  }

  lemma JoaoIsPlain(a: string)
    requires a == "Jo\U{E3}o"
    ensures forall i :: 0 <= i < |a| ==> IsSlugChar(Deaccent(LowerChar(a[i])))
    ensures DeaccentAll(Lower(a)) == "joao"
  {
    forall i | 0 <= i < |a| ensures IsSlugChar(Deaccent(LowerChar(a[i]))) && DeaccentAll(Lower(a))[i] == "joao"[i] {
    }
  }

  lemma SilvaIsPlain(b: string)
    requires b == "Silva"
    ensures forall i :: 0 <= i < |b| ==> IsSlugChar(Deaccent(LowerChar(b[i])))
    ensures DeaccentAll(Lower(b)) == "silva"
  {
    forall i | 0 <= i < |b| ensures IsSlugChar(Deaccent(LowerChar(b[i]))) && DeaccentAll(Lower(b))[i] == "silva"[i] {
    }
  }

  /** Slugifying a slug changes nothing; in particular `slugify` is idempotent. */
  lemma SlugIsFixed(s: string)
    requires IsSlug(s)
    ensures Slugify(s) == s
  {
    SlugIsPlain(s);
    CollapseOfSlug(s);
    StripUntouched(s, '_');
  }

  /** Lower-casing and removing accents leave a slug alone. */
  lemma SlugIsPlain(s: string)
    requires IsSlug(s)
    ensures DeaccentAll(Lower(s)) == s
  {
    var r := DeaccentAll(Lower(s));
    forall i | 0 <= i < |s| ensures r[i] == s[i] {
      PlainChar(s[i]);
    }
  }

  /** A slug character is already lower-case and unaccented. */
  lemma PlainChar(c: char)
    requires IsSlugChar(c) || c == '_'
    ensures LowerChar(c) == c && Deaccent(c) == c
  {
  }

  lemma SlugifyIdempotent(text: string)
    ensures Slugify(Slugify(text)) == Slugify(text)
  {
    SlugIsFixed(Slugify(text));
  }
}
