/**
 * Layer styles (`localiza/styles.py`): the built-in style of a geometry kind,
 * overridden by the style file's per-kind defaults and then by its per-layer
 * entry. Style dicts are association lists in insertion order.
 */
module Styles {
  import opened PyText
  import opened PyValue

  type Entries = seq<(string, Value)>

  /** A Python dict never holds the same key twice. */
  predicate UniqueKeys(d: Entries) {
    forall i, j :: 0 <= i < j < |d| ==> d[i].0 != d[j].0
  }

  // ---------------------------------------------------------------- merge_dict

  /** The dict the merge loop leaves behind: `out`, then every entry of `b` written over it in order. */
  function MergeFrom(out: Entries, b: Entries): Entries
    decreases |b|
  {
    if b == [] then out else MergeFrom(Set(out, b[0].0, b[0].1), b[1..])
  }

  /**
   * `merge_dict(a, b)`: a fresh dict, a copy of `a or {}` overwritten by the
   * items of `b or {}`. Anything else than a dict (after `or {}`) raises.
   */
  function Merge(a: Value, b: Value): (r: Result<Entries>)
    ensures r.Ok? <==> (!Truthy(a) || a.Dict?) && (!Truthy(b) || b.Dict?)
    ensures a.Dict? && !Truthy(b) ==> r == Ok(a.entries)
    ensures !Truthy(a) && b.Dict? ==> r == Ok(MergeFrom([], b.entries))
  {
    var a' := Or(a, EmptyDict);
    var b' := Or(b, EmptyDict);
    if a'.Dict? && b'.Dict? then Ok(MergeFrom(a'.entries, b'.entries)) else Raised
  }

  /** The copy-then-overwrite loop of `merge_dict`. */
  method MergeDict(a: Value, b: Value) returns (r: Result<Entries>)
    ensures r == Merge(a, b)
  {
    var a' := Or(a, EmptyDict);
    if !a'.Dict? {
      return Raised;
    }
    var b' := Or(b, EmptyDict);
    if !b'.Dict? {
      return Raised;
    }
    var items := b'.entries;
    var out := a'.entries;
    var i := 0;
    while i < |items|
      invariant 0 <= i <= |items|
      invariant MergeFrom(out, items[i..]) == MergeFrom(a'.entries, items)
    {
      assert items[i..][1..] == items[i + 1..];
      out := Set(out, items[i].0, items[i].1);
      i := i + 1;
    }
    assert items[i..] == [];
    return Ok(out);
  }

  /**
   * What the merge holds for one key: it is present when either side has it,
   * `b`'s value wins, `a`'s value survives where `b` is silent, and `a`'s keys
   * keep their order at the front.
   */
  lemma {:induction false} MergeFromSpec(out: Entries, b: Entries, k: string)
    ensures HasKey(MergeFrom(out, b), k) <==> HasKey(out, k) || HasKey(b, k)
    ensures !HasKey(b, k) ==> Get(MergeFrom(out, b), k) == Get(out, k)
    ensures UniqueKeys(b) && HasKey(b, k) ==> Get(MergeFrom(out, b), k) == Get(b, k)
    ensures Keys(out) <= Keys(MergeFrom(out, b))
    decreases |b|
  {
    if b != [] {
      var next := Set(out, b[0].0, b[0].1);
      SetSpec(out, b[0].0, b[0].1);
      MergeFromSpec(next, b[1..], k);
      assert HasKey(b, k) <==> b[0].0 == k || HasKey(b[1..], k);
      if UniqueKeys(b) {
        UniqueKeysTail(b);
      }
    }
  }

  /** Dropping the first pair keeps the keys distinct. */
  lemma UniqueKeysTail(b: Entries)
    requires b != [] && UniqueKeys(b)
    ensures UniqueKeys(b[1..])
  {
    forall i, j | 0 <= i < j < |b[1..]| ensures b[1..][i].0 != b[1..][j].0 {
      assert b[1..][i] == b[i + 1] && b[1..][j] == b[j + 1];
    }
  }

  // ---------------------------------------------------------------- geom_kind_from_geom

  /** The kind named by a lower-cased geometry type. */
  function KindOf(g: string): (r: string)
    ensures r in {"point", "line", "polygon", "unknown"}
  {
    if g == "point" || g == "multipoint" then "point"
    else if g == "linestring" || g == "multilinestring" then "line"
    else if g == "polygon" || g == "multipolygon" then "polygon"
    else "unknown"
  }

  /** `geom_kind_from_geom`: `(geom or "").lower()` raises for a value that is not a string. */
  function GeomKind(geom: Value): (r: Result<string>)
    ensures r.Ok? <==> !Truthy(geom) || geom.Str?
    ensures r.Ok? ==> r.value in {"point", "line", "polygon", "unknown"}
    ensures !Truthy(geom) ==> r == Ok("unknown")
  {
    var g := Or(geom, Str(""));
    if g.Str? then Ok(KindOf(Lower(g.s))) else Raised
  }

  /** The classification ignores case: a type and its lower-cased spelling get the same kind. */
  lemma GeomKindIgnoresCase(s: string)
    ensures GeomKind(Str(s)) == GeomKind(Str(Lower(s)))
  {
    LowerIdempotent(s);
  }

  // ---------------------------------------------------------------- default_style_for_kind

  const BaseColor: Value := Str("#2b6cb0")

  /** `default_style_for_kind`: the layer type is not consulted; every kind but polygon and line gets the point style. */
  function DefaultStyle(layerType: string, kind: string): (r: Entries)
    ensures UniqueKeys(r)
    ensures HasKey(r, "color") && Get(r, "color") == BaseColor
    ensures kind == "polygon" ==> Get(r, "fillOpacity") == Float(0.15) && Get(r, "weight") == Int(2)
    ensures kind == "line" ==> !HasKey(r, "fillColor") && Get(r, "weight") == Int(3)
    ensures kind != "polygon" && kind != "line" ==> Get(r, "mode") == Str("circle") && Get(r, "radius") == Int(6)
  {
    var r :=
      if kind == "polygon" then
        [("fillColor", BaseColor), ("fillOpacity", Float(0.15)), ("color", BaseColor), ("weight", Int(2))]
      else if kind == "line" then
        [("color", BaseColor), ("weight", Int(3)), ("opacity", Float(0.9))]
      else
        [("mode", Str("circle")), ("radius", Int(6)), ("color", BaseColor), ("fillColor", BaseColor), ("fillOpacity", Float(0.85))];
    assert UniqueKeys(r);
    GetAt(r, 0); GetAt(r, 1); GetAt(r, 2);
    if |r| > 3 then GetAt(r, 3); r else r
  }

  /** In a dict without repeated keys, the entry at position `j` is what its key looks up. */
  lemma GetAt(d: Entries, j: nat)
    requires UniqueKeys(d) && j < |d|
    ensures HasKey(d, d[j].0) && Get(d, d[j].0) == d[j].1
  {
    HasKeyAt(d, d[j].0, j);
  }

  // ---------------------------------------------------------------- resolve_layer_style

  /** The layer description handed to `resolve_layer_style`: file stem, file name, first geometry type, type. */
  datatype LayerMeta = LayerMeta(stem: string, filename: string, geom: Value, layerType: string)

  /** `meta.get("stem") or meta.get("filename") or ""` */
  function StemOf(meta: LayerMeta): (r: string)
    ensures meta.stem != [] ==> r == meta.stem
    ensures meta.stem == [] ==> r == meta.filename
  {
    if meta.stem != [] then meta.stem else meta.filename
  }

  /** `resolve_layer_style`: kind default, then `styles["defaults"][kind]`, then `styles["layers"][stem]`. */
  function ResolveLayerStyle(meta: LayerMeta, styles: Value): Result<Entries> {
    var cfg := Or(styles, EmptyDict);
    if !cfg.Dict? then Raised
    else
      var defaults := GetOr(cfg.entries, "defaults", EmptyDict);
      var layers := GetOr(cfg.entries, "layers", EmptyDict);
      match GeomKind(meta.geom)
      case Raised => Raised
      case Ok(kind) =>
        var stem := StemOf(meta);
        var base := DefaultStyle(Lower(meta.layerType), kind);
        if !defaults.Dict? then Raised
        else
          match Merge(Dict(base), Get(defaults.entries, kind))
          case Raised => Raised
          case Ok(styled) =>
            if !layers.Dict? then Raised
            else Merge(Dict(styled), Or(Or(Get(layers.entries, stem), Get(layers.entries, Lower(stem))), EmptyDict))
  }

  /** The style file's section `name` (`defaults` or `layers`) as entries; empty when it has none. */
  function Section(styles: Value, name: string): Entries {
    var cfg := Or(styles, EmptyDict);
    if cfg.Dict? && GetOr(cfg.entries, name, EmptyDict).Dict? then GetOr(cfg.entries, name, EmptyDict).entries else []
  }

  /** The entries a section gives for `key`; empty when it gives nothing. */
  function Entry(section: Entries, key: string): Entries {
    var v := Get(section, key);
    if v.Dict? then v.entries else []
  }

  /** The per-layer entry: the exact stem when it has a non-empty entry, the lower-cased stem otherwise. */
  function LayerEntry(styles: Value, stem: string): Entries {
    var layers := Section(styles, "layers");
    if Truthy(Get(layers, stem)) then Entry(layers, stem) else Entry(layers, Lower(stem))
  }

  /**
   * Precedence, key by key: a resolved style takes a key from the layer's own
   * entry, else from the kind's defaults, else from the built-in style.
   */
  lemma ResolvePrecedence(meta: LayerMeta, styles: Value, k: string)
    requires ResolveLayerStyle(meta, styles).Ok? && GeomKind(meta.geom).Ok?
    requires UniqueKeys(Entry(Section(styles, "defaults"), GeomKind(meta.geom).value))
    requires UniqueKeys(LayerEntry(styles, StemOf(meta)))
    ensures var kind := GeomKind(meta.geom).value;
      var kindStyle := Entry(Section(styles, "defaults"), kind);
      var layerStyle := LayerEntry(styles, StemOf(meta));
      var r := ResolveLayerStyle(meta, styles).value;
      Get(r, k) == (if HasKey(layerStyle, k) then Get(layerStyle, k)
                    else if HasKey(kindStyle, k) then Get(kindStyle, k)
                    else Get(DefaultStyle(Lower(meta.layerType), kind), k))
  {
    var kind := GeomKind(meta.geom).value;
    var base := DefaultStyle(Lower(meta.layerType), kind);
    var kindStyle := Entry(Section(styles, "defaults"), kind);
    ResolveIsTwoMerges(meta, styles);
    MergeFromSpec(base, kindStyle, k);
    MergeFromSpec(MergeFrom(base, kindStyle), LayerEntry(styles, StemOf(meta)), k);
  }

  /** A resolved style is the built-in style merged with the kind's defaults, then with the layer's entry. */
  lemma ResolveIsTwoMerges(meta: LayerMeta, styles: Value)
    requires ResolveLayerStyle(meta, styles).Ok? && GeomKind(meta.geom).Ok?
    ensures var base := DefaultStyle(Lower(meta.layerType), GeomKind(meta.geom).value);
      var kindStyle := Entry(Section(styles, "defaults"), GeomKind(meta.geom).value);
      ResolveLayerStyle(meta, styles).value == MergeFrom(MergeFrom(base, kindStyle), LayerEntry(styles, StemOf(meta)))
  {
    var cfg := Or(styles, EmptyDict);
    var defaults := GetOr(cfg.entries, "defaults", EmptyDict);
    var layers := GetOr(cfg.entries, "layers", EmptyDict);
    var kind := GeomKind(meta.geom).value;
    var stem := StemOf(meta);
    var base := DefaultStyle(Lower(meta.layerType), kind);
    var kindStyle := Entry(Section(styles, "defaults"), kind);
    MergeWithEntry(base, Get(defaults.entries, kind));
    var per := Or(Or(Get(layers.entries, stem), Get(layers.entries, Lower(stem))), EmptyDict);
    assert per == Dict(LayerEntry(styles, stem));
    MergeWithEntry(MergeFrom(base, kindStyle), per);
  }

  /** A merge that does not raise writes the entries of its second argument, if any, over the first. */
  lemma MergeWithEntry(base: Entries, v: Value)
    requires Merge(Dict(base), v).Ok?
    ensures Merge(Dict(base), v) == Ok(MergeFrom(base, if v.Dict? then v.entries else []))
  {
  }

  /** The style file `load_layer_styles` falls back to: no defaults, no layers. */
  const NoStyles: Value := Dict([("defaults", EmptyDict), ("layers", EmptyDict)])

  /** Without a style file a layer gets exactly the built-in style of its kind. */
  lemma BuiltInStyleWithoutFile(meta: LayerMeta)
    requires !Truthy(meta.geom) || meta.geom.Str?
    ensures ResolveLayerStyle(meta, NoStyles) == Ok(DefaultStyle(Lower(meta.layerType), GeomKind(meta.geom).value))
  {
    assert GetOr(NoStyles.entries, "defaults", EmptyDict) == EmptyDict;
    assert GetOr(NoStyles.entries, "layers", EmptyDict) == EmptyDict;
    EmptySectionsResolveToBase(meta, NoStyles);
  }

  /** A style file whose two sections are empty leaves every layer with its built-in style. */
  lemma EmptySectionsResolveToBase(meta: LayerMeta, styles: Value)
    requires styles.Dict? && GeomKind(meta.geom).Ok?
    requires GetOr(styles.entries, "defaults", EmptyDict) == EmptyDict
    requires GetOr(styles.entries, "layers", EmptyDict) == EmptyDict
    ensures ResolveLayerStyle(meta, styles) == Ok(DefaultStyle(Lower(meta.layerType), GeomKind(meta.geom).value))
  {
    EmptySectionsKeepBase(DefaultStyle(Lower(meta.layerType), GeomKind(meta.geom).value), GeomKind(meta.geom).value, StemOf(meta));
  }

  /** Merging with the sections of an empty style file changes nothing. */
  lemma EmptySectionsKeepBase(base: Entries, kind: string, stem: string)
    ensures Merge(Dict(base), Get(EmptyDict.entries, kind)) == Ok(base)
    ensures Merge(Dict(base), Or(Or(Get(EmptyDict.entries, stem), Get(EmptyDict.entries, Lower(stem))), EmptyDict)) == Ok(base)
  {
  }
}
