# localiza — a verified model of the vote-map pipeline

LocalizaVotos is a Streamlit dashboard. It draws an election candidate's votes per polling
place on a Folium map, next to reference layers (districts, neighbourhoods, municipalities).
It also shows KPIs and charts, and lets the user select points by drawing a polygon. This
project models, in Dafny, the deterministic core behind the dashboard:

- **Schema** (`localiza/schema.py`):
  - the alias table, `safe_text` and `safe_number` (Brazilian and international
    thousands and decimal separators), and `pick_prop`, the alias resolver that tries the
    exact key before a case-insensitive one;
  - `get_latlon`, `normalize_feature` and `normalize_geojson`;
  - `_flatten_coords` and `bounds_center_from_geojson`.
- **MapFolium** (`localiza/map_folium.py`): `_to_float` and `_fix_latlon`, which swaps
  inverted pairs and checks ranges. It also covers the data side of `add_points_layer`:
  which rows become markers, with which radius, weight, opacity, popup html and heat
  weight.
- **Analytics** (`localiza/analytics.py`): the table `load_votos_df` builds from a
  normalised votes file, and `filter_points_within_polygon`. The filter has two paths:
  - the exact path, with Shapely as a parameter;
  - the bounding-box fallback.
- **Styles** (`localiza/styles.py`): `merge_dict`, the geometry-kind classifier, the
  built-in styles and the three-level precedence of `resolve_layer_style`.
- **Charts** (`localiza/charts.py`): the aggregations behind the top-N bar charts
  (group, sum, rank, drop blank labels, head) and the vote-band histogram.
- **Slug** (`add_candidato.py`): `slugify`.
- **UiRules** (`localiza/ui.py`): the decision rules written inline in the candidate page:
  - the base identifier and layer matching, and the per-municipality test;
  - the dotted thousands format and the vote-range filter;
  - which drawing becomes the polygon selection, and the candidate picker.

Supporting modules:

- **PyValue** models the Python and JSON values the code handles: `None`, bools, ints,
  floats as reals, strings, lists, and dicts as association lists in insertion order. It
  also models `str()`, `float()`, truthiness, `.get` and `d[k] = v`.
- **PyText** models the string methods the code uses (`strip`, `lower`, `replace`, `rfind`,
  `startswith`, `in`).
- **Seqs** holds order-preserving selection (`FilterMap`, `Filter`) and the lemmas saying
  that a selection is a subsequence.
- **Frame** models the few pandas operations involved: column assignment, boolean-mask
  selection, `dropna`, and `to_numeric(errors="coerce").fillna(0)`.

How failures and loops are modelled:

- Exceptions that escape a function are the `Raised` case of a `Result`.
- Caught exceptions are modelled at the `try` they are caught in.
- Loops in the source are methods with loop invariants, each proved equal to a function
  about which the properties are proved as lemmas.

Behaviours of the code worth knowing, which the model keeps as written:

- The code has no coordinate scale repair: `_fix_latlon` only swaps the pair
  (`localiza/map_folium.py:106-107`) and then checks the ranges.
- A lone dot is always a decimal point (`localiza/schema.py:89-91`), so `"1.250"` is 1.25.
- Negative vote counts are not clamped.
- A feature whose geometry is `null` is normalised, not skipped: `ft or {}` and
  `geometry or {}` (`localiza/schema.py:134-135`) turn it into empty values.

## Model

| member | source | states |
|---|---|---|
| Schema.Aliases | localiza/schema.py:6-42 | every canonical field has a non-empty alias list, in the source's priority order |
| Schema.SafeText | localiza/schema.py:45-51 | the result is "" or the stripped text of the value; it is "" exactly for `None`, blank text and the spellings nan/none/null in any case; it is always clean (no surrounding whitespace, never a sentinel) |
| Schema.SafeTextIdempotent | localiza/schema.py:45-51 | sanitising a sanitised text changes nothing |
| Schema.NormalizeSeparators | localiza/schema.py:75-91 | the separator rules on a stripped text without spaces; their properties are the lemmas below |
| Schema.SafeNumber | localiza/schema.py:54-96 | `None` maps to `None`; ints and floats go through `float()` untouched (a float is returned as itself, an int in range as itself); blank and sentinel texts give `None`; any other text goes through `float()`, which strips it again, after the separator rules (lemmas below) |
| Schema.SeparatorsLeaveNoComma | localiza/schema.py:75-91 | the text handed to `float()` never contains ',', gains no space, and a text without ',' is left unchanged |
| Schema.SeparatorsKeepDigits | localiza/schema.py:77-91 | the separator rules only delete or rewrite '.' and ','; every other character is kept in order |
| Schema.RightmostSeparatorIsDecimal | localiza/schema.py:77-88 | the rightmost separator becomes the decimal point '.' and everything after it is kept |
| Schema.GroupedDecimal | localiza/schema.py:78-84 | for separator-free digit groups `a`, `b`, `c`, both `a.b,c` and `a,b.c` become `ab.c`: the rightmost separator is the decimal point and the other is dropped |
| Schema.BrazilianGroupingExample | localiza/schema.py:78-81 | the separator rules turn "1.234,56" into "1234.56" |
| Schema.InternationalGroupingExample | localiza/schema.py:82-84 | the separator rules turn "1,234.56" into "1234.56" |
| Schema.LoneCommaExample | localiza/schema.py:85-88 | a lone comma is the decimal point: "1234,56" becomes "1234.56" |
| Schema.LoneCommaDecimal | localiza/schema.py:85-88 | for separator-free digit runs `a` and `c`, `a,c` becomes `a.c`: a lone comma is always the decimal point |
| Schema.LoneDotExample | localiza/schema.py:89-94 | "1.250" parses to 1.25: a lone dot is kept as the decimal point |
| Schema.SentinelExample | localiza/schema.py:71-73 | " NaN " is not a number: the result is `None` |
| Schema.SafeNumberOfUnspaced | localiza/schema.py:71-96 | a non-blank, non-sentinel text without whitespace is parsed after the separator rules |
| Schema.SeparatorsAddNoSpace | localiza/schema.py:77-91 | the separator rules never put whitespace into a text that had none |
| Schema.UncoveredSpaceExample | localiza/schema.py:70-96 | ",\t5.6" is 5.6: dropping the leading thousands separator uncovers a tab, and `float()` strips it |
| Schema.PickProp | localiza/schema.py:99-109 | the nested scan with early returns computes the resolver `Pick` |
| Schema.Pick | localiza/schema.py:99-101 | anything that is not a dict resolves to `None` |
| Schema.CaseIndex | localiza/schema.py:106-108 | the scan finds the first key equal to the alias ignoring case, and no earlier key matches |
| Schema.PickInReturnsWinner | localiza/schema.py:102-108 | the resolver returns the value of the winning entry: the first alias that names any key ignoring case, using its exact key if present, else its first case-insensitive match |
| Schema.WinnerExists | localiza/schema.py:102-108 | as soon as some alias matches some key ignoring case, there is a winner |
| Schema.PickInNoMatch | localiza/schema.py:102-109 | when no alias matches any key even ignoring case, the result is `None` |
| Schema.AliasPriorityExample | localiza/schema.py:102-104 | an earlier alias wins over a later alias that is an exact key |
| Schema.PointLatLon | localiza/schema.py:122-130 | a Point fallback result comes from a dict geometry of type "Point" with at least two coordinates, read as `(coords[1], coords[0])`; when both convert the fallback is exactly that pair |
| Schema.GetLatLon | localiza/schema.py:112-130 | when both property coordinates parse they are returned as they are (no range check); any other result is the Point fallback |
| Schema.PropertiesOutrankGeometry | localiza/schema.py:117-120 | once both property coordinates parse, the geometry never influences the result |
| Schema.PointFallbackExample | localiza/schema.py:123-127 | without property coordinates, a Point `[lon, lat]` yields `(lat, lon)` |
| Schema.Forced | localiza/schema.py:146-149 | the override name is always a clean text |
| Schema.Normalized | localiza/schema.py:133-171 | `normalize_feature` as a value: a raise, or the record with the updated properties; its properties are the lemmas below |
| Schema.NormalizedRaises | localiza/schema.py:133-155 | `normalize_feature` raises exactly when the feature is truthy but not a dict, or its properties are a truthy number (the `in` test at line 154) |
| Schema.NormalizedFieldsClean | localiza/schema.py:137-142 | every text field of a record is a `safe_text` result |
| Schema.NormalizedCoordinatesPaired | localiza/schema.py:151 | latitude and longitude are found together or not at all |
| Schema.NormalizedVotes | localiza/schema.py:143-144 | the vote count is the parsed vote alias, and 0.0 when it is missing or does not parse |
| Schema.NormalizedNameOverride | localiza/schema.py:146-149 | the override replaces the alias-resolved name exactly when its sanitised value is non-empty |
| Schema.NormalizedWriteBack | localiza/schema.py:153-155 | `QT_VOTOS` is added with the parsed count exactly when the properties lack it and a vote alias was found; no other key is added, removed or changed |
| Schema.NormalizeGeojson | localiza/schema.py:174-182 | the loop yields the records of the features that normalise, in order; an unusable `features` value raises |
| Schema.CollectionKeepsOrder | localiza/schema.py:174-182 | the k-th record comes from feature `idx[k]`, the positions increase, there are at most as many records as features, and a feature is used exactly when it normalises |
| Schema.NullFeatureIsKept | localiza/schema.py:134-135 | a `null` feature becomes an empty record with 0 votes and no coordinates; it is not skipped |
| Schema.Flatten | localiza/schema.py:190-204 | every flattened position is a pair of numbers |
| Schema.FlattenCoords | localiza/schema.py:190-204 | the recursive walk extending `out` computes `Flatten` |
| Schema.FlattenRing | localiza/schema.py:194-203 | a list of positions flattens to those positions, in order |
| Schema.ThreeCoordinatesIgnored | localiza/schema.py:194-200 | a position with a third coordinate contributes nothing |
| Schema.GatherFeatures | localiza/schema.py:211-220 | the nested loops over features and positions compute the collected longitudes and latitudes, failing when a feature is not a dict |
| Schema.BoundsCenterFromGeojson | localiza/schema.py:207-227 | the result is the bounds of the collected coordinates with their midpoint as centre, `(None, None)` when there are none, and a raise when the collection raises |
| Schema.BoundsContainPoints | localiza/schema.py:221-227 | every convertible position of every feature lies inside the bounds, and so does the centre |
| Schema.NoPositionsNoBounds | localiza/schema.py:214-222 | features without positions leave the collected longitudes and latitudes as they were |
| Schema.NoPositionsBoundsOf | localiza/schema.py:207-222 | a collection whose features all have no positions gets the result `(None, None)` |
| MapFolium.ToFloat | localiza/map_folium.py:86-92 | `None` for `None`, otherwise `float(x)` with `None` for any value it rejects |
| MapFolium.FixLatLon | localiza/map_folium.py:95-113 | no result when either coordinate fails to convert, otherwise the repair rule on the two numbers |
| MapFolium.FixPair | localiza/map_folium.py:105-113 | every result is in range; an in-range pair comes back unchanged; a pair with an out-of-range latitude and a latitude-like longitude is swapped, and kept exactly when it is then in range; anything else out of range is rejected |
| MapFolium.FixPairIdempotent | localiza/map_folium.py:105-113 | repairing a repaired pair changes nothing |
| MapFolium.FixPairSwapsExactly | localiza/map_folium.py:106-107 | a result is the swapped pair exactly when `abs(lat) > 90` and `abs(lon) <= 90` |
| MapFolium.PopupCols | localiza/map_folium.py:152 | the popup columns are the given ones, or the five defaults when none are given |
| MapFolium.BuildPopup | localiza/map_folium.py:179-190 | the html built line by line is the popup of the row |
| MapFolium.PopupListsPresentColumns | localiza/map_folium.py:180-184 | the popup holds one line for exactly the columns the row has, in column order |
| MapFolium.RowPoint | localiza/map_folium.py:166-191 | the head of the loop body: no point when `_fix_latlon` rejects the row, otherwise the repaired position, the votes (0 when missing) and the popup |
| MapFolium.MarkerFor | localiza/map_folium.py:193-214 | a `Circle` in circle mode, else a `CircleMarker`; the vote-scaled radius only for circles with `radius_mode == "votes"`; no marker exactly when the weight or the fill opacity does not convert |
| MapFolium.AddPoint | localiza/map_folium.py:176-214 | one accepted point appends its heat point (heat map on) and its marker, or fails when the marker raises |
| MapFolium.PlaceMarkers | localiza/map_folium.py:165-214 | the row loop yields the markers and heat points of the accepted rows in row order; it fails exactly when some row is accepted and the marker style does not convert |
| MapFolium.PlaceRow | localiza/map_folium.py:167-214 | one pass of the row loop: a row whose coordinates do not repair adds nothing; an accepted row adds its marker and, with the heat map on, its heat point; the pass fails exactly when the row is accepted and the marker style does not convert |
| MapFolium.PointsLayer | localiza/map_folium.py:141-217 | the data `add_points_layer` hands to Folium (markers, heat points, heat layer), or a raise; its properties are the lemmas below |
| MapFolium.AddPointsLayer | localiza/map_folium.py:141-217 | the whole call equals the layer value `PointsLayer`, including the raises of its style lookups |
| MapFolium.MarkersFollowRows | localiza/map_folium.py:165-172 | there is a marker for exactly the rows `_fix_latlon` accepts, in row order, each at its repaired position |
| MapFolium.MarkersInRange | localiza/map_folium.py:169-172 | every marker lies in the valid latitude and longitude ranges |
| MapFolium.HeatWeighsVotes | localiza/map_folium.py:164-177 | the `k`-th heat point weighs `max(0.1, votes)` of the `k`-th accepted row |
| MapFolium.HeatFollowsMarkers | localiza/map_folium.py:176-177 | with the heat map on there is one heat point per marker, at the marker's position, weighing at least 0.1; with it off there are none; the heat layer is added exactly when it is on and there is a marker |
| MapFolium.RadiusRule | localiza/map_folium.py:193-214 | a marker is vote-scaled exactly in circle mode with `radius_mode == "votes"`; every other marker gets `float(style.get("radius", 6))` |
| MapFolium.DefaultRadius | localiza/map_folium.py:156 | without a `radius` entry the fixed radius is 6 |
| MapFolium.PointsLayerRaises | localiza/map_folium.py:141-214 | the call raises exactly when the style is not a dict, the radius does not convert, or some row is accepted and the weight or fill opacity does not convert |
| Analytics.VotesTable | localiza/analytics.py:18-41 | the table `load_votos_df` returns for a parsed votes file, or a raise; its properties are the lemmas below |
| Analytics.LoadVotosDf | localiza/analytics.py:18-41 | the function on the parsed file equals `VotesTable`: empty for a falsy file or no records, a raise when normalising raises, otherwise the derived table |
| Analytics.DeriveColumns | localiza/analytics.py:29-40 | the column statements and `dropna`, one at a time, give the loaded table |
| Analytics.ChooseBairroDistrito | localiza/analytics.py:32-35 | `Bairro/Distrito` holds every row's district when some district is non-blank after stripping, and every row's neighbourhood otherwise; the column is appended after the others |
| Analytics.CoerceVotes | localiza/analytics.py:38 | coercing `qt_votos` to a number (0.0 where it does not convert) leaves every record's normalised vote count as a float, and changes no other cell and no column |
| Analytics.CopyColumns | localiza/analytics.py:24-31 | after the copy statements, every row holds its record's copied name, address and municipality, and the columns are the record columns plus `Endereço` and `Município` |
| Analytics.LoadedRowColumns | localiza/analytics.py:29-38 | `local_votacao`, `Endereço` and `Município` copy the record's name, address and municipality; `Bairro/Distrito` comes from `distrito` for every row when any record has one, else from `bairro` for every row; `qt_votos` is the parsed count |
| Analytics.LoadedTableLocated | localiza/analytics.py:40 | every row of the table has both coordinates |
| Analytics.LoadedTableOrder | localiza/analytics.py:23-40 | the table has one row per record with coordinates, in record order, and every such record is used |
| Analytics.WithinPolygon | localiza/analytics.py:43-82 | the filter as a value: the table unchanged, the rows a selection keeps, or a raise; its properties are the lemmas below |
| Analytics.FilterPointsWithinPolygon | localiza/analytics.py:43-82 | the function, with its mask loop, equals `WithinPolygon`: unchanged, filtered by the box, filtered by containment, or raised |
| Analytics.Contained | localiza/analytics.py:75-78 | one mask entry: containment of the converted point, and `False` when conversion or the test raises |
| Analytics.InsideMask | localiza/analytics.py:73-78 | the mask has one entry per row, in row order |
| Analytics.WithinPolygonSubsequence | localiza/analytics.py:43-82 | the result keeps the columns and is a subsequence of the input rows, in their order |
| Analytics.WithinPolygonFailsOpen | localiza/analytics.py:44-71 | an empty table, a falsy polygon, a non-polygon geometry type, a shape that does not build, or (without Shapely) a polygon with no flattened vertices returns the table unchanged |
| Analytics.BoxFallbackKeepsBoxedRows | localiza/analytics.py:52-66 | without Shapely the result holds exactly the rows inside the closed bounding box of the polygon's vertices |
| Analytics.BoundingBoxHoldsVertices | localiza/analytics.py:54-60 | every flattened vertex lies inside the box |
| Analytics.BoundingBoxIsTight | localiza/analytics.py:54-60 | each of the four bounds is the longitude or latitude of some vertex, so no smaller box holds them all |
| Analytics.ExactPathKeepsContained | localiza/analytics.py:73-82 | on the exact path a row is kept exactly when its coordinates convert and the polygon contains it without raising |
| Styles.Merge | localiza/styles.py:8-12 | with dict arguments (or falsy ones, read as `{}`) the merge succeeds; a falsy `b` gives a copy of `a`; a truthy non-dict argument raises |
| Styles.MergeDict | localiza/styles.py:8-12 | the copy-then-overwrite loop computes `Merge` |
| Styles.MergeFromSpec | localiza/styles.py:9-12 | a key is present when either side has it; `b`'s value wins; `a`'s value survives where `b` is silent; `a`'s keys stay present |
| Styles.GeomKind | localiza/styles.py:14-22 | the kind is one of point, line, polygon, unknown; a falsy geometry is unknown; a non-string raises |
| Styles.KindOf | localiza/styles.py:16-22 | the six geometry type names map to their three kinds, everything else to unknown |
| Styles.GeomKindIgnoresCase | localiza/styles.py:15 | a type and its lower-cased spelling get the same kind |
| Styles.DefaultStyle | localiza/styles.py:35-42 | each built-in style has distinct keys and the base colour; polygons and lines get their own values; every other kind gets the circle point style of radius 6 |
| Styles.StemOf | localiza/styles.py:50 | the stem, or the file name when the stem is empty |
| Styles.ResolveLayerStyle | localiza/styles.py:44-59 | the style of one layer, or a raise; its properties are the lemmas below |
| Styles.ResolvePrecedence | localiza/styles.py:44-59 | key by key, the resolved style takes the layer's own entry, else the kind's defaults, else the built-in style |
| Styles.ResolveIsTwoMerges | localiza/styles.py:52-57 | the resolved style is the built-in style merged with the kind's defaults and then with the layer entry (exact stem first, then lower-cased stem) |
| Styles.BuiltInStyleWithoutFile | localiza/styles.py:24-59 | with the fallback style file (no defaults, no layers) a layer gets exactly its built-in style |
| Charts.GroupSums | localiza/charts.py:7-9 | `groupby(label)["qt_votos"].sum()`: one total per label, each the sum of its rows' votes (lemmas below); the model keeps the groups in order of first appearance, where pandas orders them by label (see "## Left out") |
| Charts.GroupSumsDistinct | localiza/charts.py:7-9 | each label has a single group |
| Charts.GroupSumsCovers | localiza/charts.py:7-9 | every row's label has a group |
| Charts.GroupSumsAt | localiza/charts.py:7-9 | each group's label occurs in the rows, and its total is the sum of the votes of the rows with that label |
| Charts.SortDescSpec | localiza/charts.py:10 | the ranking is in descending order of total and is a permutation of the groups |
| Charts.SortDesc | localiza/charts.py:10 | `sort_values(ascending=False)`: the ranking is a permutation of the groups (its order is given by the next two lemmas) |
| Charts.SortDescStable | localiza/charts.py:10 | groups `i < j` with equal totals appear in the ranking in that order; pandas leaves this order unspecified (see "## Left out") |
| Charts.Head | localiza/charts.py:13 | `head(n)` is a prefix, of length `min(n, len)` for a non-negative `n` |
| Charts.TopGroups | localiza/charts.py:6-15 | the aggregation raises exactly when the label or `qt_votos` column is missing |
| Charts.TopLocais | localiza/charts.py:6-15 | `chart_top_locais`'s data: the top groups by `local_votacao`; it raises exactly when `local_votacao` or `qt_votos` is missing |
| Charts.TopIsPrefix | localiza/charts.py:13 | what is shown is the start of the ranking of non-blank labels |
| Charts.RankingSound | localiza/charts.py:7-13 | the ranking is best first, and each entry is a non-blank label of the rows with its true total |
| Charts.TopGroupsSound | localiza/charts.py:6-15 | the shown list is non-empty, has at most `n` entries, is ranked by descending total, and each entry is a non-blank label of the table with its true total |
| Charts.TopGroupsComplete | localiza/charts.py:7-13 | a non-blank label that is not shown has a total no larger than any shown one |
| Charts.BairroColumn | localiza/charts.py:28 | `Bairro/Distrito` is used exactly when the table has that column, else `bairro` |
| Charts.TopBairros | localiza/charts.py:27-37 | `chart_top_bairros`'s data: the top groups by `Bairro/Distrito`, or by `bairro` without it; it raises exactly when `qt_votos` is missing or neither column is there |
| Charts.TopBairrosOfLoadedTable | localiza/charts.py:27-37 | a table as `load_votos_df` leaves it ranks by `Bairro/Distrito` and does not raise |
| Charts.Votes | localiza/charts.py:56 | a missing vote count counts as 0, and a float counts as itself |
| Charts.Band | localiza/charts.py:54-56 | a value falls in a band exactly when it lies in `[0, 999999]`; band `b` holds `(bins[b], bins[b+1]]`, with 0 in the first band |
| Charts.Histogram | localiza/charts.py:49-57 | no table without a `qt_votos` column; otherwise one row per band label, in the fixed label order |
| Charts.HistogramCountsInRangeRows | localiza/charts.py:54-57 | the band counts add up to the number of rows whose vote count lies in `[0, 999999]` |
| Slug.Collapse | add_candidato.py:25 | only `[a-z0-9_]` remains, with no two `_` in a row; a leading or trailing `_` appears exactly when the input starts or ends outside `[a-z0-9]` |
| Slug.CollapseKeepsLetters | add_candidato.py:25 | the `[a-z0-9]` characters of the input are kept, in order, and no other letter or digit appears |
| Slug.CollapseAppend | add_candidato.py:25 | where a letter or digit sits on either side of a cut, the two halves are collapsed independently |
| Slug.CollapseRun | add_candidato.py:25 | a non-empty run of characters outside `[a-z0-9]` becomes exactly one `_` |
| Slug.TwoWordSlug | add_candidato.py:16-27 | two plain words around a separator with no letter or digit come out as the two lower-cased, de-accented words joined by one `_` |
| Slug.TwoWordExample | add_candidato.py:9 | `slugify("João Silva") == "joao_silva"` |
| Slug.Deaccent | add_candidato.py:19-24 | a character is left alone or becomes a plain vowel or `c`; only characters outside `a-z` change |
| Slug.Slugify | add_candidato.py:16-27 | the slug holds only `[a-z0-9_]`, never `__`, and no `_` at either end |
| Slug.SlugifyIsLowerAndPlain | add_candidato.py:18-24 | no slug character is upper case or accented |
| Slug.PlainWordSlug | add_candidato.py:18-24 | a name whose lower-cased, de-accented letters are all in `[a-z0-9]` comes out as exactly those letters: each accented vowel or `ç` becomes its own plain letter, in place |
| Slug.AccentedNameExample | add_candidato.py:16-27 | `slugify("João") == "joao"` |
| Slug.AccentClassesExample | add_candidato.py:18-24 | `slugify("ÀÉÎÕÜÇ") == "aeiouc"`: capitals are lower-cased, then each accent class maps to its vowel or `c` |
| Slug.SlugIsFixed | add_candidato.py:16-27 | slugifying a slug changes nothing |
| Slug.SlugifyIdempotent | add_candidato.py:16-27 | `slugify(slugify(x)) == slugify(x)` |
| UiRules.BaseIdentifier | localiza/ui.py:344-348 | there is no identifier without a votes file or without the `votos_` prefix (in any letter case) |
| UiRules.PlainFileBase | localiza/ui.py:344-348 | `votos_<city>` gives the lower-cased city, for every city name in which neither `votos_` nor `_municipios` occurs (multi-word and capitalised names included) |
| UiRules.MunicipiosFileBase | localiza/ui.py:344-348 | `votos_<city>_municipios` gives the same lower-cased city, for such names that do not end in `votos` |
| UiRules.KeepLayer | localiza/ui.py:356-366 | the layer test: no base identifier, no known prefix, or the base identifier in the lower-cased stem or file name |
| UiRules.SelectLayers | localiza/ui.py:350-366 | the layer loop keeps exactly the layers `KeepLayer` accepts, in order |
| UiRules.NoBaseDrawsAll | localiza/ui.py:356 | without a base identifier every layer is drawn |
| UiRules.CityLayerDrawn | localiza/ui.py:344-366 | with `votos_<city>`, a layer whose lower-cased stem mentions the lower-cased city is drawn, and a layer with a known prefix is drawn exactly when its stem or file name mentions it |
| UiRules.IsMunicipios | localiza/ui.py:262 | `"municipios"` in the lower-cased stem, false without a votes file |
| UiRules.MunicipiosFileDetected | localiza/ui.py:262 | `votos_<city>_municipios` is recognised as the per-municipality file, for every city name |
| UiRules.PlainFileNotMunicipios | localiza/ui.py:262 | `votos_<city>` is not taken for the per-municipality file when the lower-cased city does not contain `municipios` |
| UiRules.Group3Shape | localiza/ui.py:268-269 | the formatted digits have a dot at exactly every fourth place from the right, and nothing else but digits |
| UiRules.FormatNumber | localiza/ui.py:268-269 | deleting the dots from the formatted number gives back `str(n)`, negatives included |
| UiRules.Trunc | localiza/ui.py:201-202 | `int()` truncates toward zero |
| UiRules.VoteRangeFilter | localiza/ui.py:200-256 | the columns are kept, and the table is unchanged when the slider is not shown |
| UiRules.VoteRangeKeepsExactly | localiza/ui.py:256 | when the slider is shown, exactly the rows with `lo <= qt_votos <= hi` are kept, in their order |
| UiRules.DefaultRangeKeepsAll | localiza/ui.py:201-256 | with whole vote counts, the initial widget range drops nothing |
| UiRules.FractionalMaxUnreachable | localiza/ui.py:201-256 | with counts 1.0 and 3.5 the slider is shown with bounds 1 and 3, and every range the widgets allow drops the 3.5 row |
| UiRules.WideDefaultRangeKeepsAll | localiza/ui.py:201-256 | bounds from the floor of the smallest and the ceiling of the largest count keep every row, whatever the counts |
| UiRules.AcceptSelection | localiza/ui.py:430-434 | anything that is not a dict, or has no truthy geometry, is never stored; a truthy geometry that is not a dict raises; a stored drawing's `str(type).lower()` is polygon or multipolygon |
| UiRules.StoredSelectionIsPolygon | localiza/ui.py:431-438 | a stored selection always passes the polygon-type check of `filter_points_within_polygon` |
| UiRules.CandidateLabel | localiza/ui.py:134-136 | a label has no `_` and no surrounding whitespace |
| UiRules.LabelCandidates | localiza/ui.py:132-136 | the items pair each candidate with its label, in order |
| UiRules.PickCandidate | localiza/ui.py:127-143 | there is no result exactly when there are no candidates; otherwise the first candidate with the chosen label, or the first candidate |
| UiRules.PickHonoursChoice | localiza/ui.py:139-142 | a label the select box offers picks a candidate with that label, no later than the one that offered it |

## Findings

| source | as written | input that shows it | evidently intended | confidence | as-written member | corrected member |
|---|---|---|---|---|---|---|
| localiza/ui.py:201-202 | the slider and number inputs are bounded by `int(min)` and `int(max)` of `qt_votos`, which truncates a fractional maximum | counts 1.0 and 3.5 (`safe_number("3,5")` is 3.5): the bounds are 1 and 3, so the 3.5 row is dropped before the user touches a widget and can never be shown | the initial range keeps every row, e.g. with bounds `floor(min)` and `ceil(max)` | medium, not executed | UiRules.FractionalMaxUnreachable | UiRules.WideDefaultRangeKeepsAll |

## Left out

- File and library I/O:
  - reading GeoJSON files (`localiza/io_geo.py` is not part of this model);
  - the style file read by `load_layer_styles` (its fallback value is modelled as a constant);
  - importlib loading of candidate pages;
  - the file writing of `create_candidate`.
  The parsed values are parameters.
- Streamlit widgets, layout, CSS, session state and `st_folium`: the values widgets return are
  parameters. The Point re-filter of the votes layer, which rounds to 6 places
  (`localiza/ui.py:384-397`), and the KPI computations are not modelled.
- Foreign library objects:
  - Folium maps, layers, popups and the heat map are represented by the values they are
    built from;
  - Altair encodings are left out;
  - Shapely is a parameter: whether `shape()` builds, and the outcome of `contains`.
- Floating point:
  - floats are reals, and NaN and infinities are not represented;
  - `float()` on text is a decimal-literal parser that does not accept `inf`, `nan` or
    underscores;
  - `str()` of a float is the exact decimal expansion, so it differs from Python's shortest
    repr for non-terminating binary fractions;
  - `math.sqrt` in `circle_radius` is not modelled: a vote-scaled radius is represented by
    the votes it is computed from.
- `Lower` covers ASCII and the Latin-1 capitals only, not full Unicode case mapping.
- Python's `str.isspace` is modelled for the Unicode whitespace characters that CPython lists.
- `normalize_feature` writes `QT_VOTOS` into the caller's properties dict in place. The model
  returns the updated properties inside the record, so aliasing with the caller's feature is
  not captured.
- pandas details:
  - `groupby` sorts the groups by label (`localiza/charts.py:8`, `:30`), and `sort_values`
    (quicksort) is not stable, so pandas leaves the order of equal totals unspecified. The
    model keeps the groups in order of first appearance and ranks them stably over that
    order. When several labels tie at the `head(top_n)` cut, the model may show other
    labels than pandas;
  - `groupby` is keyed on the cell value, and a missing label is its own group;
  - columns are modelled as a list of names with rows as maps.
- Charts.TopGroups: a missing label or `qt_votos` column raises. The model does not
  distinguish a `KeyError` from other errors.
- UiRules.BaseIdentifier: its own contract gives only the empty cases. What a `votos_` stem
  yields is stated by `PlainFileBase` and `MunicipiosFileBase`, for city names in which
  neither `votos_` nor `_municipios` occurs.
- UiRules.PlainFileBase: does not hold when the lower-cased city contains `votos_` or
  `_municipios`. The replacements act on every occurrence in the stem, so the city
  changes too.
- UiRules.MunicipiosFileBase: the same exclusions, and also city names ending in `votos`.
  There `replace("votos_", "")` also removes the `votos_` that straddles the city and the
  suffix, so `votos_avotos_municipios` gives `amunicipios`.
- Styles.Merge: a truthy list of key/value pairs as `a` raises in the model. `dict(a)` in
  `localiza/styles.py:9` accepts it. The style values passed in are always dicts.
- Analytics.InBox: a row whose `lat` or `lon` holds text, or a table without those
  columns, compares false in the model. pandas raises `TypeError` or `KeyError` there.
  Tables from `load_votos_df` always have numeric `lat` and `lon`.
- Charts.Votes: a text vote count counts as 0 in the model. pandas would raise or
  concatenate. `load_votos_df` leaves only floats in `qt_votos`.
- UiRules.VoteRangeFilter: a missing vote count is compared as 0. pandas compares NaN as
  false, so it would drop such a row. `load_votos_df` fills missing counts with 0.0.
- `gerar_senha.py` (interactive password hashing) and `localiza/config.py` (constants only)
  are not part of this model.
- `add_geojson_layer`, `add_base_tiles`, `build_map` and `finalize_map` only build Folium
  objects and are not part of this model.
