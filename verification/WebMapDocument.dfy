/**
 Exporting lenses to an Esri WebMap and importing them back, packages/engine/src/web-map-json.ts:174-278
 and 332-408. Cameras, basemaps and opaque stashes are not modelled.
 */
module WebMapDocument {
  import opened Prelude
  import opened WebMapFilter

  datatype Render = GeoJson | GeoJsonTable | Mvt | ScalarJson

  datatype Lens = Lens(id: string, name: string, scopes: seq<string>, filter: Option<Filter>, render: Render)

  datatype LayerType = ArcGISFeatureLayer | VectorTileLayer | WebTiledLayer

  datatype Layer = Layer(id: string, title: string, url: string, layerType: LayerType, definition: Option<string>)

  /** A lens without its id, as the importer returns it. */
  datatype Imported = Imported(name: string, filter: Option<Filter>, render: Render, sourceUrl: Option<string>)

  datatype Warning = SkippedLayer(title: string) | DroppedFilter(expr: string)

  predicate IsLens(lens: Lens) {
    lens.filter.Some? ==> IsFilter(lens.filter.value)
  }

  predicate AreLenses(lenses: seq<Lens>) {
    forall k :: 0 <= k < |lenses| ==> IsLens(lenses[k])
  }

  // ---------------------------------------------------------------- export

  /** `s.split(':')`. */
  function SplitColons(s: string): (parts: seq<string>)
    ensures parts != []
  {
    if s == "" then [""]
    else
      var rest := SplitColons(s[1..]);
      if s[0] == ':' then [""] + rest else [[s[0]] + rest[0]] + rest[1..]
  }

  /** `base.replace(/\/+$/, '')`. */
  function WithoutTrailingSlashes(base: string): string {
    if base != "" && base[|base| - 1] == '/' then WithoutTrailingSlashes(base[..|base| - 1]) else base
  }

  /** The item and layer of a `data_layer:<itemId>:<layerKey>` scope. */
  function ScopeParts(scope: string): Option<(string, string)> {
    var parts := SplitColons(scope);
    if |parts| != 3 || parts[0] != "data_layer" || parts[1] == "" || parts[2] == "" then None else Some((parts[1], parts[2]))
  }

  /** The layer's data URL without its format suffix; None when the lens has no single data layer. */
  function LayerBase(lens: Lens, base: string): Option<string> {
    if |lens.scopes| != 1 then None
    else
      var parts := ScopeParts(lens.scopes[0]);
      if parts.None? then None
      else Some(WithoutTrailingSlashes(base) + "/api/items/" + parts.value.0 + "/layers/" + parts.value.1)
  }

  /** operationalLayerForLens. */
  function OperationalLayer(lens: Lens, base: string): Option<Layer>
    requires IsLens(lens)
  {
    var layerBase := LayerBase(lens, base);
    if layerBase.None? then None
    else
      match lens.render
      case GeoJson =>
        var definition := if lens.filter.None? then None else PrintFilter(lens.filter.value);
        Some(Layer(lens.id, lens.name, layerBase.value + "/geojson", ArcGISFeatureLayer, definition))
      case Mvt => Some(Layer(lens.id, lens.name, layerBase.value + "/tile/{z}/{x}/{y}.mvt", VectorTileLayer, None))
      case _ => None
  }

  function Export(lenses: seq<Lens>, base: string): seq<Layer>
    requires AreLenses(lenses)
  {
    if lenses == [] then []
    else
      var layer := OperationalLayer(lenses[0], base);
      (if layer.Some? then [layer.value] else []) + Export(lenses[1..], base)
  }

  /** lensesToWebMapJson. */
  method LensesToWebMapJson(lenses: seq<Lens>, base: string) returns (layers: seq<Layer>)
    requires AreLenses(lenses)
    ensures layers == Export(lenses, base)
  {
    hide OperationalLayer;
    layers := [];
    for i := 0 to |lenses|
      invariant Export(lenses, base) == layers + Export(lenses[i..], base)
    {
      assert lenses[i..][1..] == lenses[i + 1..];
      var layer := OperationalLayer(lenses[i], base);
      if layer.Some? {
        layers := layers + [layer.value];
      }
    }
  }

  // ---------------------------------------------------------------- import

  function ImportFilter(layer: Layer): Option<Filter> {
    if layer.definition.None? || layer.definition.value == "" then None else ParseFilter(layer.definition.value)
  }

  function ImportLayer(layer: Layer): Option<Imported> {
    if layer.layerType.WebTiledLayer? then None
    else
      Some(Imported(
        if layer.title == "" then "Imported lens" else layer.title,
        ImportFilter(layer),
        if layer.layerType.VectorTileLayer? then Mvt else GeoJson,
        if layer.url == "" then None else Some(layer.url)))
  }

  function LayerWarnings(layer: Layer): seq<Warning> {
    if layer.layerType.WebTiledLayer? then [SkippedLayer(layer.title)]
    else if layer.definition.Some? && layer.definition.value != "" && ParseFilter(layer.definition.value).None? then
      [DroppedFilter(layer.definition.value)]
    else []
  }

  function Import(layers: seq<Layer>): seq<Imported> {
    if layers == [] then []
    else
      var lens := ImportLayer(layers[0]);
      (if lens.Some? then [lens.value] else []) + Import(layers[1..])
  }

  function ImportWarnings(layers: seq<Layer>): seq<Warning> {
    if layers == [] then [] else LayerWarnings(layers[0]) + ImportWarnings(layers[1..])
  }

  /** One round of the import loop. */
  method ImportOne(layer: Layer) returns (lens: Option<Imported>, warnings: seq<Warning>)
    ensures lens == ImportLayer(layer) && warnings == LayerWarnings(layer)
  {
    hide ParseFilter;
    warnings := [];
    if layer.layerType.WebTiledLayer? {
      return None, [SkippedLayer(layer.title)];
    }
    var filter: Option<Filter> := None;
    if layer.definition.Some? && layer.definition.value != "" {
      filter := ParseFilter(layer.definition.value);
      if filter.None? {
        warnings := [DroppedFilter(layer.definition.value)];
      }
    }
    lens := Some(Imported(
      if layer.title == "" then "Imported lens" else layer.title,
      filter,
      if layer.layerType.VectorTileLayer? then Mvt else GeoJson,
      if layer.url == "" then None else Some(layer.url)));
  }

  /** webMapJsonToLenses: the lenses it produced and the warnings it collected on the way. */
  method WebMapJsonToLenses(layers: seq<Layer>) returns (lenses: seq<Imported>, warnings: seq<Warning>)
    ensures lenses == Import(layers)
    ensures warnings == ImportWarnings(layers)
  {
    hide ImportLayer, LayerWarnings;
    lenses, warnings := [], [];
    for i := 0 to |layers|
      invariant Import(layers) == lenses + Import(layers[i..])
      invariant ImportWarnings(layers) == warnings + ImportWarnings(layers[i..])
    {
      assert layers[i..][1..] == layers[i + 1..];
      var lens, more := ImportOne(layers[i]);
      if lens.Some? {
        lenses := lenses + [lens.value];
      }
      warnings := warnings + more;
    }
  }

  // ---------------------------------------------------------------- the round trip of documents

  /** Lenses with a place in a WebMap: map-shaped, over exactly one data layer. */
  predicate Exportable(lens: Lens) {
    (lens.render.GeoJson? || lens.render.Mvt?) && LayerBase(lens, "").Some?
  }

  /** What survives of one lens. */
  function Survives(lens: Lens, base: string): Imported
    requires Exportable(lens)
  {
    Imported(
      if lens.name == "" then "Imported lens" else lens.name,
      if lens.render.GeoJson? && lens.filter.Some? then Reimported(lens.filter.value) else None,
      lens.render,
      Some(LayerBase(lens, base).value + (if lens.render.GeoJson? then "/geojson" else "/tile/{z}/{x}/{y}.mvt")))
  }

  function Survivors(lenses: seq<Lens>, base: string): seq<Imported> {
    if lenses == [] then []
    else (if Exportable(lenses[0]) then [Survives(lenses[0], base)] else []) + Survivors(lenses[1..], base)
  }

  /** A filter that prints is never printed as the empty string. */
  lemma PrintedIsNotEmpty(f: Filter)
    requires IsFilter(f) && PrintFilter(f).Some?
    ensures PrintFilter(f).value != ""
  {
  }

  lemma UnprintedIsLost(f: Filter)
    requires IsFilter(f) && PrintFilter(f).None?
    ensures Reimported(f).None?
  {
  }

  lemma LensRoundTrip(lens: Lens, base: string)
    requires IsLens(lens)
    ensures Exportable(lens) <==> OperationalLayer(lens, base).Some?
    ensures Exportable(lens) ==> ImportLayer(OperationalLayer(lens, base).value) == Some(Survives(lens, base))
  {
    hide PrintFilter, ParseFilter, Reimported;
    if lens.render.GeoJson? && lens.filter.Some? {
      var f := lens.filter.value;
      if PrintFilter(f).Some? {
        PrintedIsNotEmpty(f);
        PrintedFilterMeans(f);
      } else {
        UnprintedIsLost(f);
      }
    }
  }

  /** Importing an export keeps the exportable lenses in order, each with its render kind, its name
      when it has one, and the meaning of its filter; nothing else appears. */
  lemma {:induction false} DocumentRoundTrip(lenses: seq<Lens>, base: string)
    requires AreLenses(lenses)
    ensures Import(Export(lenses, base)) == Survivors(lenses, base)
  {
    hide OperationalLayer, ImportLayer, Survives, Exportable, IsLens, Import;
    if lenses == [] {
      ImportNothing();
    } else {
      LensRoundTrip(lenses[0], base);
      DocumentRoundTrip(lenses[1..], base);
      ImportCons(OperationalLayer(lenses[0], base), Export(lenses[1..], base));
    }
  }

  lemma ImportNothing()
    ensures Import([]) == []
  {
  }

  lemma ImportCons(layer: Option<Layer>, rest: seq<Layer>)
    requires layer.Some? ==> ImportLayer(layer.value).Some?
    ensures Import((if layer.Some? then [layer.value] else []) + rest) ==
            (if layer.Some? then [ImportLayer(layer.value).value] else []) + Import(rest)
  {
    hide ImportLayer;
    if layer.Some? {
      assert ([layer.value] + rest)[1..] == rest;
    } else {
      assert [] + rest == rest;
    }
  }

  /** A geojson lens keeps its filter exactly when the filter is representable. */
  lemma FilterSurvivesIff(lens: Lens, base: string)
    requires IsLens(lens) && Exportable(lens) && lens.filter.Some?
    ensures Survives(lens, base).filter == lens.filter <==> lens.render.GeoJson? && Representable(lens.filter.value)
  {
    var f := lens.filter.value;
    RoundTripIffRepresentable(f);
    if PrintFilter(f).Some? {
      PrintedFilterMeans(f);
    } else {
      UnprintedIsLost(f);
    }
    hide PrintFilter, ParseFilter, Reimported, Representable;
  }

  // ---------------------------------------------------------------- what one lens and one layer become

  function JoinColons(parts: seq<string>): string
    requires parts != []
  {
    if |parts| == 1 then parts[0] else parts[0] + (":" + JoinColons(parts[1..]))
  }

  predicate NoColons(parts: seq<string>) {
    forall k :: 0 <= k < |parts| ==> ':' !in parts[k]
  }

  lemma {:induction false} SplitJoins(s: string)
    ensures JoinColons(SplitColons(s)) == s && NoColons(SplitColons(s))
  {
    if s != "" {
      SplitJoins(s[1..]);
      var rest, parts := SplitColons(s[1..]), SplitColons(s);
      if s[0] == ':' {
        assert parts[1..] == rest && parts[0] == "";
        assert s == ":" + s[1..];
      } else {
        assert parts[1..] == rest[1..] && parts[0] == [s[0]] + rest[0];
        assert s == [s[0]] + s[1..];
      }
    }
  }

  lemma {:induction false} JoinSplits(parts: seq<string>)
    requires parts != [] && NoColons(parts)
    ensures SplitColons(JoinColons(parts)) == parts
    decreases parts, |parts[0]|
  {
    SplitJoins(JoinColons(parts));
    SameParts(parts, SplitColons(JoinColons(parts)));
  }

  /** Parts without a colon are known from their join. */
  lemma {:induction false} SameParts(a: seq<string>, b: seq<string>)
    requires a != [] && b != [] && NoColons(a) && NoColons(b) && JoinColons(a) == JoinColons(b)
    ensures a == b
  {
    var s := JoinColons(a);
    FirstPart(a);
    FirstPart(b);
    assert forall k :: 0 <= k < |a[0]| ==> a[0][k] == s[k] && a[0][k] in a[0];
    assert forall k :: 0 <= k < |b[0]| ==> b[0][k] == s[k] && b[0][k] in b[0];
    assert |a[0]| == |b[0]|;
    assert a[0] == s[..|a[0]|] == b[0];
    if |a| > 1 {
      assert JoinColons(a[1..]) == s[|a[0]| + 1..] == JoinColons(b[1..]);
      SameParts(a[1..], b[1..]);
    }
    assert a == [a[0]] + a[1..] && b == [b[0]] + b[1..];
  }

  lemma FirstPart(parts: seq<string>)
    requires parts != [] && NoColons(parts)
    ensures var s, n := JoinColons(parts), |parts[0]|;
            && n <= |s| && s[..n] == parts[0] && (|parts| == 1 <==> n == |s|) && (|parts| > 1 ==> s[n] == ':' && s[n + 1..] == JoinColons(parts[1..]))
  {
  }

  /** `scope` names a layer of an item. */
  predicate NamesLayer(scope: string, item: string, layer: string) {
    item != "" && layer != "" && ':' !in item && ':' !in layer && scope == "data_layer:" + item + ":" + layer
  }

  lemma ScopeMeans(scope: string, item: string, layer: string)
    ensures ScopeParts(scope) == Some((item, layer)) <==> NamesLayer(scope, item, layer)
  {
    var parts: seq<string> := ["data_layer", item, layer];
    assert parts[1..] == [item, layer] && [item, layer][1..] == [layer];
    assert JoinColons([layer]) == layer && JoinColons([item, layer]) == item + (":" + layer);
    assert JoinColons(parts) == "data_layer" + (":" + (item + (":" + layer))) == "data_layer:" + item + ":" + layer;
    SplitJoins(scope);
    if NamesLayer(scope, item, layer) {
      assert NoColons(parts);
      JoinSplits(parts);
    }
    if ScopeParts(scope) == Some((item, layer)) {
      assert SplitColons(scope) == parts;
      assert ':' !in parts[1] && ':' !in parts[2];
    }
  }

  predicate AreSlashes(s: string) {
    forall k :: 0 <= k < |s| ==> s[k] == '/'
  }

  lemma {:induction false} SlashesGo(stem: string, slashes: string)
    requires AreSlashes(slashes) && (stem == "" || stem[|stem| - 1] != '/')
    ensures WithoutTrailingSlashes(stem + slashes) == stem
    decreases |slashes|
  {
    var s := stem + slashes;
    if slashes == "" {
      assert s == stem;
    } else {
      assert s[|s| - 1] == slashes[|slashes| - 1] && s[..|s| - 1] == stem + slashes[..|slashes| - 1];
      SlashesGo(stem, slashes[..|slashes| - 1]);
    }
  }

  predicate IsOverLayer(lens: Lens, item: string, layer: string) {
    |lens.scopes| == 1 && NamesLayer(lens.scopes[0], item, layer)
  }

  /** A map lens over one layer becomes that layer's address under the portal's; any other lens is left out. */
  lemma LensMeans(lens: Lens, stem: string, slashes: string, item: string, layer: string)
    requires IsLens(lens) && AreSlashes(slashes) && (stem == "" || stem[|stem| - 1] != '/')
    ensures var url := stem + "/api/items/" + item + "/layers/" + layer;
            IsOverLayer(lens, item, layer) ==>
              && (lens.render.GeoJson? ==>
                    OperationalLayer(lens, stem + slashes)
                    == Some(Layer(lens.id, lens.name, url + "/geojson", ArcGISFeatureLayer, if lens.filter.None? then None else PrintFilter(lens.filter.value))))
              && (lens.render.Mvt? ==>
                    OperationalLayer(lens, stem + slashes) == Some(Layer(lens.id, lens.name, url + "/tile/{z}/{x}/{y}.mvt", VectorTileLayer, None)))
    ensures !lens.render.GeoJson? && !lens.render.Mvt? ==> OperationalLayer(lens, stem + slashes).None?
  {
    SlashesGo(stem, slashes);
    if |lens.scopes| == 1 {
      ScopeMeans(lens.scopes[0], item, layer);
    }
    hide ScopeParts, NamesLayer, WithoutTrailingSlashes, PrintFilter;
  }

  lemma OnlyLayersAreExported(lens: Lens, base: string)
    requires IsLens(lens)
    ensures OperationalLayer(lens, base).Some? <==> (lens.render.GeoJson? || lens.render.Mvt?) && exists item, layer :: IsOverLayer(lens, item, layer)
  {
    if |lens.scopes| == 1 && ScopeParts(lens.scopes[0]).Some? {
      var parts := ScopeParts(lens.scopes[0]).value;
      ScopeMeans(lens.scopes[0], parts.0, parts.1);
      assert IsOverLayer(lens, parts.0, parts.1);
    }
    forall item, layer | IsOverLayer(lens, item, layer) ensures LayerBase(lens, base).Some? {
      ScopeMeans(lens.scopes[0], item, layer);
    }
    hide ScopeParts, NamesLayer, WithoutTrailingSlashes, PrintFilter;
  }

  /** A layer of another kind is skipped with a warning; of the other two, a definition that is no filter is
      dropped with one, and nothing else is warned about. */
  lemma LayerMeans(layer: Layer)
    ensures layer.layerType == WebTiledLayer ==> ImportLayer(layer).None? && LayerWarnings(layer) == [SkippedLayer(layer.title)]
    ensures layer.layerType != WebTiledLayer ==>
              var lens := ImportLayer(layer);
              && lens.Some? && lens.value.name != "" && (layer.title != "" ==> lens.value.name == layer.title)
              && lens.value.render == (if layer.layerType == VectorTileLayer then Mvt else GeoJson)
              && (lens.value.sourceUrl.Some? <==> layer.url != "") && (layer.url != "" ==> lens.value.sourceUrl == Some(layer.url))
              && (layer.definition.None? || layer.definition.value == "" ==> lens.value.filter.None? && LayerWarnings(layer) == [])
              && (layer.definition.Some? && layer.definition.value != "" ==>
                    var read := ParseFilter(layer.definition.value);
                    lens.value.filter == read && LayerWarnings(layer) == if read.Some? then [] else [DroppedFilter(layer.definition.value)])
  {
    hide ParseFilter;
  }
}
