/** Layered property resolution of the Jinja file filter (`getProperties`):
    filter files in list order, then the project, the session's system and
    user properties, and the caller's additional properties, each later source
    overriding the earlier ones key by key. */
module PropertyResolution {
  import opened Results

  /** A `java.util.Properties` table; every key and value is a string. */
  type Properties = map<string, string>

  /** Why a filter file that exists could not be loaded: an I/O failure, or a
      malformed `\uXXXX` escape, which `Properties.load` reports with an
      unchecked `IllegalArgumentException`. */
  datatype LoadFailure = Unreadable | MalformedEscape

  /** The content of a filter file that exists on disk. */
  datatype FilterFile = Loadable(properties: Properties) | Broken(failure: LoadFailure)

  /** The files visible to the build: a path absent from the map does not exist. */
  type FileSystem = map<string, FilterFile>

  datatype Project = Project(properties: Properties)

  datatype Session = Session(systemProperties: Properties, userProperties: Properties)

  /** The parts of a Maven filtering request that property resolution reads;
      `None` is a null getter result. */
  datatype FilteringRequest = FilteringRequest(
    filters: Option<seq<string>>,
    project: Option<Project>,
    session: Option<Session>,
    additionalProperties: Option<Properties>)

  /** The failure of a filter file that exists but cannot be loaded. `path`
      records which listed file failed; the Java exception does not always
      carry it: the `IllegalArgumentException` for a malformed escape names
      no file. */
  datatype LoadError = LoadError(path: string, failure: LoadFailure)

  predicate FailsToLoad(fs: FileSystem, path: string) {
    path in fs && fs[path].Broken?
  }

  /** `e` is the error of the first path in `paths` that fails to load. */
  ghost predicate FirstFailure(paths: seq<string>, fs: FileSystem, e: LoadError) {
    exists i | 0 <= i < |paths| ::
      && FailsToLoad(fs, paths[i])
      && e == LoadError(paths[i], fs[paths[i]].failure)
      && forall j | 0 <= j < i :: !FailsToLoad(fs, paths[j])
  }

  // ---------------------------------------------------------------------
  // Reference semantics: a stack of optional layers, the topmost wins.
  // ---------------------------------------------------------------------

  /** `layer` is present and has an entry for `k`. */
  predicate Defines(layer: Option<Properties>, k: string) {
    layer.Some? && k in layer.value
  }

  /** Layer `i` is present and defines `k`. */
  predicate DefinesAt(layers: seq<Option<Properties>>, i: int, k: string) {
    0 <= i < |layers| && Defines(layers[i], k)
  }

  /** Layer `i` is the highest layer defining `k`, so it supplies `k`'s value. */
  predicate Supplies(layers: seq<Option<Properties>>, i: int, k: string) {
    DefinesAt(layers, i, k) && forall j | i < j < |layers| :: !DefinesAt(layers, j, k)
  }

  /** `acc.putAll(layer)` when the layer is present; nothing otherwise. */
  function PutAll(acc: Properties, layer: Option<Properties>): (r: Properties)
    ensures forall k :: k in r <==> k in acc || (layer.Some? && k in layer.value)
    ensures forall k | layer.Some? && k in layer.value :: r[k] == layer.value[k]
    ensures forall k | k in acc && !(layer.Some? && k in layer.value) :: r[k] == acc[k]
  {
    if layer.Some? then acc + layer.value else acc
  }

  /** Right-biased union of the present layers, bottom to top. */
  function Overlay(layers: seq<Option<Properties>>): Properties
    decreases |layers|
  {
    if layers == [] then map[]
    else PutAll(Overlay(layers[..|layers| - 1]), layers[|layers| - 1])
  }

  /** Adding a layer on top puts its entries over everything below. */
  lemma OverlaySnoc(layers: seq<Option<Properties>>, top: Option<Properties>)
    ensures Overlay(layers + [top]) == PutAll(Overlay(layers), top)
  {
    assert (layers + [top])[..|layers|] == layers;
  }

  /** A key is resolved exactly when some present layer defines it. */
  lemma {:induction false} OverlayKey(layers: seq<Option<Properties>>, k: string)
    ensures k in Overlay(layers) <==> exists i :: DefinesAt(layers, i, k)
    decreases |layers|
  {
    if layers != [] {
      var n := |layers| - 1;
      var prefix := layers[..n];
      OverlayKey(prefix, k);
      assert layers == prefix + [layers[n]];
      OverlaySnoc(prefix, layers[n]);
      assert Overlay(layers) == PutAll(Overlay(prefix), layers[n]);
      if k in Overlay(layers) {
        if k in Overlay(prefix) {
          var i :| DefinesAt(prefix, i, k);
          assert DefinesAt(layers, i, k);
        } else {
          assert DefinesAt(layers, n, k);
        }
      } else {
        forall i | 0 <= i < |layers| ensures !DefinesAt(layers, i, k) {
          if i < n {
            assert !DefinesAt(prefix, i, k);
            assert layers[i] == prefix[i];
          }
        }
      }
    }
  }

  /** A resolved key takes the value of the highest layer that defines it. */
  lemma {:induction false} OverlayValue(layers: seq<Option<Properties>>, k: string, i: int)
    requires Supplies(layers, i, k)
    ensures k in Overlay(layers) && Overlay(layers)[k] == layers[i].value[k]
    decreases |layers|
  {
    var n := |layers| - 1;
    var prefix := layers[..n];
    assert layers == prefix + [layers[n]];
    OverlaySnoc(prefix, layers[n]);
    if i < n {
      assert !DefinesAt(layers, n, k);
      forall j | i < j < n ensures !DefinesAt(prefix, j, k) {
        assert !DefinesAt(layers, j, k);
      }
      OverlayValue(prefix, k, i);
    }
  }

  /** The key set and values of an overlay, for every key at once. */
  lemma OverlaySemantics(layers: seq<Option<Properties>>)
    ensures forall k :: k in Overlay(layers) <==> exists i :: DefinesAt(layers, i, k)
    ensures forall k, i | Supplies(layers, i, k) :: k in Overlay(layers) && Overlay(layers)[k] == layers[i].value[k]
  {
    forall k ensures k in Overlay(layers) <==> exists i :: DefinesAt(layers, i, k) {
      OverlayKey(layers, k);
    }
    forall k, i | Supplies(layers, i, k)
      ensures k in Overlay(layers) && Overlay(layers)[k] == layers[i].value[k]
    {
      OverlayValue(layers, k, i);
    }
  }

  /** Overlaying `a + b` is overlaying `b` on top of the single layer `Overlay(a)`. */
  lemma {:induction false} OverlayConcat(a: seq<Option<Properties>>, b: seq<Option<Properties>>)
    ensures Overlay(a + b) == Overlay([Some(Overlay(a))] + b)
    decreases |b|
  {
    var base := [Some(Overlay(a))];
    if b == [] {
      assert a + b == a;
      assert base + b == [] + [Some(Overlay(a))];
      OverlaySnoc([], Some(Overlay(a)));
      assert PutAll(map[], Some(Overlay(a))) == Overlay(a);
    } else {
      var b' := b[..|b| - 1];
      var top := b[|b| - 1];
      OverlayConcat(a, b');
      assert a + b == (a + b') + [top];
      assert base + b == (base + b') + [top];
      OverlaySnoc(a + b', top);
      OverlaySnoc(base + b', top);
    }
  }

  // ---------------------------------------------------------------------
  // The resolution as the source performs it.
  // ---------------------------------------------------------------------

  /** The layer one filter path contributes: nothing when the file does not exist. */
  function FileLayer(fs: FileSystem, path: string): Option<Properties> {
    if path in fs && fs[path].Loadable? then Some(fs[path].properties) else None
  }

  function FilterLayers(paths: seq<string>, fs: FileSystem): seq<Option<Properties>> {
    seq(|paths|, i requires 0 <= i < |paths| => FileLayer(fs, paths[i]))
  }

  function ProjectLayer(req: FilteringRequest): Option<Properties> {
    if req.project.Some? then Some(req.project.value.properties) else None
  }

  function SystemLayer(req: FilteringRequest): Option<Properties> {
    if req.session.Some? then Some(req.session.value.systemProperties) else None
  }

  function UserLayer(req: FilteringRequest): Option<Properties> {
    if req.session.Some? then Some(req.session.value.userProperties) else None
  }

  /** The project, session system, session user and additional layers, in that order. */
  function RequestLayers(req: FilteringRequest): seq<Option<Properties>> {
    [ProjectLayer(req), SystemLayer(req), UserLayer(req), req.additionalProperties]
  }

  /** Every layer of a request, lowest precedence first. */
  function Layers(req: FilteringRequest, fs: FileSystem): seq<Option<Properties>> {
    (if req.filters.Some? then FilterLayers(req.filters.value, fs) else []) + RequestLayers(req)
  }

  /** The loop over the `<filters>` files: each existing file is loaded and put
      over `acc`; missing files are skipped; the first broken file aborts. */
  function LoadFilters(paths: seq<string>, fs: FileSystem, acc: Properties): (r: Result<Properties, LoadError>)
    ensures r.Failure? <==> exists i | 0 <= i < |paths| :: FailsToLoad(fs, paths[i])
    ensures r.Failure? ==> FirstFailure(paths, fs, r.error)
    ensures r.Success? ==> r.value == Overlay([Some(acc)] + FilterLayers(paths, fs))
    decreases |paths|
  {
    if paths == [] then
      assert [Some(acc)] + FilterLayers(paths, fs) == [] + [Some(acc)];
      OverlaySnoc([], Some(acc));
      Success(acc)
    else if FailsToLoad(fs, paths[0]) then
      Failure(LoadError(paths[0], fs[paths[0]].failure))
    else
      var r := LoadFilters(paths[1..], fs, PutAll(acc, FileLayer(fs, paths[0])));
      LoadFiltersStep(paths, fs, acc);
      r
  }

  /** Loading the first file folds it into the accumulator. */
  lemma LoadFiltersStep(paths: seq<string>, fs: FileSystem, acc: Properties)
    requires paths != [] && !FailsToLoad(fs, paths[0])
    ensures Overlay([Some(acc)] + FilterLayers(paths, fs))
         == Overlay([Some(PutAll(acc, FileLayer(fs, paths[0])))] + FilterLayers(paths[1..], fs))
  {
    var head := [Some(acc), FileLayer(fs, paths[0])];
    assert FilterLayers(paths, fs) == [FileLayer(fs, paths[0])] + FilterLayers(paths[1..], fs);
    assert [Some(acc)] + FilterLayers(paths, fs) == head + FilterLayers(paths[1..], fs);
    assert PutAll(map[], Some(acc)) == acc;
    OverlayConcat(head, FilterLayers(paths[1..], fs));
    OverlaySnoc([Some(acc)], FileLayer(fs, paths[0]));
    OverlaySnoc([], Some(acc));
    assert head == [Some(acc)] + [FileLayer(fs, paths[0])];
    assert [Some(acc)] == [] + [Some(acc)];
  }

  /** The request sources after the filter files: project, session system,
      session user and additional properties, each put over the properties
      collected so far when present. */
  function PutRequestProperties(base: Properties, req: FilteringRequest): (r: Properties)
    ensures r == Overlay([Some(base)] + RequestLayers(req))
  {
    var withProject := PutAll(base, ProjectLayer(req));
    var withSession :=
      if req.session.Some?
      then withProject + req.session.value.systemProperties + req.session.value.userProperties
      else withProject;
    RequestLayersStack(base, req);
    PutAll(withSession, req.additionalProperties)
  }

  /** The four request layers stacked on `base`, one `putAll` each. */
  lemma RequestLayersStack(base: Properties, req: FilteringRequest)
    ensures var rl := RequestLayers(req);
      Overlay([Some(base)] + rl) == PutAll(PutAll(PutAll(PutAll(base, rl[0]), rl[1]), rl[2]), rl[3])
  {
    var rl := RequestLayers(req);
    var l := [Some(base)] + rl;
    OverlaySnoc(l[..4], l[4]);
    OverlaySnoc(l[..3], l[3]);
    OverlaySnoc(l[..2], l[2]);
    OverlaySnoc(l[..1], l[1]);
    OverlaySnoc([], l[0]);
    assert l == l[..4] + [l[4]];
    assert l[..4] == l[..3] + [l[3]];
    assert l[..3] == l[..2] + [l[2]];
    assert l[..2] == l[..1] + [l[1]];
    assert l[..1] == [] + [l[0]];
    assert PutAll(map[], Some(base)) == base;
  }

  /** `getProperties(request)`. */
  function GetProperties(req: FilteringRequest, fs: FileSystem): (r: Result<Properties, LoadError>)
    ensures r.Failure? <==>
      req.filters.Some? && exists i | 0 <= i < |req.filters.value| :: FailsToLoad(fs, req.filters.value[i])
    ensures r.Failure? ==> req.filters.Some? && FirstFailure(req.filters.value, fs, r.error)
    ensures r.Success? ==> r.value == Overlay(Layers(req, fs))
  {
    var filterLayers := if req.filters.Some? then FilterLayers(req.filters.value, fs) else [];
    var fromFilters :- if req.filters.Some? then LoadFilters(req.filters.value, fs, map[]) else Success(map[]);
    OverlayConcat([], filterLayers);
    assert [] + filterLayers == filterLayers;
    OverlayConcat(filterLayers, RequestLayers(req));
    Success(PutRequestProperties(fromFilters, req))
  }

  // ---------------------------------------------------------------------
  // Properties of the resolution.
  // ---------------------------------------------------------------------

  /** A key is resolved exactly when some existing filter file or present
      request source defines it. */
  lemma ResolvedKeys(req: FilteringRequest, fs: FileSystem, k: string)
    requires GetProperties(req, fs).Success?
    ensures k in GetProperties(req, fs).value <==> exists i :: DefinesAt(Layers(req, fs), i, k)
  {
    OverlayKey(Layers(req, fs), k);
  }

  /** A request source that defines `k`, with no higher request source
      defining it, supplies the resolved value of `k`. */
  lemma RequestLayerWins(req: FilteringRequest, fs: FileSystem, k: string, l: int)
    requires GetProperties(req, fs).Success?
    requires 0 <= l < 4 && Defines(RequestLayers(req)[l], k)
    requires forall m | l < m < 4 :: !Defines(RequestLayers(req)[m], k)
    ensures k in GetProperties(req, fs).value
    ensures GetProperties(req, fs).value[k] == RequestLayers(req)[l].value[k]
  {
    var layers := Layers(req, fs);
    var n := |layers| - 4;
    forall j | n + l < j < |layers| ensures !DefinesAt(layers, j, k) {
      assert layers[j] == RequestLayers(req)[j - n];
    }
    assert layers[n + l] == RequestLayers(req)[l];
    assert Supplies(layers, n + l, k);
    OverlayValue(layers, k, n + l);
  }

  /** Fixed precedence: additional > session user > session system > project,
      whatever the lower sources hold. */
  lemma Precedence(req: FilteringRequest, fs: FileSystem, k: string)
    requires GetProperties(req, fs).Success?
    ensures Defines(req.additionalProperties, k) ==>
      GetProperties(req, fs).value[k] == req.additionalProperties.value[k]
    ensures Defines(UserLayer(req), k) && !Defines(req.additionalProperties, k) ==>
      GetProperties(req, fs).value[k] == req.session.value.userProperties[k]
    ensures Defines(SystemLayer(req), k) && !Defines(UserLayer(req), k) && !Defines(req.additionalProperties, k) ==>
      GetProperties(req, fs).value[k] == req.session.value.systemProperties[k]
    ensures Defines(ProjectLayer(req), k) && !Defines(SystemLayer(req), k) && !Defines(UserLayer(req), k)
            && !Defines(req.additionalProperties, k) ==>
      GetProperties(req, fs).value[k] == req.project.value.properties[k]
  {
    var rl := RequestLayers(req);
    if Defines(rl[3], k) {
      RequestLayerWins(req, fs, k, 3);
    } else if Defines(rl[2], k) {
      RequestLayerWins(req, fs, k, 2);
    } else if Defines(rl[1], k) {
      RequestLayerWins(req, fs, k, 1);
    } else if Defines(rl[0], k) {
      RequestLayerWins(req, fs, k, 0);
    }
  }

  /** Filter files sit below every request source, and among them the later
      file in the list wins. */
  lemma FilterFilePrecedence(req: FilteringRequest, fs: FileSystem, k: string, i: int)
    requires GetProperties(req, fs).Success?
    requires req.filters.Some? && 0 <= i < |req.filters.value|
    requires Defines(FileLayer(fs, req.filters.value[i]), k)
    requires forall j | i < j < |req.filters.value| :: !Defines(FileLayer(fs, req.filters.value[j]), k)
    requires forall l | 0 <= l < 4 :: !Defines(RequestLayers(req)[l], k)
    ensures k in GetProperties(req, fs).value
    ensures GetProperties(req, fs).value[k] == fs[req.filters.value[i]].properties[k]
  {
    var paths := req.filters.value;
    var layers := Layers(req, fs);
    var n := |paths|;
    assert layers[i] == FileLayer(fs, paths[i]);
    forall j | i < j < |layers| ensures !DefinesAt(layers, j, k) {
      if j < n {
        assert layers[j] == FileLayer(fs, paths[j]);
      } else {
        assert layers[j] == RequestLayers(req)[j - n];
      }
    }
    assert Supplies(layers, i, k);
    OverlayValue(layers, k, i);
  }

  /** The example of five sources all defining `x`: the additional value wins. */
  lemma AdditionalWinsExample()
    ensures var req := FilteringRequest(
              Some(["filter.properties"]),
              Some(Project(map["x" := "2"])),
              Some(Session(map["x" := "3"], map["x" := "4"])),
              Some(map["x" := "5"]));
            var fs := map["filter.properties" := Loadable(map["x" := "1"])];
            GetProperties(req, fs).Success? && GetProperties(req, fs).value["x"] == "5"
  {
    var req := FilteringRequest(
      Some(["filter.properties"]),
      Some(Project(map["x" := "2"])),
      Some(Session(map["x" := "3"], map["x" := "4"])),
      Some(map["x" := "5"]));
    var fs := map["filter.properties" := Loadable(map["x" := "1"])];
    assert !FailsToLoad(fs, "filter.properties");
    assert GetProperties(req, fs).Success?;
    Precedence(req, fs, "x");
  }

  /** With no source present, or only filter files that do not exist, the
      result is the empty table. */
  lemma NothingPresentResolvesEmpty(paths: seq<string>, fs: FileSystem)
    requires forall i | 0 <= i < |paths| :: paths[i] !in fs
    ensures GetProperties(FilteringRequest(None, None, None, None), fs) == Success(map[])
    ensures GetProperties(FilteringRequest(Some(paths), None, None, None), fs) == Success(map[])
  {
    var req := FilteringRequest(Some(paths), None, None, None);
    forall k ensures k !in GetProperties(req, fs).value {
      ResolvedKeys(req, fs, k);
      var layers := Layers(req, fs);
      forall i | 0 <= i < |layers| ensures !DefinesAt(layers, i, k) {
        if i < |paths| {
          assert layers[i] == FileLayer(fs, paths[i]);
        } else {
          assert layers[i] == RequestLayers(req)[i - |paths|];
        }
      }
    }
    var none := FilteringRequest(None, None, None, None);
    forall k ensures k !in GetProperties(none, fs).value {
      ResolvedKeys(none, fs, k);
      var layers := Layers(none, fs);
      forall i | 0 <= i < |layers| ensures !DefinesAt(layers, i, k) {
        assert layers[i] == RequestLayers(none)[i];
      }
    }
  }

  /** Inserting a path that does not exist into the filter list changes nothing. */
  lemma {:induction false} LoadFiltersSkipsMissing(paths: seq<string>, fs: FileSystem, acc: Properties, i: int, path: string)
    requires path !in fs && 0 <= i <= |paths|
    ensures LoadFilters(paths[..i] + [path] + paths[i..], fs, acc) == LoadFilters(paths, fs, acc)
    decreases i
  {
    var inserted := paths[..i] + [path] + paths[i..];
    if i == 0 {
      assert inserted[1..] == paths;
    } else {
      assert inserted[0] == paths[0];
      assert inserted[1..] == paths[1..][..i - 1] + [path] + paths[1..][i - 1..];
      if !FailsToLoad(fs, paths[0]) {
        LoadFiltersSkipsMissing(paths[1..], fs, PutAll(acc, FileLayer(fs, paths[0])), i - 1, path);
      }
    }
  }

  /** A filter file that does not exist contributes nothing, wherever it is listed. */
  lemma MissingFilterFileIgnored(req: FilteringRequest, fs: FileSystem, i: int, path: string)
    requires req.filters.Some? && 0 <= i <= |req.filters.value| && path !in fs
    ensures var paths := req.filters.value;
      GetProperties(req.(filters := Some(paths[..i] + [path] + paths[i..])), fs) == GetProperties(req, fs)
  {
    LoadFiltersSkipsMissing(req.filters.value, fs, map[], i, path);
  }
}
