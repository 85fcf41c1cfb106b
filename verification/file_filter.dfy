/** The Jinja Maven file filter: a memoised wrapper list built on the first
    `getDefaultFilterWrappers` call, a name-based routing decision in
    `copyFile`, and the Jinja wrapper's reader, which renders a template with
    the normalised property bindings. The base class's copy is not modelled:
    each `copyFile` call yields the `Delegation` it hands to it. */
module JinjaFileFilter {
  import opened Results
  import opened Strings
  import opened PropertyResolution
  import opened Bindings

  /** `JINJA_EXT`: the marker extension of templated destinations. */
  const JinjaExt: string := ".j2"

  /** A filter wrapper: one of the host's default wrappers, opaque here, or
      the Jinja wrapper holding the resolved properties. */
  datatype FilterWrapper = HostWrapper(id: nat) | JinjaWrapper(properties: Properties)

  /** A `java.io.File`: its parent path (`None` when it has none) and its name. */
  datatype File = File(parent: Option<string>, name: string)

  /** The filter's only state, the field `jinjaFilterWrappers`; `None` is null. */
  datatype FileFilter = FileFilter(jinjaFilterWrappers: Option<seq<FilterWrapper>>)

  /** A newly constructed filter. */
  const Fresh: FileFilter := FileFilter(None)

  predicate Initialised(ff: FileFilter) {
    ff.jinjaFilterWrappers.Some?
  }

  /** What `getDefaultFilterWrappers` can throw: the base class's own
      exception, the wrapping `MavenFilteringException` for an I/O failure
      while loading properties, or the unchecked `IllegalArgumentException` of
      a malformed filter file, which the `catch (IOException)` lets through. */
  datatype FilteringError =
    | HostFailure(reason: string)
    | InitialisationFailed(cause: LoadError)
    | IllegalArgument(cause: LoadError)

  /** The exception a property-loading error surfaces as. */
  function Raised(e: LoadError): FilteringError {
    match e.failure
    case Unreadable => InitialisationFailed(e)
    case MalformedEscape => IllegalArgument(e)
  }

  /** One call of `getDefaultFilterWrappers`: what the base class returns or
      throws for the request, the request itself, and the file system the
      filter files are read from. */
  datatype Invocation = Invocation(
    hostDefaults: Result<seq<FilterWrapper>, FilteringError>,
    request: FilteringRequest,
    fs: FileSystem)

  /** What a call returns or throws, and the filter's state afterwards. */
  datatype Outcome = Outcome(returned: Result<seq<FilterWrapper>, FilteringError>, next: FileFilter)

  /** `getDefaultFilterWrappers(request)`. The field is set to a copy of the
      defaults before the properties are loaded, so a loading failure leaves
      it holding the defaults alone. */
  function GetDefaultFilterWrappers(ff: FileFilter, call: Invocation): (o: Outcome)
    ensures o.returned.Success? ==> o.returned == call.hostDefaults
    ensures call.hostDefaults.Failure? ==> o.returned == call.hostDefaults
    ensures o.returned.Failure? <==>
      call.hostDefaults.Failure? || (!Initialised(ff) && GetProperties(call.request, call.fs).Failure?)
    ensures call.hostDefaults.Failure? || Initialised(ff) ==> o.next == ff
    ensures call.hostDefaults.Success? && !Initialised(ff) ==>
      (match GetProperties(call.request, call.fs)
       case Success(p) => o.next == FileFilter(Some(call.hostDefaults.value + [JinjaWrapper(p)]))
       case Failure(e) => o.next == FileFilter(Some(call.hostDefaults.value)) && o.returned == Failure(Raised(e)))
  {
    if call.hostDefaults.Failure? || Initialised(ff) then Outcome(call.hostDefaults, ff)
    else
      var defaults := call.hostDefaults.value;
      var withDefaults := FileFilter(Some(defaults));
      match GetProperties(call.request, call.fs)
      case Failure(e) => Outcome(Failure(Raised(e)), withDefaults)
      case Success(p) => Outcome(call.hostDefaults, FileFilter(Some(defaults + [JinjaWrapper(p)])))
  }

  /** The state after a sequence of calls. */
  function Replay(ff: FileFilter, calls: seq<Invocation>): FileFilter
    decreases |calls|
  {
    if calls == [] then ff
    else Replay(GetDefaultFilterWrappers(ff, calls[0]).next, calls[1..])
  }

  /** Once the field is set, no later call changes it. */
  lemma {:induction false} InitialisedStateIsFrozen(ff: FileFilter, calls: seq<Invocation>)
    requires Initialised(ff)
    ensures Replay(ff, calls) == ff
    decreases |calls|
  {
    if calls != [] {
      InitialisedStateIsFrozen(GetDefaultFilterWrappers(ff, calls[0]).next, calls[1..]);
    }
  }

  /** Call `k` is the first whose base-class defaults were obtained. */
  predicate FirstHostSuccess(calls: seq<Invocation>, k: int) {
    && 0 <= k < |calls|
    && calls[k].hostDefaults.Success?
    && forall j | 0 <= j < k :: calls[j].hostDefaults.Failure?
  }

  /** The state is computed once: it is whatever the first call that reached
      the initialisation produced, whatever the later calls carry. */
  lemma {:induction false} FirstInitialisationDecides(calls: seq<Invocation>, k: int)
    requires FirstHostSuccess(calls, k)
    ensures Replay(Fresh, calls) == GetDefaultFilterWrappers(Fresh, calls[k]).next
    decreases k
  {
    if k == 0 {
      InitialisedStateIsFrozen(GetDefaultFilterWrappers(Fresh, calls[0]).next, calls[1..]);
    } else {
      assert FirstHostSuccess(calls[1..], k - 1);
      FirstInitialisationDecides(calls[1..], k - 1);
    }
  }

  /** A failed initialisation throws, leaves only the defaults in the field,
      and is never retried: every later call whose defaults are obtained
      succeeds and the field keeps no Jinja wrapper. */
  lemma FailedInitialisationIsFinal(call: Invocation, later: seq<Invocation>)
    requires call.hostDefaults.Success? && GetProperties(call.request, call.fs).Failure?
    ensures GetDefaultFilterWrappers(Fresh, call).returned.Failure?
    ensures GetDefaultFilterWrappers(Fresh, call).next == FileFilter(Some(call.hostDefaults.value))
    ensures Replay(GetDefaultFilterWrappers(Fresh, call).next, later) == FileFilter(Some(call.hostDefaults.value))
    ensures forall j | 0 <= j < |later| && later[j].hostDefaults.Success? ::
      GetDefaultFilterWrappers(FileFilter(Some(call.hostDefaults.value)), later[j]).returned == later[j].hostDefaults
  {
    InitialisedStateIsFrozen(GetDefaultFilterWrappers(Fresh, call).next, later);
  }

  // ---------------------------------------------------------------------
  // copyFile
  // ---------------------------------------------------------------------

  /** A destination is marked for Jinja rendering. */
  predicate Marked(filtering: bool, to: File) {
    filtering && EndsWith(to.name, JinjaExt)
  }

  /** The arguments `copyFile` passes on to the base class's `copyFile`. */
  datatype Delegation = Delegation(
    from: File,
    to: File,
    filtering: bool,
    filterWrappers: Option<seq<FilterWrapper>>,
    encoding: Option<string>,
    overwrite: bool)

  /** `copyFile(from, to, filtering, filterWrappers, encoding, overwrite)`. */
  function CopyFile(
    ff: FileFilter, from: File, to: File, filtering: bool,
    filterWrappers: Option<seq<FilterWrapper>>, encoding: Option<string>, overwrite: bool): (d: Delegation)
    ensures d.from == from && d.encoding == encoding && d.overwrite == overwrite
    ensures d.to == to <==> !Marked(filtering, to)
    ensures Marked(filtering, to) ==>
      && d.to.parent == to.parent
      && d.to.name + JinjaExt == to.name
      && d.filtering
      && d.filterWrappers == ff.jinjaFilterWrappers
    ensures !Marked(filtering, to) ==> d == Delegation(from, to, filtering, filterWrappers, encoding, overwrite)
  {
    var toFileName := to.name;
    if filtering && EndsWith(toFileName, JinjaExt) then
      var newTo := File(to.parent, RemoveEnd(toFileName, JinjaExt));
      Delegation(from, newTo, true, ff.jinjaFilterWrappers, encoding, overwrite)
    else
      Delegation(from, to, filtering, filterWrappers, encoding, overwrite)
  }

  /** Marking a name and copying with filtering gives back the name itself:
      exactly one marker is removed, any earlier `.j2` stays. */
  lemma MarkerStripRoundTrip(
    ff: FileFilter, from: File, parent: Option<string>, name: string,
    filterWrappers: Option<seq<FilterWrapper>>, encoding: Option<string>, overwrite: bool)
    ensures Marked(true, File(parent, name + JinjaExt))
    ensures CopyFile(ff, from, File(parent, name + JinjaExt), true, filterWrappers, encoding, overwrite).to
         == File(parent, name)
  {
    RemoveEndUndoesAppend(name, JinjaExt);
  }

  /** `a.j2.j2` becomes `a.j2`, `foo.txt.j2` becomes `foo.txt`; `a.j2.txt` and
      an unfiltered `a.j2` keep their names. */
  lemma MarkerExamples(ff: FileFilter, from: File, parent: Option<string>)
    ensures CopyFile(ff, from, File(parent, "a.j2.j2"), true, None, None, false).to == File(parent, "a.j2")
    ensures CopyFile(ff, from, File(parent, "foo.txt.j2"), true, None, None, false).to == File(parent, "foo.txt")
    ensures CopyFile(ff, from, File(parent, "a.j2.txt"), true, None, None, false).to == File(parent, "a.j2.txt")
    ensures CopyFile(ff, from, File(parent, "a.j2"), false, None, None, false).to == File(parent, "a.j2")
  {
    MarkerStripRoundTrip(ff, from, parent, "a.j2", None, None, false);
    assert "a.j2" + JinjaExt == "a.j2.j2";
    MarkerStripRoundTrip(ff, from, parent, "foo.txt", None, None, false);
    assert "foo.txt" + JinjaExt == "foo.txt.j2";
    assert !EndsWith("a.j2.txt", JinjaExt) by {
      assert "a.j2.txt"[5..] == "txt";
    }
  }

  /** After the first initialisation succeeded, every marked copy is handed
      the defaults of that first call followed by a Jinja wrapper holding the
      properties resolved then. */
  lemma MarkedCopyUsesResolvedProperties(
    calls: seq<Invocation>, k: int, from: File, to: File,
    filterWrappers: Option<seq<FilterWrapper>>, encoding: Option<string>, overwrite: bool)
    requires FirstHostSuccess(calls, k)
    requires GetProperties(calls[k].request, calls[k].fs).Success?
    requires Marked(true, to)
    ensures CopyFile(Replay(Fresh, calls), from, to, true, filterWrappers, encoding, overwrite).filterWrappers
         == Some(calls[k].hostDefaults.value + [JinjaWrapper(GetProperties(calls[k].request, calls[k].fs).value)])
  {
    FirstInitialisationDecides(calls, k);
  }

  // ---------------------------------------------------------------------
  // Wrapper.getReader
  // ---------------------------------------------------------------------

  /** An `IOException` while reading the template text. */
  datatype IoError = IoError(message: string)

  /** `Wrapper.getReader`: reads the whole template, renders it with the
      bindings of the wrapper's properties, and yields the rendered text; a
      read failure is rethrown unchecked. `order` is the iteration order of
      the properties, `render` the opaque template engine. */
  function JinjaGetReader(
    properties: Properties, source: Result<string, IoError>, order: seq<string>,
    render: (string, map<string, string>) -> string): (r: Result<string, IoError>)
    requires Enumerates(order, properties)
    ensures r.Failure? <==> source.Failure?
    ensures source.Failure? ==> r.error == source.error
    ensures r.Success? ==> exists b :: NormalisedFrom(properties, b) && r.value == render(source.value, b)
  {
    match source
    case Failure(e) => Failure(e)
    case Success(template) =>
      var bindings := GetBindings(Some(properties), order);
      Success(render(template, bindings.value))
  }

  /** Without key collisions the rendered text does not depend on the
      properties' iteration order. */
  lemma RenderingIndependentOfOrder(
    properties: Properties, source: Result<string, IoError>, order1: seq<string>, order2: seq<string>,
    render: (string, map<string, string>) -> string)
    requires Enumerates(order1, properties) && Enumerates(order2, properties) && NoCollisions(properties)
    ensures JinjaGetReader(properties, source, order1, render) == JinjaGetReader(properties, source, order2, render)
  {
    OrderIrrelevantWithoutCollisions(properties, order1, order2);
  }
}
