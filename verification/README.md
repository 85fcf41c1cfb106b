# Jinja Maven file filter — a Dafny model

This project models the core of the Maven resource-filtering extension
`JinjaMavenFileFilter`. During a resource copy with filtering on, a
destination whose name ends in the marker extension `.j2` has one trailing
marker removed. The file is then copied with the memoised wrapper list: the
base class's default wrappers followed by the Jinja wrapper, which renders it
as a Jinja template. After a failed initialisation that list is the defaults
alone, and before initialisation it is null. Every other copy, including a
`.j2` destination with filtering off, passes through unchanged. The bindings
come from the build's properties. The model has four parts, one per piece of
logic in the class:

- **Copy routing** (`JinjaFileFilter.CopyFile`): the decision `copyFile` makes
  and the arguments it hands to the base class's `copyFile`, recorded as a
  `Delegation` value.
- **Layered property resolution** (`PropertyResolution.GetProperties`): the
  order of `putAll` calls over filter files, project, session system, session
  user and additional properties. A right-biased `Overlay` of optional layers
  is the reference it is proved against.
- **Binding normalisation** (`Bindings.GetBindings`): `.` becomes `_` in every
  key. The iteration order of the `Properties` table is a parameter, and when keys collide
  the last entry wins.
- **Memoised initialisation** (`JinjaFileFilter.GetDefaultFilterWrappers`):
  the field `jinjaFilterWrappers` as a state record with a pure step function.
  `Replay` runs a sequence of calls.

Files: `results.dfy` (Option/Result), `strings.dfy` (`endsWith`,
`StringUtils.removeEnd`, `String.replace`), `properties.dfy`, `bindings.dfy`,
`file_filter.dfy`.

Three points about what the code does:

- A marked file is copied with the wrapper list built on the first
  `getDefaultFilterWrappers` call. That list is the base class's default
  wrappers followed by the Jinja wrapper. The default wrappers are therefore
  not bypassed; only the caller's `filterWrappers` are ignored.
- A broken filter file surfaces as one of two exceptions. An
  I/O failure is wrapped in a `MavenFilteringException` (`InitialisationFailed`).
  A malformed `\uXXXX` escape makes `Properties.load` throw an unchecked
  `IllegalArgumentException`. The `catch (IOException)` does not catch that,
  so it escapes unwrapped (`IllegalArgument`). In both cases the field already
  holds the defaults alone.
- Bindings are recomputed from the memoised properties on every
  `getReader` call. Only the properties are computed once.

## Model

| member | source | states |
|---|---|---|
| Strings.RemoveEnd | src/main/java/de/delker/maven/resources/filtering/JinjaMavenFileFilter.java:99 | when the name ends with a non-empty suffix, the result followed by the suffix is the name; otherwise the name is returned unchanged |
| Strings.RemoveEndUndoesAppend | src/main/java/de/delker/maven/resources/filtering/JinjaMavenFileFilter.java:99 | for every suffix, empty included, removing it from `p + suffix` gives back `p`, so only one trailing occurrence is removed |
| Strings.Replace | src/main/java/de/delker/maven/resources/filtering/JinjaMavenFileFilter.java:186 | the length is kept, every `x` becomes `y`, every other character is kept, and no `x` remains when `x != y` |
| PropertyResolution.PutAll | src/main/java/de/delker/maven/resources/filtering/JinjaMavenFileFilter.java:126 | `putAll` of a present table: the keys are the union, and the added table's values win |
| PropertyResolution.OverlaySemantics | src/main/java/de/delker/maven/resources/filtering/JinjaMavenFileFilter.java:116-148 | a key is resolved iff some present layer defines it, and it takes the value of the highest such layer |
| PropertyResolution.OverlayConcat | src/main/java/de/delker/maven/resources/filtering/JinjaMavenFileFilter.java:116-148 | layering `a + b` is the same as layering `b` over the single resolved table of `a` |
| PropertyResolution.LoadFilters | src/main/java/de/delker/maven/resources/filtering/JinjaMavenFileFilter.java:119-130 | the filter loop fails iff some listed existing file is broken, fails with the first such file's error, and otherwise equals the overlay of the accumulator and the existing files in list order |
| PropertyResolution.PutRequestProperties | src/main/java/de/delker/maven/resources/filtering/JinjaMavenFileFilter.java:132-146 | the project, session system, session user and additional `putAll`s equal the overlay of those four optional layers over the base |
| PropertyResolution.GetProperties | src/main/java/de/delker/maven/resources/filtering/JinjaMavenFileFilter.java:114-149 | fails iff a listed existing filter file is broken, with the first such file's error; on success the result is the overlay of all layers in precedence order |
| PropertyResolution.ResolvedKeys | src/main/java/de/delker/maven/resources/filtering/JinjaMavenFileFilter.java:116-148 | a key is resolved iff an existing filter file or a present request source defines it |
| PropertyResolution.RequestLayerWins | src/main/java/de/delker/maven/resources/filtering/JinjaMavenFileFilter.java:132-146 | a request source defining a key, with no higher request source defining it, supplies the resolved value |
| PropertyResolution.Precedence | src/main/java/de/delker/maven/resources/filtering/JinjaMavenFileFilter.java:132-146 | additional beats session user, which beats session system, which beats project, whatever the lower sources hold |
| PropertyResolution.FilterFilePrecedence | src/main/java/de/delker/maven/resources/filtering/JinjaMavenFileFilter.java:119-130 | filter files sit below every request source, and among them the later listed file wins |
| PropertyResolution.AdditionalWinsExample | src/main/java/de/delker/maven/resources/filtering/JinjaMavenFileFilter.java:116-148 | with `x` defined as 1 to 5 in the five sources, the resolved `x` is `5` |
| PropertyResolution.NothingPresentResolvesEmpty | src/main/java/de/delker/maven/resources/filtering/JinjaMavenFileFilter.java:119-146 | with every source absent, or only missing filter files listed, the result is the empty table |
| PropertyResolution.LoadFiltersSkipsMissing | src/main/java/de/delker/maven/resources/filtering/JinjaMavenFileFilter.java:121-122 | inserting a non-existent path anywhere in the filter list leaves the loop's result unchanged, error included |
| PropertyResolution.MissingFilterFileIgnored | src/main/java/de/delker/maven/resources/filtering/JinjaMavenFileFilter.java:119-130 | a missing filter file contributes nothing to the resolved properties, wherever it is listed |
| Bindings.CollectKey | src/main/java/de/delker/maven/resources/filtering/JinjaMavenFileFilter.java:184-189 | a binding key exists iff some visited entry normalises to it |
| Bindings.CollectLastEntry | src/main/java/de/delker/maven/resources/filtering/JinjaMavenFileFilter.java:184-189 | every binding holds the value of the last visited entry whose key normalises to it |
| Bindings.CollectValue | src/main/java/de/delker/maven/resources/filtering/JinjaMavenFileFilter.java:188 | the merge function `(prev, next) -> next` makes the last entry with a given binding key supply its value |
| Bindings.CollectNormalises | src/main/java/de/delker/maven/resources/filtering/JinjaMavenFileFilter.java:184-189 | collecting along an iteration order yields exactly the normalised keys, no key with `.`, and each value from a property whose key normalises to it |
| Bindings.GetBindings | src/main/java/de/delker/maven/resources/filtering/JinjaMavenFileFilter.java:183-190 | null properties give null bindings; otherwise the key set is the image of the property keys under `.`→`_`, no binding key contains `.`, and each value is one of the colliding properties' values |
| Bindings.ValuesKeptWithoutCollisions | src/main/java/de/delker/maven/resources/filtering/JinjaMavenFileFilter.java:184-189 | when no two keys collide, each property's value is bound under its normalised key |
| Bindings.OrderIrrelevantWithoutCollisions | src/main/java/de/delker/maven/resources/filtering/JinjaMavenFileFilter.java:184-189 | when no two keys collide, the bindings do not depend on the iteration order |
| Bindings.CollisionExample | src/main/java/de/delker/maven/resources/filtering/JinjaMavenFileFilter.java:186-188 | `a.b` and `a_b` leave one binding `a_b`, whose value comes from whichever entry is visited last |
| Bindings.DottedKeyExample | src/main/java/de/delker/maven/resources/filtering/JinjaMavenFileFilter.java:186 | the property `app.name` becomes the binding `app_name` with the same value |
| JinjaFileFilter.GetDefaultFilterWrappers | src/main/java/de/delker/maven/resources/filtering/JinjaMavenFileFilter.java:66-83 | returns the base class's defaults unmodified, or rethrows the base class's exception unchanged with the field untouched; a set field is never changed; the first call sets it to defaults plus a Jinja wrapper of the resolved properties, or, when resolution fails, to the defaults alone while throwing |
| JinjaFileFilter.InitialisedStateIsFrozen | src/main/java/de/delker/maven/resources/filtering/JinjaMavenFileFilter.java:70 | once the field is set, no sequence of later calls changes it |
| JinjaFileFilter.FirstInitialisationDecides | src/main/java/de/delker/maven/resources/filtering/JinjaMavenFileFilter.java:70-79 | the state after any sequence of calls is the one produced by the first call whose base-class defaults were obtained |
| JinjaFileFilter.FailedInitialisationIsFinal | src/main/java/de/delker/maven/resources/filtering/JinjaMavenFileFilter.java:71-78 | a failed first initialisation throws and leaves the defaults alone in the field; the field never changes afterwards, and later calls succeed without retrying |
| JinjaFileFilter.CopyFile | src/main/java/de/delker/maven/resources/filtering/JinjaMavenFileFilter.java:87-112 | the destination changes iff filtering is on and the name ends in `.j2`; a marked task keeps its parent, gets the name minus one trailing `.j2`, and is copied with filtering on and the memoised wrapper list; `from`, encoding and overwrite always pass through; an unmarked task passes all six arguments unchanged |
| JinjaFileFilter.MarkerStripRoundTrip | src/main/java/de/delker/maven/resources/filtering/JinjaMavenFileFilter.java:97-99 | a filtered copy to `name + ".j2"` writes to `name` in the same parent, for every name |
| JinjaFileFilter.MarkerExamples | src/main/java/de/delker/maven/resources/filtering/JinjaMavenFileFilter.java:97-99 | `a.j2.j2` becomes `a.j2` and `foo.txt.j2` becomes `foo.txt`; `a.j2.txt`, and `a.j2` with filtering off, keep their names |
| JinjaFileFilter.MarkedCopyUsesResolvedProperties | src/main/java/de/delker/maven/resources/filtering/JinjaMavenFileFilter.java:98-106 | after a successful first initialisation, every marked copy gets that call's defaults followed by a Jinja wrapper holding the properties resolved then |
| JinjaFileFilter.JinjaGetReader | src/main/java/de/delker/maven/resources/filtering/JinjaMavenFileFilter.java:162-180 | fails iff reading the template fails, with the same I/O error; otherwise the result is the engine's rendering of the template under a normalisation of the wrapper's properties |
| JinjaFileFilter.RenderingIndependentOfOrder | src/main/java/de/delker/maven/resources/filtering/JinjaMavenFileFilter.java:173-176 | without key collisions, the rendered text does not depend on the properties' iteration order |

## Left out

- The base class `DefaultMavenFileFilter`: its `copyFile` (reading, encoding, writing, overwrite and up-to-date checks) and its `getDefaultFilterWrappers`. The copy is recorded as a `Delegation`. The defaults are an input that may be an exception.
- File reading and `IOUtils.toString`: the template text is an input that may be an I/O error.
- `Properties.load` parsing: a filter file is absent from the file-system map, a loaded table, or a load failure.
- Jinjava rendering: an uninterpreted function parameter `render(template, bindings)`. Rendering errors are not modelled. The model treats `render` as a pure function of the template and the bindings. Templates that use Jinjava's `random` or `shuffle` filters, or its date functions such as `today()`, are not pure: two renderings of the same template can differ.
- JinjaFileFilter.RenderingIndependentOfOrder: stated for pure rendering only; with an impure template, even the same iteration order can give different text.
- The iteration order of the `Properties` table: a parameter `order` listing the property keys. Which colliding key wins depends on it, so only "one of the colliding values" is stated for an arbitrary order.
- JinjaFileFilter.JinjaGetReader: states that the bindings are some normalisation of the properties, not which one. The exact value under a given order is stated by `Bindings.CollectLastEntry`.
- Non-string property keys and values: every key and value is a string, so `String.valueOf` is the identity.
- The `defaults` chain of `java.util.Properties`, and a session whose system or user properties are null (`putAll(null)` throws): sessions always carry both tables.
- `java.io.File` path handling: a file is a parent path and a name. For a destination named exactly `.j2`, Java's `new File(parent, "")` resolves to the parent directory itself; the model yields a file with an empty name.
- A marked copy before initialisation passes a null wrapper list to the base class. The model records `None` in the delegation and does not model what the base class does with it.
- `JinjaMavenResourcesFiltering`: dependency-injection wiring with no logic. Annotations, `BuildContext` and container lifetimes are also left out.
- Concurrency: the source has no synchronisation, and the model is sequential.
