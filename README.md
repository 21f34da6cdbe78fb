# GhidraBridge namespace projection, in Dafny

This project models how `GhidraBridge` projects the remote Ghidra script's
`__main__` module into a caller's Python namespace and how it takes that
projection back out.

- **Load** (`get_flat_api(namespace)`) walks the remote module's ordered
  `_bridge_attrs` list. It skips names starting with `__` and names in
  `EXCLUDED_REMOTE_IMPORTS`. It binds every other name into the namespace, and
  it records each binding in a fresh dict stored under the reserved key
  `__ghidra_bridge_namespace_track__`.
- **Unload** (`unload_flat_api(namespace)`) walks that record. It deletes a name
  only if the name is still bound to the recorded value. It raises if there is
  no record.
- **The bridge object**:
  - its constructor loads when given a namespace;
  - `unload_flat_api(None)` falls back to the remembered namespace;
  - `__exit__` unloads only when a namespace was remembered.

Files:

- `wrappers.dfy`: the `Option`, `Result` and `Outcome` datatypes. `Result` and
  `Outcome` stand for Python's raised exceptions.
- `flat_api.dfy` (module `FlatApi`):
  - the constants and the name filter;
  - the specification functions `Record`, `Loaded` and `Unloaded`, which give the
    namespace (a `map<string, Val>`) that a load or an unload produces;
  - lemmas about those functions.
- `ghidra_bridge.dfy` (module `Bridge`):
  - a class `Namespace` holding the caller's mutable dict, so that the bridge
    and its caller share one object, as in Python;
  - the class `GhidraBridge`, whose methods run the source's loops in place.
    Each method is proved to compute exactly what the specification functions say.

Modelling choices:

- A value is `Atom(id)` (a remote proxy or a primitive, abstracted to an
  opaque identifier) or `Dict(entries)` (a dict, such as the tracking record).
  Python's `==` is modelled as equality of these values; see "## Left out" for
  what that abstraction assumes.
- The remote `__main__` module is the `RemoteMain` datatype. It holds the
  `_bridge_attrs` list with each attribute already resolved to a value, plus the
  tool that `state.getTool()` returns. `getattr` is therefore a pure lookup.
  `remote_import` and the transport are not modelled.
- Every `raise Exception(...)` in the source becomes one case of `BridgeError`.
  A tracking key bound to something that is not a dict makes `.items()` fail in
  Python. The model reports that case as `TrackNotADict`.
- Unload walks the record's keys as a set, in an arbitrary order. Python walks
  them in insertion order. Each deletion depends only on its own key, so the
  result does not depend on the order.

Consequences of the code (`ghidra_bridge/ghidra_bridge.py`) that the lemmas
make explicit:

- Unload leaves the tracking key in place. A second unload therefore succeeds
  and changes nothing (`UnloadTwice`).
- Load does not save a binding it overwrites, so unload deletes that name
  (`LoadUnloadRoundTrip`). Load then unload restores the namespace exactly only
  when the load bound no name that was already present (`ProjectionSymmetry`).
- A second load without an unload replaces the record. Names bound only by the
  first load then stay in the namespace after one unload (`ReloadThenUnload`).
- `__exit__` lets an unload error propagate to its caller.

## Model

| member | source | states |
|---|---|---|
| `FlatApi.StartsWithDunder` | ghidra_bridge/ghidra_bridge.py:90 | `attr.startswith("__")`: true exactly when the name's first two characters are `__` |
| `FlatApi.Projectable` | ghidra_bridge/ghidra_bridge.py:90 | the load filter rejects every name in `EXCLUDED_REMOTE_IMPORTS` (lines 8-9) and every `__`-prefixed name, and so never admits the tracking key (line 11) |
| `FlatApi.TrackKeyNotProjectable` | ghidra_bridge/ghidra_bridge.py:11 | the tracking key starts with `__`, so the load filter never lets a remote attribute overwrite the record |
| `FlatApi.Record` | ghidra_bridge/ghidra_bridge.py:89-94 | the tracking record holds only names that pass the filter (no `__` prefix, not excluded) |
| `FlatApi.RecordKeyListed` | ghidra_bridge/ghidra_bridge.py:89-94 | every recorded name occurs in the remote attribute list |
| `FlatApi.RecordLastWins` | ghidra_bridge/ghidra_bridge.py:89-94 | every projectable attribute is recorded; when a name is listed more than once, its last occurrence's value wins |
| `FlatApi.LoadedStep` | ghidra_bridge/ghidra_bridge.py:89-94 | one loop iteration binds a projectable attribute in both the namespace and the record, and skips a filtered one |
| `FlatApi.Loaded` | ghidra_bridge/ghidra_bridge.py:84-94 | after a load, the tracking key holds a fresh record of exactly this load; every recorded name is bound to its recorded value; dunder-prefixed, excluded and unrecorded keys are unchanged |
| `FlatApi.Unbind` | ghidra_bridge/ghidra_bridge.py:109-112 | the deletion loop: a name goes iff it is walked, recorded, and still bound to its recorded value; nothing is added and no kept name is rebound |
| `FlatApi.Unloaded` | ghidra_bridge/ghidra_bridge.py:108-115 | with no tracking key, unload raises "not projected"; with a non-dict there, it fails; otherwise a key is deleted iff it is recorded and still equal to its recorded value; kept keys keep their values, and the tracking key stays |
| `FlatApi.LoadUnloadRoundTrip` | ghidra_bridge/ghidra_bridge.py:84-112 | load then unload leaves the original namespace minus every projected name (shadowed names included), plus the tracking record |
| `FlatApi.ProjectionSymmetry` | ghidra_bridge/ghidra_bridge.py:84-112 | if the namespace held no projected name and no tracking key, load then unload restores it exactly, apart from the added tracking key |
| `FlatApi.UnloadKeepsRebound` | ghidra_bridge/ghidra_bridge.py:99-112 | a projected name the caller rebinds to a different value keeps that value through unload; all other projected names are still removed |
| `FlatApi.ReloadThenUnload` | ghidra_bridge/ghidra_bridge.py:86-112 | a second load replaces the record with the second load's names only; a single unload then leaves behind the names only the first load bound |
| `FlatApi.UnloadTwice` | ghidra_bridge/ghidra_bridge.py:108-112 | an unload that succeeded can be repeated; the repeat changes nothing |
| `FlatApi.ScenarioRebindThenUnload` | ghidra_bridge/ghidra_bridge.py:84-112 | concrete case: `{x:1}` loaded with `foo=10, bar=20`, then `foo` rebound to 99; unload yields `{x:1, foo:99}` plus the record |
| `FlatApi.ScenarioUnloadFresh` | ghidra_bridge/ghidra_bridge.py:113-115 | concrete case: unloading an empty namespace raises "not projected" |
| `FlatApi.ScenarioFilter` | ghidra_bridge/ghidra_bridge.py:8-9 | concrete case: `__name__` and the excluded `bridge` are skipped; only `currentProgram` is recorded |
| `Bridge.GhidraBridge.Connect` | ghidra_bridge/ghidra_bridge.py:27-33 | a new bridge keeps its connection settings and mode, and has no listener and no remembered namespace |
| `Bridge.GhidraBridge.New` | ghidra_bridge/ghidra_bridge.py:15-41 | the constructor raises iff a namespace is given while the host or port is None, leaving the namespace untouched; otherwise it remembers the namespace and loads it at once (registering the listener when interactive); without a namespace, no listener is created |
| `Bridge.GhidraBridge.GetFlatApi` | ghidra_bridge/ghidra_bridge.py:43-96 | the listener is created and registered exactly once, only in interactive mode and only when none exists; a given namespace ends up equal to `Loaded` of its old bindings; the remote module is returned |
| `Bridge.GhidraBridge.UnloadFlatApi` | ghidra_bridge/ghidra_bridge.py:98-115 | with no argument, it uses the remembered namespace, and raises when there is none; the target ends up equal to `Unloaded` of its old bindings; on any error, it is left unchanged |
| `Bridge.GhidraBridge.Exit` | ghidra_bridge/ghidra_bridge.py:132-134 | `__exit__` does nothing without a remembered namespace; otherwise it unloads that namespace and passes on the outcome |
| `Bridge.ScopedSession` | ghidra_bridge/ghidra_bridge.py:39-41 | a bridge opened with a namespace and then exited leaves that namespace without any projected name, with the record, and otherwise as it started |

## Left out

- The transport: `bridge.BridgeClient` connection setup, `remote_import`, and lazy remote attribute resolution. The remote module comes in as an already-resolved value.
- `get_ghidra_api` and `get_java_api`: each is a single `remote_import` call into the transport.
- `__enter__`: it only returns the bridge itself.
- The `InteractiveListener` class: it subclasses a remote Java interface, and its `addToolListener`/`removeToolListener` calls, `__del__` finalizer and `processToolEvent` printing all act on the remote side. The model keeps only the fact that the listener was created and registered once, together with the tool it registered with. Its `update_list` is never read in the source, so it is not modelled.
- GetFlatApi and New assume that creating the interactive listener succeeds. The source's own comment at ghidra_bridge/ghidra_bridge.py:57-58 says that defining the class over the bridged `ToolListener` fails, and `state.getTool()` and `addToolListener` are remote calls that can also raise. Any such failure would raise out of `get_flat_api`, and so out of `__init__`, before line 86, leaving the namespace untouched. Interactive mode is the default, so this path matters; the model does not capture it.
- The `loglevel` parameter and the interactive-mode auto-detection the docstring describes: both are environmental.
- Concurrency: remote callbacks arriving while a load or an unload runs.
- Exceptions raised partway through a load by a failing remote `getattr`: in the model, attribute resolution always succeeds.
- Unloaded, UnloadFlatApi and LoadUnloadRoundTrip assume that Python's `==` at ghidra_bridge/ghidra_bridge.py:111 is reflexive and never raises. In Python it need not be. A float NaN is not equal to itself, so a projected NaN survives unload, and "every projected name is gone" fails for it. A proxied `__eq__` may make a remote round trip and raise partway through the loop at lines 109-112, leaving some names deleted and others not. The model's unload, by contrast, is all-or-nothing.
