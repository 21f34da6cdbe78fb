/**
  The GhidraBridge object: it remembers the namespace it was created with and
  whether it has registered its interactive tool listener, and mutates
  caller-owned namespaces in place when loading and unloading the flat API.
*/
module Bridge {
  import opened Wrappers
  import opened FlatApi

  /** A caller-owned, mutable Python namespace (`locals()` or `globals()`).
      It is an object so that the bridge and its caller share one dict. */
  class Namespace {
    var bindings: map<string, Val>

    constructor (initial: map<string, Val>)
      ensures bindings == initial
    {
      bindings := initial;
    }
  }

  /** What `remote_import("__main__")` yields, already resolved: the ordered
      `_bridge_attrs` list paired with each attribute's value, and the remote
      tool that `state.getTool()` returns. */
  datatype RemoteMain = RemoteMain(attrs: seq<(string, Val)>, tool: Val)

  /** The connection settings handed to the transport client. */
  datatype Connection = Connection(host: Option<string>, port: Option<int>)

  /** The interactive listener; only the tool it registered with is kept. */
  datatype Listener = Listener(tool: Val)

  class GhidraBridge {
    const bridge: Connection
    const interactiveMode: bool
    var interactiveListener: Option<Listener>
    var namespace: Namespace?
    /** How many times a listener was registered with the remote tool. */
    ghost var registrations: nat

    /** At most one listener is ever registered, and only while one is held. */
    ghost predicate Valid()
      reads this
    {
      registrations == if interactiveListener.Some? then 1 else 0
    }

    /** The part of `__init__` that cannot fail: connect, no listener, no namespace. */
    constructor Connect(bridge: Connection, interactiveMode: bool)
      ensures Valid()
      ensures this.bridge == bridge && this.interactiveMode == interactiveMode
      ensures interactiveListener == None && namespace == null
    {
      this.bridge := bridge;
      this.interactiveMode := interactiveMode;
      interactiveListener := None;
      namespace := null;
      registrations := 0;
    }

    /** `__init__`: a namespace without a host or port raises; a namespace is
        otherwise remembered and loaded at once. */
    static method New(host: Option<string>, port: Option<int>, namespace: Namespace?,
                      interactiveMode: bool, remote: RemoteMain)
      returns (r: Result<GhidraBridge, BridgeError>)
      modifies namespace
      ensures r.Failure? <==> namespace != null && (host.None? || port.None?)
      ensures r.Failure? ==> r.error == NoServer
      ensures r.Failure? && namespace != null ==> namespace.bindings == old(namespace.bindings)
      ensures r.Success? ==> fresh(r.value) && r.value.Valid()
      ensures r.Success? ==> r.value.bridge == Connection(host, port)
      ensures r.Success? ==> r.value.interactiveMode == interactiveMode
      ensures r.Success? ==> r.value.namespace == namespace
      ensures r.Success? && namespace == null ==> r.value.interactiveListener == None
      ensures r.Success? && namespace != null ==>
                namespace.bindings == Loaded(old(namespace.bindings), remote.attrs) &&
                r.value.interactiveListener == if interactiveMode then Some(Listener(remote.tool)) else None
    {
      var b := new GhidraBridge.Connect(Connection(host, port), interactiveMode);
      if namespace != null {
        if host.None? || port.None? {
          return Failure(NoServer);
        }
        b.namespace := namespace;
        var _ := b.GetFlatApi(namespace, remote);
      }
      return Success(b);
    }

    /** `get_flat_api`: registers the listener once when interactive, then, if
        a namespace is given, binds every projectable remote attribute into it
        and records each binding under the tracking key. */
    method GetFlatApi(ns: Namespace?, remote: RemoteMain) returns (main: RemoteMain)
      requires Valid()
      modifies this`interactiveListener, this`registrations, ns
      ensures Valid()
      ensures main == remote
      ensures interactiveListener ==
                if interactiveMode && old(interactiveListener).None? then Some(Listener(remote.tool))
                else old(interactiveListener)
      ensures ns != null ==> ns.bindings == Loaded(old(ns.bindings), remote.attrs)
    {
      if interactiveMode {
        if interactiveListener.None? {
          interactiveListener := Some(Listener(remote.tool));
          registrations := registrations + 1;
        }
      }
      if ns != null {
        ns.bindings := ns.bindings[GHIDRA_BRIDGE_NAMESPACE_TRACK := Dict(map[])];
        var track: map<string, Val> := map[];
        for i := 0 to |remote.attrs|
          modifies ns
          invariant track == Record(remote.attrs[..i])
          invariant ns.bindings == Loaded(old(ns.bindings), remote.attrs[..i])
        {
          var (attr, value) := remote.attrs[i];
          assert remote.attrs[..i + 1] == remote.attrs[..i] + [(attr, value)];
          LoadedStep(old(ns.bindings), remote.attrs[..i], attr, value);
          if Projectable(attr) {
            ns.bindings := ns.bindings[attr := value];
            track := track[attr := value];
            ns.bindings := ns.bindings[GHIDRA_BRIDGE_NAMESPACE_TRACK := Dict(track)];
          }
        }
        assert remote.attrs[..|remote.attrs|] == remote.attrs;
      }
      return remote;
    }

    /** `unload_flat_api`: falls back to the remembered namespace, raises when
        there is none or when it holds no tracking record, and otherwise deletes
        each recorded name that is still bound to its recorded value. */
    method UnloadFlatApi(ns: Namespace?) returns (r: Outcome<BridgeError>)
      modifies if ns != null then ns else namespace
      ensures var target := if ns != null then ns else namespace;
              if target == null then r == Fail(NoNamespace)
              else match Unloaded(old(target.bindings))
                case Success(after) => r == Pass && target.bindings == after
                case Failure(e) => r == Fail(e) && target.bindings == old(target.bindings)
    {
      var target := if ns != null then ns else namespace;
      if target == null {
        return Fail(NoNamespace);
      }
      if GHIDRA_BRIDGE_NAMESPACE_TRACK !in target.bindings {
        return Fail(NotProjected);
      }
      match target.bindings[GHIDRA_BRIDGE_NAMESPACE_TRACK]
      case Atom(_) =>
        return Fail(TrackNotADict);
      case Dict(rec) =>
        ghost var start := target.bindings;
        var pending := rec.Keys;
        while pending != {}
          invariant pending <= rec.Keys
          invariant target.bindings == Unbind(start, rec, rec.Keys - pending)
          decreases pending
        {
          var key :| key in pending;
          if key in target.bindings {
            if target.bindings[key] == rec[key] {
              target.bindings := target.bindings - {key};
            }
          }
          pending := pending - {key};
        }
        return Pass;
    }

    /** `__exit__`: unloads the remembered namespace, if there is one. */
    method Exit() returns (r: Outcome<BridgeError>)
      modifies namespace
      ensures namespace == null ==> r == Pass
      ensures namespace != null ==>
                match Unloaded(old(namespace.bindings))
                case Success(after) => r == Pass && namespace.bindings == after
                case Failure(e) => r == Fail(e) && namespace.bindings == old(namespace.bindings)
    {
      r := Pass;
      if namespace != null {
        r := UnloadFlatApi(namespace);
      }
    }
  }

  /** A bridge opened with a namespace and left through `__exit__`, with no
      change in between: the namespace ends with every projected name gone,
      the tracking record in place, and everything else as it started. */
  method ScopedSession(initial: map<string, Val>, host: string, port: int, remote: RemoteMain)
    returns (after: map<string, Val>)
    ensures after == (initial - Record(remote.attrs).Keys)
                       [GHIDRA_BRIDGE_NAMESPACE_TRACK := Dict(Record(remote.attrs))]
  {
    var ns := new Namespace(initial);
    var made := GhidraBridge.New(Some(host), Some(port), ns, true, remote);
    var b := made.value;
    var closed := b.Exit();
    LoadUnloadRoundTrip(initial, remote.attrs);
    assert closed == Pass;
    after := ns.bindings;
  }
}
