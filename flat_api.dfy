/**
  The pure part of GhidraBridge's namespace projection: the constants, the name
  filter, and the namespace a load or an unload produces, as functions on maps.
  The class methods in module Bridge are proved to compute exactly these.
*/
module FlatApi {
  import opened Wrappers

  /** A value bound in a Python namespace. Remote proxies and primitives are
      opaque atoms compared by identity; a dict (such as the tracking record)
      carries its entries. */
  datatype Val = Atom(id: int) | Dict(entries: map<string, Val>)

  /** The reasons the bridge raises. */
  datatype BridgeError =
    | NoServer        // a namespace was given but the host or port is None
    | NoNamespace     // unload without a namespace, and none was remembered
    | NotProjected    // the tracking key is absent from the namespace
    | TrackNotADict   // the tracking key is bound to something without `.items()`

  /** Names the remote server side imports that must never shadow local ones. */
  const EXCLUDED_REMOTE_IMPORTS: seq<string> :=
    ["logging", "subprocess", "ghidra_bridge", "bridge", "GhidraBridgeServer"]

  /** The reserved namespace key under which a load records what it bound. */
  const GHIDRA_BRIDGE_NAMESPACE_TRACK: string := "__ghidra_bridge_namespace_track__"

  /** Python's `name.startswith("__")`. */
  predicate StartsWithDunder(name: string)
    ensures StartsWithDunder(name) <==> |name| >= 2 && name[..2] == "__"
  {
    |name| >= 2 && name[0] == '_' && name[1] == '_'
  }

  /** The filter applied to each remote attribute name before it is bound. */
  predicate Projectable(name: string)
    ensures name in EXCLUDED_REMOTE_IMPORTS ==> !Projectable(name)
    ensures Projectable(name) ==> name != GHIDRA_BRIDGE_NAMESPACE_TRACK
    ensures Projectable(name) ==> |name| < 2 || name[..2] != "__"
  {
    !StartsWithDunder(name) && name !in EXCLUDED_REMOTE_IMPORTS
  }

  /** No projected name can ever overwrite the tracking record. */
  lemma TrackKeyNotProjectable()
    ensures !Projectable(GHIDRA_BRIDGE_NAMESPACE_TRACK)
  {
  }

  /** Attribute `i` is the last occurrence of its name in the list. */
  predicate LastOccurrence(attrs: seq<(string, Val)>, i: int)
    requires 0 <= i < |attrs|
  {
    forall j :: i < j < |attrs| ==> attrs[j].0 != attrs[i].0
  }

  /** The tracking record a load over `attrs` builds, one attribute at a time
      in list order: a later binding of a name replaces an earlier one. */
  function Record(attrs: seq<(string, Val)>): (r: map<string, Val>)
    ensures forall k :: k in r ==> Projectable(k)
  {
    if |attrs| == 0 then map[]
    else
      var prev := Record(attrs[..|attrs| - 1]);
      var (name, value) := attrs[|attrs| - 1];
      if Projectable(name) then prev[name := value] else prev
  }

  /** Every recorded name comes from the attribute list. */
  lemma {:induction false} RecordKeyListed(attrs: seq<(string, Val)>, k: string)
    requires k in Record(attrs)
    ensures exists i :: 0 <= i < |attrs| && attrs[i].0 == k
  {
    var n := |attrs| - 1;
    if k == attrs[n].0 {
      assert attrs[n].0 == k;
    } else {
      RecordKeyListed(attrs[..n], k);
      var i :| 0 <= i < n && attrs[..n][i].0 == k;
      assert attrs[i].0 == k;
    }
  }

  /** Every projectable attribute of the list is recorded with the value of
      its last occurrence. */
  lemma {:induction false} RecordLastWins(attrs: seq<(string, Val)>, i: int)
    requires 0 <= i < |attrs| && Projectable(attrs[i].0)
    ensures attrs[i].0 in Record(attrs)
    ensures LastOccurrence(attrs, i) ==> Record(attrs)[attrs[i].0] == attrs[i].1
  {
    var n := |attrs| - 1;
    if i < n {
      var init := attrs[..n];
      assert init[i] == attrs[i];
      assert LastOccurrence(attrs, i) ==> LastOccurrence(init, i) by {
        if LastOccurrence(attrs, i) {
          forall j | i < j < n ensures init[j].0 != init[i].0 {
            assert init[j] == attrs[j];
          }
        }
      }
      RecordLastWins(init, i);
    }
  }

  /** The namespace after `get_flat_api` loads `attrs` into `ns`. */
  function Loaded(ns: map<string, Val>, attrs: seq<(string, Val)>): (r: map<string, Val>)
    ensures GHIDRA_BRIDGE_NAMESPACE_TRACK in r && r[GHIDRA_BRIDGE_NAMESPACE_TRACK] == Dict(Record(attrs))
    ensures forall k :: k in Record(attrs) ==> k in r && r[k] == Record(attrs)[k]
    ensures forall k :: k != GHIDRA_BRIDGE_NAMESPACE_TRACK && !Projectable(k) ==>
              (k in r <==> k in ns) && (k in ns ==> r[k] == ns[k])
    ensures forall k :: k != GHIDRA_BRIDGE_NAMESPACE_TRACK && k !in Record(attrs) ==>
              (k in r <==> k in ns) && (k in ns ==> r[k] == ns[k])
  {
    TrackKeyNotProjectable();
    (ns + Record(attrs))[GHIDRA_BRIDGE_NAMESPACE_TRACK := Dict(Record(attrs))]
  }

  /** Loading one more attribute binds it and refreshes the record when it is
      projectable, and changes nothing otherwise. */
  lemma LoadedStep(ns: map<string, Val>, attrs: seq<(string, Val)>, name: string, value: Val)
    ensures Record(attrs + [(name, value)]) ==
              if Projectable(name) then Record(attrs)[name := value] else Record(attrs)
    ensures Loaded(ns, attrs + [(name, value)]) ==
              if Projectable(name) then
                Loaded(ns, attrs)[name := value][GHIDRA_BRIDGE_NAMESPACE_TRACK := Dict(Record(attrs)[name := value])]
              else Loaded(ns, attrs)
  {
    assert (attrs + [(name, value)])[..|attrs|] == attrs;
    TrackKeyNotProjectable();
  }

  /** `ns` after deleting each name of `keys` whose binding still equals the
      one `rec` recorded for it. */
  function Unbind(ns: map<string, Val>, rec: map<string, Val>, keys: set<string>): (r: map<string, Val>)
    // a name goes only if it is one of `keys`, recorded, and still bound to the recorded value
    ensures forall k :: k in ns ==> (k !in r <==> k in keys && k in rec && ns[k] == rec[k])
    // nothing is added and nothing that stays is rebound
    ensures forall k :: k in r ==> k in ns && r[k] == ns[k]
  {
    map k | k in ns && !(k in keys && k in rec && ns[k] == rec[k]) :: ns[k]
  }

  /** The namespace after `unload_flat_api`, or the error it raises. */
  function Unloaded(ns: map<string, Val>): (r: Result<map<string, Val>, BridgeError>)
    ensures GHIDRA_BRIDGE_NAMESPACE_TRACK !in ns ==> r == Failure(NotProjected)
    ensures GHIDRA_BRIDGE_NAMESPACE_TRACK in ns && ns[GHIDRA_BRIDGE_NAMESPACE_TRACK].Atom? ==>
              r == Failure(TrackNotADict)
    ensures GHIDRA_BRIDGE_NAMESPACE_TRACK in ns && ns[GHIDRA_BRIDGE_NAMESPACE_TRACK].Dict? ==>
              r.Success? &&
              var rec := ns[GHIDRA_BRIDGE_NAMESPACE_TRACK].entries;
              // a name goes only if it is recorded and still bound to the recorded value
              (forall k :: k in r.value <==> k in ns && !(k in rec && ns[k] == rec[k])) &&
              // nothing that stays is rebound
              (forall k :: k in r.value ==> r.value[k] == ns[k]) &&
              // the tracking record itself stays
              GHIDRA_BRIDGE_NAMESPACE_TRACK in r.value
  {
    if GHIDRA_BRIDGE_NAMESPACE_TRACK !in ns then Failure(NotProjected)
    else match ns[GHIDRA_BRIDGE_NAMESPACE_TRACK]
      case Atom(_) => Failure(TrackNotADict)
      case Dict(rec) => Success(Unbind(ns, rec, rec.Keys))
  }

  /** Load then unload with nothing in between: every projected name is gone,
      the tracking record stays, and every other binding is what it was. A name
      that was bound before the load and overwritten by it is deleted, not
      restored. */
  lemma LoadUnloadRoundTrip(ns: map<string, Val>, attrs: seq<(string, Val)>)
    ensures Unloaded(Loaded(ns, attrs)) ==
              Success((ns - Record(attrs).Keys)[GHIDRA_BRIDGE_NAMESPACE_TRACK := Dict(Record(attrs))])
  {
    var rec := Record(attrs);
    var loaded := Loaded(ns, attrs);
    var expected := (ns - rec.Keys)[GHIDRA_BRIDGE_NAMESPACE_TRACK := Dict(rec)];
    var got := Unloaded(loaded).value;
    assert loaded[GHIDRA_BRIDGE_NAMESPACE_TRACK] == Dict(rec);
    assert got == Unbind(loaded, rec, rec.Keys);
    forall k | k in rec ensures k !in got {
      assert loaded[k] == rec[k];
    }
    forall k
      ensures k in got <==> k in expected
      ensures k in got ==> got[k] == expected[k]
    {
      if k == GHIDRA_BRIDGE_NAMESPACE_TRACK {
        assert k in got && got[k] == Dict(rec);
      } else if k in rec {
        assert k !in got && k !in expected;
      } else {
        assert k in loaded <==> k in ns;
      }
    }
    assert got == expected;
  }

  /** Projection symmetry: when the namespace held neither the tracking key nor
      any name the load binds, load then unload restores every original binding
      and adds only the tracking record. */
  lemma ProjectionSymmetry(ns: map<string, Val>, attrs: seq<(string, Val)>)
    requires GHIDRA_BRIDGE_NAMESPACE_TRACK !in ns
    requires forall k :: k in Record(attrs) ==> k !in ns
    ensures Unloaded(Loaded(ns, attrs)) == Success(ns[GHIDRA_BRIDGE_NAMESPACE_TRACK := Dict(Record(attrs))])
    ensures Unloaded(Loaded(ns, attrs)).value - {GHIDRA_BRIDGE_NAMESPACE_TRACK} == ns
  {
    LoadUnloadRoundTrip(ns, attrs);
    assert ns - Record(attrs).Keys == ns;
  }

  /** Non-clobbering: a projected name the caller rebinds to a different value
      keeps the caller's value through an unload, while every other projected
      name is still removed. */
  lemma UnloadKeepsRebound(ns: map<string, Val>, attrs: seq<(string, Val)>, name: string, v: Val)
    requires name in Record(attrs) && v != Record(attrs)[name]
    ensures var after := Unloaded(Loaded(ns, attrs)[name := v]);
            after.Success? && name in after.value && after.value[name] == v &&
            forall k :: k in Record(attrs) && k != name ==> k !in after.value
  {
    var loaded := Loaded(ns, attrs);
    var after := Unloaded(loaded[name := v]).value;
    forall k | k in Record(attrs) && k != name ensures k !in after {
      assert loaded[name := v][k] == Record(attrs)[k];
    }
  }

  /** Re-load without unload: the tracking record holds only the second load's
      names, so a single unload removes those and leaves behind every name that
      only the first load bound. */
  lemma ReloadThenUnload(ns: map<string, Val>, first: seq<(string, Val)>, second: seq<(string, Val)>)
    ensures Loaded(Loaded(ns, first), second)[GHIDRA_BRIDGE_NAMESPACE_TRACK] == Dict(Record(second))
    ensures Unloaded(Loaded(Loaded(ns, first), second)) ==
              Success(((ns + Record(first)) - Record(second).Keys)
                        [GHIDRA_BRIDGE_NAMESPACE_TRACK := Dict(Record(second))])
  {
    var once := Loaded(ns, first);
    LoadUnloadRoundTrip(once, second);
    TrackKeyNotProjectable();
    var r1, r2 := Record(first), Record(second);
    assert (once - r2.Keys)[GHIDRA_BRIDGE_NAMESPACE_TRACK := Dict(r2)] ==
           ((ns + r1) - r2.Keys)[GHIDRA_BRIDGE_NAMESPACE_TRACK := Dict(r2)];
  }

  /** The tracking key survives an unload, so a second unload succeeds and
      changes nothing: the names it could delete are already gone. */
  lemma UnloadTwice(ns: map<string, Val>)
    requires Unloaded(ns).Success?
    ensures Unloaded(Unloaded(ns).value) == Unloaded(ns)
  {
    var m := Unloaded(ns).value;
    var rec := ns[GHIDRA_BRIDGE_NAMESPACE_TRACK].entries;
    assert m[GHIDRA_BRIDGE_NAMESPACE_TRACK] == Dict(rec);
    assert m == Unbind(ns, rec, rec.Keys);
    var m2 := Unloaded(m).value;
    assert m2 == Unbind(m, rec, rec.Keys);
    forall k | k in m ensures k in m2 {
      assert m[k] == ns[k];
    }
    assert m2.Keys == m.Keys;
    assert m2 == m;
  }

  /** The scenario of a small namespace: `x` is the caller's own, the remote
      side exposes `foo` and `bar`, and the caller rebinds `foo` after loading. */
  lemma ScenarioRebindThenUnload()
    ensures var ns := map["x" := Atom(1)];
            var attrs := [("foo", Atom(10)), ("bar", Atom(20))];
            var rec := map["foo" := Atom(10), "bar" := Atom(20)];
            Loaded(ns, attrs) ==
              map["x" := Atom(1), "foo" := Atom(10), "bar" := Atom(20),
                  GHIDRA_BRIDGE_NAMESPACE_TRACK := Dict(rec)] &&
            Unloaded(Loaded(ns, attrs)["foo" := Atom(99)]) ==
              Success(map["x" := Atom(1), "foo" := Atom(99), GHIDRA_BRIDGE_NAMESPACE_TRACK := Dict(rec)])
  {
    var ns := map["x" := Atom(1)];
    var attrs := [("foo", Atom(10)), ("bar", Atom(20))];
    var rec := map["foo" := Atom(10), "bar" := Atom(20)];
    assert attrs[..1] == [("foo", Atom(10))];
    assert attrs[..1][..0] == [];
    assert "foo" !in EXCLUDED_REMOTE_IMPORTS && "bar" !in EXCLUDED_REMOTE_IMPORTS;
    assert Record(attrs[..1]) == map["foo" := Atom(10)];
    assert Record(attrs) == rec;
    var loaded := map["x" := Atom(1), "foo" := Atom(10), "bar" := Atom(20),
                      GHIDRA_BRIDGE_NAMESPACE_TRACK := Dict(rec)];
    assert Loaded(ns, attrs) == loaded;
    var rebound := loaded["foo" := Atom(99)];
    var expected := map["x" := Atom(1), "foo" := Atom(99), GHIDRA_BRIDGE_NAMESPACE_TRACK := Dict(rec)];
    var got := Unbind(rebound, rec, rec.Keys);
    assert Unloaded(rebound) == Success(got);
    assert "bar" !in got && "foo" in got && "x" in got && GHIDRA_BRIDGE_NAMESPACE_TRACK in got;
    assert got.Keys == expected.Keys;
    assert got == expected;
  }

  /** Unloading a namespace nothing was loaded into raises. */
  lemma ScenarioUnloadFresh()
    ensures Unloaded(map[]) == Failure(NotProjected)
  {
  }

  /** Dunder-prefixed and excluded names are filtered even when they come
      first in the list: only `currentProgram` is projected. */
  lemma ScenarioFilter()
    ensures var attrs := [("__name__", Atom(1)), ("bridge", Atom(2)), ("currentProgram", Atom(3))];
            Record(attrs) == map["currentProgram" := Atom(3)]
  {
    var attrs := [("__name__", Atom(1)), ("bridge", Atom(2)), ("currentProgram", Atom(3))];
    assert attrs[..2] == [("__name__", Atom(1)), ("bridge", Atom(2))];
    assert attrs[..2][..1] == [("__name__", Atom(1))];
    assert attrs[..2][..1][..0] == [];
    assert !Projectable("__name__");
    assert Record(attrs[..2][..1]) == map[];
    assert "bridge" == EXCLUDED_REMOTE_IMPORTS[3];
    assert Record(attrs[..2]) == map[];
    assert "currentProgram" !in EXCLUDED_REMOTE_IMPORTS;
    assert attrs[2] == ("currentProgram", Atom(3));
  }
}
