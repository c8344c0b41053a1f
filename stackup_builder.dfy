/** The stackup builder: replays parsed layer records into an open database,
    registering each material the registry does not know yet and adding one
    layer per record, in record order. Python's module-level `Edb` (None
    when pyaedt cannot be imported) is the flag `edbAvailable`. An error
    raised part-way leaves the calls already made in effect. */
module StackupBuilder {
  import opened StackupParser
  import opened EdbApi

  const MaterialKey := "Material"
  const TypeKey := "Type"
  const PermittivityKey := "Relative Permittivity"
  const PermeabilityKey := "Relative Permeability"
  const ConductivityKey := "Bulk Conductivity"
  const DielectricLossKey := "Dielectric Loss Tangent"
  const MagneticLossKey := "Magnetic Loss Tangent"

  /** The database after replaying some records, and the error that stopped
      the replay, if one did. */
  datatype Run = Run(design: Design, error: Option<Error>)

  /** The add_material arguments for record `index`: its five physical
      properties, read in argument order; the first unreadable one raises. */
  function MaterialOf(rec: LayerRecord, name: string, index: nat, toFloat: string -> Option<real>): Result<Material> {
    var permittivity :- Number(rec.fields, index, PermittivityKey, toFloat);
    var permeability :- Number(rec.fields, index, PermeabilityKey, toFloat);
    var conductivity :- Number(rec.fields, index, ConductivityKey, toFloat);
    var dielectricLoss :- Number(rec.fields, index, DielectricLossKey, toFloat);
    var magneticLoss :- Number(rec.fields, index, MagneticLossKey, toFloat);
    Ok(Material(name, permittivity, permeability, conductivity, dielectricLoss, magneticLoss))
  }

  /** The add_layer arguments for record `index`: its layer name and type
      (looked up in that order), its material and its thickness. */
  function LayerOf(rec: LayerRecord, material: string, index: nat): Result<Layer> {
    if NameKey !in rec.fields then Err(MissingField(index, NameKey))
    else if TypeKey !in rec.fields then Err(MissingField(index, TypeKey))
    else Ok(Layer(rec.fields[NameKey], rec.fields[TypeKey], material, rec.thicknessMm))
  }

  /** The layer that a successful replay adds for `rec`. */
  ghost predicate LayerFor(rec: LayerRecord, l: Layer) {
    && NameKey in rec.fields && TypeKey in rec.fields && MaterialKey in rec.fields
    && l == Layer(rec.fields[NameKey], rec.fields[TypeKey], rec.fields[MaterialKey], rec.thicknessMm)
  }

  function PlaceLayer(d: Design, rec: LayerRecord, material: string, index: nat): Run {
    match LayerOf(rec, material, index)
    case Err(e) => Run(d, Some(e))
    case Ok(l) => Run(d.AppendLayer(l), None)
  }

  /** One turn of the loop of build_stackup, for record `index`. */
  function Step(d: Design, rec: LayerRecord, index: nat, edbAvailable: bool, toFloat: string -> Option<real>): Run {
    if MaterialKey !in rec.fields then Run(d, Some(MissingField(index, MaterialKey)))
    else
      var mat := rec.fields[MaterialKey];
      if !edbAvailable then Run(d, None)
      else if mat in d.materialKeys then PlaceLayer(d, rec, mat, index)
      else match MaterialOf(rec, mat, index, toFloat)
        case Err(e) => Run(d, Some(e))
        case Ok(m) => PlaceLayer(d.RegisterMaterial(m), rec, mat, index)
  }

  /** build_stackup on a database in state `d0`: the records are replayed in
      order and the first error ends the replay. */
  function Replay(d0: Design, stack: seq<LayerRecord>, edbAvailable: bool, toFloat: string -> Option<real>): Run {
    if stack == [] then Run(d0, None)
    else
      var n := |stack| - 1;
      var before := Replay(d0, stack[..n], edbAvailable, toFloat);
      if before.error.Some? then before else Step(before.design, stack[n], n, edbAvailable, toFloat)
  }

  /** The loop of build_stackup against an open handle. */
  method BuildStackup(edb: Edb, stack: seq<LayerRecord>, edbAvailable: bool, toFloat: string -> Option<real>)
    returns (error: Option<Error>)
    modifies edb
    ensures Run(edb.Snapshot(), error) == Replay(old(edb.Snapshot()), stack, edbAvailable, toFloat)
  {
    ghost var d0 := edb.Snapshot();
    var i := 0;
    while i < |stack|
      invariant 0 <= i <= |stack|
      invariant Replay(d0, stack[..i], edbAvailable, toFloat) == Run(edb.Snapshot(), None)
    {
      assert stack[..i + 1][..i] == stack[..i];
      var layer := stack[i];
      if MaterialKey !in layer.fields {
        error := Some(MissingField(i, MaterialKey));
        ReplayStops(d0, stack, i + 1, edbAvailable, toFloat);
        return;
      }
      var mat := layer.fields[MaterialKey];
      if edbAvailable && mat !in edb.materialKeys {
        var m := MaterialOf(layer, mat, i, toFloat);
        if m.Err? {
          error := Some(m.error);
          ReplayStops(d0, stack, i + 1, edbAvailable, toFloat);
          return;
        }
        edb.AddMaterial(m.value);
      }
      if edbAvailable {
        var l := LayerOf(layer, mat, i);
        if l.Err? {
          error := Some(l.error);
          ReplayStops(d0, stack, i + 1, edbAvailable, toFloat);
          return;
        }
        edb.AddLayer(l.value);
      }
      i := i + 1;
    }
    assert stack[..|stack|] == stack;
    error := None;
  }

  /** Once a prefix of the records fails, the records after it change nothing. */
  lemma {:induction false} ReplayStops(d0: Design, stack: seq<LayerRecord>, k: nat, edbAvailable: bool, toFloat: string -> Option<real>)
    requires k <= |stack|
    requires Replay(d0, stack[..k], edbAvailable, toFloat).error.Some?
    ensures Replay(d0, stack, edbAvailable, toFloat) == Replay(d0, stack[..k], edbAvailable, toFloat)
    decreases |stack|
  {
    if k < |stack| {
      var n := |stack| - 1;
      assert stack[..n][..k] == stack[..k];
      ReplayStops(d0, stack[..n], k, edbAvailable, toFloat);
    } else {
      assert stack[..k] == stack;
    }
  }

  /** The names of some registered materials. */
  function Names(ms: seq<Material>): set<string> {
    set m | m in ms :: m.name
  }

  /** `d` is what the builder can make of `d0`: the earlier materials and
      layers are kept, the traces are untouched, the keys have grown by
      exactly the names registered since, and each of those names was new
      when registered: none was a key of `d0`, and none was registered twice. */
  ghost predicate Extends(d0: Design, d: Design) {
    && |d0.materials| <= |d.materials|
    && d.materials[..|d0.materials|] == d0.materials
    && |d0.layers| <= |d.layers|
    && d.layers[..|d0.layers|] == d0.layers
    && d.traces == d0.traces
    && d.materialKeys == d0.materialKeys + Names(d.materials[|d0.materials|..])
    && (forall i :: |d0.materials| <= i < |d.materials| ==> d.materials[i].name !in d0.materialKeys)
    && (forall i, j :: |d0.materials| <= i < j < |d.materials| ==> d.materials[i].name != d.materials[j].name)
  }

  /** What one record can do to the database: register one material under
      a name that is not yet a key, add layers, and nothing else. */
  lemma StepEffect(d: Design, rec: LayerRecord, index: nat, edbAvailable: bool, toFloat: string -> Option<real>)
    ensures var d' := Step(d, rec, index, edbAvailable, toFloat).design;
      && d'.traces == d.traces
      && |d.layers| <= |d'.layers| && d'.layers[..|d.layers|] == d.layers
      && ((d'.materials == d.materials && d'.materialKeys == d.materialKeys)
          || (|d'.materials| == |d.materials| + 1
              && d'.materials == d.materials + [d'.materials[|d.materials|]]
              && d'.materials[|d.materials|].name !in d.materialKeys
              && d'.materialKeys == d.materialKeys + {d'.materials[|d.materials|].name}))
  {
  }

  lemma NamesSnoc(ms: seq<Material>, m: Material)
    ensures Names(ms + [m]) == Names(ms) + {m.name}
  {
    assert forall x :: x in ms + [m] <==> x in ms || x == m;
  }

  lemma NamesHas(ms: seq<Material>, i: nat)
    requires i < |ms|
    ensures ms[i].name in Names(ms)
  {
  }

  /** Registering a name that is not a key keeps `Extends`. */
  lemma RegisterExtends(d0: Design, d: Design, d': Design)
    requires Extends(d0, d)
    requires d'.traces == d.traces
    requires |d.layers| <= |d'.layers| && d'.layers[..|d.layers|] == d.layers
    requires |d'.materials| == |d.materials| + 1
    requires d'.materials == d.materials + [d'.materials[|d.materials|]]
    requires d'.materials[|d.materials|].name !in d.materialKeys
    requires d'.materialKeys == d.materialKeys + {d'.materials[|d.materials|].name}
    ensures Extends(d0, d')
  {
    var m := d'.materials[|d.materials|];
    var k := |d0.materials|;
    assert d'.materials[..k] == d.materials[..k];
    assert d'.layers[..|d0.layers|] == d.layers[..|d0.layers|];
    RegisterKeys(d0.materialKeys, d.materials[k..], d.materialKeys, m);
    assert d'.materials[k..] == d.materials[k..] + [m];
    NewNameDistinct(d0, d, m);
    RegisterFresh(d0.materialKeys, d.materials, k, m);
  }

  /** The keys grow by the registered name. */
  lemma RegisterKeys(keys0: set<string>, added: seq<Material>, keys: set<string>, m: Material)
    requires keys == keys0 + Names(added)
    ensures keys + {m.name} == keys0 + Names(added + [m])
  {
    NamesSnoc(added, m);
  }

  /** A name that is neither an old key nor registered since stays fresh
      and distinct once registered. */
  lemma RegisterFresh(keys0: set<string>, ms: seq<Material>, k: nat, m: Material)
    requires k <= |ms|
    requires forall i :: k <= i < |ms| ==> ms[i].name !in keys0
    requires forall i, j :: k <= i < j < |ms| ==> ms[i].name != ms[j].name
    requires forall i :: k <= i < |ms| ==> ms[i].name != m.name
    requires m.name !in keys0
    ensures forall i :: k <= i < |ms + [m]| ==> (ms + [m])[i].name !in keys0
    ensures forall i, j :: k <= i < j < |ms + [m]| ==> (ms + [m])[i].name != (ms + [m])[j].name
  {
  }

  /** A name that is not a key differs from every name registered since `d0`. */
  lemma NewNameDistinct(d0: Design, d: Design, m: Material)
    requires Extends(d0, d)
    requires m.name !in d.materialKeys
    ensures forall i :: |d0.materials| <= i < |d.materials| ==> d.materials[i].name != m.name
  {
    var k := |d0.materials|;
    var added := d.materials[k..];
    forall i | k <= i < |d.materials|
      ensures d.materials[i].name != m.name
    {
      assert d.materials[i] == added[i - k];
      NamesHas(added, i - k);
    }
  }

  /** One record keeps `Extends`. */
  lemma StepExtends(d0: Design, d: Design, rec: LayerRecord, index: nat, edbAvailable: bool, toFloat: string -> Option<real>)
    requires Extends(d0, d)
    ensures Extends(d0, Step(d, rec, index, edbAvailable, toFloat).design)
  {
    var d' := Step(d, rec, index, edbAvailable, toFloat).design;
    StepEffect(d, rec, index, edbAvailable, toFloat);
    if d'.materials == d.materials && d'.materialKeys == d.materialKeys {
      assert d'.layers[..|d0.layers|] == d.layers[..|d0.layers|];
    } else {
      RegisterExtends(d0, d, d');
    }
  }

  /** The builder, whatever it meets, keeps what was there and registers
      each material name at most once, and never a name already registered. */
  lemma {:induction false} ReplayExtends(d0: Design, stack: seq<LayerRecord>, edbAvailable: bool, toFloat: string -> Option<real>)
    ensures Extends(d0, Replay(d0, stack, edbAvailable, toFloat).design)
  {
    if stack == [] {
      assert d0.materials[|d0.materials|..] == [];
    } else {
      var n := |stack| - 1;
      ReplayExtends(d0, stack[..n], edbAvailable, toFloat);
      var before := Replay(d0, stack[..n], edbAvailable, toFloat);
      if before.error.None? {
        StepExtends(d0, before.design, stack[n], n, edbAvailable, toFloat);
      }
    }
  }

  /** Without the library nothing is registered or added; the only thing
      that can still go wrong is a record without a "Material" cell. */
  lemma {:induction false} ReplayWithoutLibrary(d0: Design, stack: seq<LayerRecord>, toFloat: string -> Option<real>)
    ensures Replay(d0, stack, false, toFloat).design == d0
    ensures Replay(d0, stack, false, toFloat).error.Some? ==>
      var e := Replay(d0, stack, false, toFloat).error.value;
      e.index < |stack| && e == MissingField(e.index, MaterialKey) && MaterialKey !in stack[e.index].fields
  {
    if stack != [] {
      var n := |stack| - 1;
      ReplayWithoutLibrary(d0, stack[..n], toFloat);
    }
  }

  /** A failed step fails at its own record. */
  lemma StepErrorIndex(d: Design, rec: LayerRecord, index: nat, edbAvailable: bool, toFloat: string -> Option<real>)
    ensures Step(d, rec, index, edbAvailable, toFloat).error.Some? ==>
      Step(d, rec, index, edbAvailable, toFloat).error.value.index == index
  {
  }

  /** A failed build stopped at the record its error names: every record
      before it took full effect, the failing record took effect up to the
      call that raised, and no later record was looked at. */
  lemma {:induction false} ReplayFailsAt(d0: Design, stack: seq<LayerRecord>, edbAvailable: bool, toFloat: string -> Option<real>)
    requires Replay(d0, stack, edbAvailable, toFloat).error.Some?
    ensures var r := Replay(d0, stack, edbAvailable, toFloat);
      var k := r.error.value.index;
      && k < |stack|
      && Replay(d0, stack[..k], edbAvailable, toFloat).error.None?
      && r == Step(Replay(d0, stack[..k], edbAvailable, toFloat).design, stack[k], k, edbAvailable, toFloat)
  {
    var n := |stack| - 1;
    var before := Replay(d0, stack[..n], edbAvailable, toFloat);
    if before.error.Some? {
      ReplayFailsAt(d0, stack[..n], edbAvailable, toFloat);
      var k := before.error.value.index;
      assert stack[..n][..k] == stack[..k];
    } else {
      StepErrorIndex(before.design, stack[n], n, edbAvailable, toFloat);
    }
  }

  /** A successful build with the library adds one layer per record, in
      record order, each with that record's name, type, material and
      thickness. */
  lemma {:induction false} ReplayAppendsLayers(d0: Design, stack: seq<LayerRecord>, toFloat: string -> Option<real>)
    requires Replay(d0, stack, true, toFloat).error.None?
    ensures var d := Replay(d0, stack, true, toFloat).design;
      && |d.layers| == |d0.layers| + |stack|
      && d.layers[..|d0.layers|] == d0.layers
      && (forall i :: 0 <= i < |stack| ==> LayerFor(stack[i], d.layers[|d0.layers| + i]))
  {
    if stack != [] {
      var n := |stack| - 1;
      ReplayAppendsLayers(d0, stack[..n], toFloat);
      var before := Replay(d0, stack[..n], true, toFloat).design;
      var d := Replay(d0, stack, true, toFloat).design;
      StepAppendsLayer(before, stack[n], n, toFloat);
      forall i | 0 <= i < |stack|
        ensures LayerFor(stack[i], d.layers[|d0.layers| + i])
      {
        if i < n {
          assert stack[i] == stack[..n][i];
        }
      }
    }
  }

  /** A successful step with the library appends the record's own layer. */
  lemma StepAppendsLayer(d: Design, rec: LayerRecord, index: nat, toFloat: string -> Option<real>)
    requires Step(d, rec, index, true, toFloat).error.None?
    ensures var d' := Step(d, rec, index, true, toFloat).design;
      && |d'.layers| == |d.layers| + 1
      && d'.layers == d.layers + [d'.layers[|d.layers|]]
      && LayerFor(rec, d'.layers[|d.layers|])
  {
  }

  /** After a successful build with the library every material a record
      names is a key of the registry. */
  lemma {:induction false} ReplayKnowsMaterials(d0: Design, stack: seq<LayerRecord>, toFloat: string -> Option<real>)
    requires Replay(d0, stack, true, toFloat).error.None?
    ensures var d := Replay(d0, stack, true, toFloat).design;
      forall i :: 0 <= i < |stack| ==> MaterialKey in stack[i].fields && stack[i].fields[MaterialKey] in d.materialKeys
  {
    if stack != [] {
      var n := |stack| - 1;
      ReplayKnowsMaterials(d0, stack[..n], toFloat);
      var before := Replay(d0, stack[..n], true, toFloat).design;
      var d := Replay(d0, stack, true, toFloat).design;
      assert before.materialKeys <= d.materialKeys;
      forall i | 0 <= i < n
        ensures MaterialKey in stack[i].fields && stack[i].fields[MaterialKey] in d.materialKeys
      {
        assert stack[i] == stack[..n][i];
      }
    }
  }

  /** Two records may share a material: after a successful build with the
      library, a name that was not registered before has been registered
      by exactly one add_material call. */
  lemma RegisteredExactlyOnce(d0: Design, stack: seq<LayerRecord>, toFloat: string -> Option<real>, i: nat)
    returns (p: nat)
    requires Replay(d0, stack, true, toFloat).error.None?
    requires i < |stack| && MaterialKey in stack[i].fields
    requires stack[i].fields[MaterialKey] !in d0.materialKeys
    ensures var d := Replay(d0, stack, true, toFloat).design;
      && |d0.materials| <= p < |d.materials|
      && d.materials[p].name == stack[i].fields[MaterialKey]
      && forall q :: |d0.materials| <= q < |d.materials| && d.materials[q].name == stack[i].fields[MaterialKey] ==> q == p
  {
    ReplayKnowsMaterials(d0, stack, toFloat);
    ReplayExtends(d0, stack, true, toFloat);
    p := NewKeyPosition(d0, Replay(d0, stack, true, toFloat).design, stack[i].fields[MaterialKey]);
  }

  /** Under `Extends`, a key that is new since `d0` belongs to exactly one
      of the materials registered since. */
  lemma NewKeyPosition(d0: Design, d: Design, name: string) returns (p: nat)
    requires Extends(d0, d)
    requires name in d.materialKeys && name !in d0.materialKeys
    ensures |d0.materials| <= p < |d.materials| && d.materials[p].name == name
    ensures forall q :: |d0.materials| <= q < |d.materials| && d.materials[q].name == name ==> q == p
  {
    var added := d.materials[|d0.materials|..];
    assert name in Names(added);
    var m :| m in added && m.name == name;
    var k :| 0 <= k < |added| && added[k] == m;
    p := |d0.materials| + k;
  }

  /** A record that registers a material registers the one read from it,
      under its own material name, which was not a key. */
  lemma StepRegisters(d: Design, rec: LayerRecord, index: nat, toFloat: string -> Option<real>)
    requires |Step(d, rec, index, true, toFloat).design.materials| > |d.materials|
    ensures var d' := Step(d, rec, index, true, toFloat).design;
      && MaterialKey in rec.fields
      && rec.fields[MaterialKey] !in d.materialKeys
      && MaterialOf(rec, rec.fields[MaterialKey], index, toFloat) == Ok(d'.materials[|d.materials|])
      && d'.materials[|d.materials|].name == rec.fields[MaterialKey]
  {
  }

  /** Record i is the first record that names material `name`. */
  ghost predicate FirstNaming(stack: seq<LayerRecord>, i: nat, name: string) {
    && i < |stack|
    && MaterialKey in stack[i].fields && stack[i].fields[MaterialKey] == name
    && forall j :: 0 <= j < i && MaterialKey in stack[j].fields ==> stack[j].fields[MaterialKey] != name
  }

  /** After a successful build with the library, each material registered
      by it carries the properties of the first record naming it: later
      records with the same material do not change the registration. */
  lemma {:induction false} RegisteredFromFirst(d0: Design, stack: seq<LayerRecord>, toFloat: string -> Option<real>, p: nat)
    returns (i: nat)
    requires Replay(d0, stack, true, toFloat).error.None?
    requires |d0.materials| <= p < |Replay(d0, stack, true, toFloat).design.materials|
    ensures var m := Replay(d0, stack, true, toFloat).design.materials[p];
      FirstNaming(stack, i, m.name) && MaterialOf(stack[i], m.name, i, toFloat) == Ok(m)
  {
    assert stack != [];
    var n := |stack| - 1;
    var prefix := stack[..n];
    var before := Replay(d0, prefix, true, toFloat).design;
    var d := Replay(d0, stack, true, toFloat).design;
    var m := d.materials[p];
    StepEffect(before, stack[n], n, true, toFloat);
    ReplayExtends(d0, prefix, true, toFloat);
    if p < |before.materials| {
      assert d.materials[p] == before.materials[p];
      i := RegisteredFromFirst(d0, prefix, toFloat, p);
      assert prefix[i] == stack[i];
      forall j | 0 <= j < i && MaterialKey in stack[j].fields
        ensures stack[j].fields[MaterialKey] != m.name
      {
        assert prefix[j] == stack[j];
      }
    } else {
      ReplayKnowsMaterials(d0, prefix, toFloat);
      StepRegisters(before, stack[n], n, toFloat);
      forall j | 0 <= j < n && MaterialKey in stack[j].fields
        ensures stack[j].fields[MaterialKey] != m.name
      {
        assert prefix[j] == stack[j];
      }
      i := n;
    }
  }
}
