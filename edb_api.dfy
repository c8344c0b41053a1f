/** The part of the layout database handle (pyaedt's Edb object) that the
    generator touches: the material registry (`materials.material_keys`,
    `materials.add_material`), the layer stack (`stackup.add_layer`) and the
    geometry modeler (`modeler.create_trace`). The library's internals are
    not modelled; each call is recorded in order, and registering a material
    is assumed to add its name to the registry's keys. */
module EdbApi {

  datatype Point = Point(x: real, y: real)

  /** The arguments of one add_material call. */
  datatype Material = Material(
    name: string,
    permittivity: real,
    permeability: real,
    conductivity: real,
    dielectricLoss: real,
    magneticLoss: real)

  /** The arguments of one add_layer call; the thickness is a length in
      millimetres (the source passes it as text with the suffix "mm"). */
  datatype Layer = Layer(name: string, layerType: string, material: string, thicknessMm: real)

  /** The arguments of one modeler.create_trace call. */
  datatype Trace = Trace(path: seq<Point>, layer: string, width: real, net: string)

  /** What the generator can observe of a database: the registry's keys and
      the materials, layers and traces it added, oldest first. */
  datatype Design = Design(
    materialKeys: set<string>,
    materials: seq<Material>,
    layers: seq<Layer>,
    traces: seq<Trace>)
  {
    /** The assumed effect of add_material: the name becomes a key. */
    function RegisterMaterial(m: Material): Design {
      this.(materialKeys := materialKeys + {m.name}, materials := materials + [m])
    }

    function AppendLayer(l: Layer): Design {
      this.(layers := layers + [l])
    }

    function AddTrace(t: Trace): Design {
      this.(traces := traces + [t])
    }
  }

  /** An open database handle. */
  class Edb {
    var materialKeys: set<string>
    var materials: seq<Material>
    var layers: seq<Layer>
    var traces: seq<Trace>

    function Snapshot(): Design
      reads this
    {
      Design(materialKeys, materials, layers, traces)
    }

    /** A new database whose registry already knows `builtIn` (the library's
        own materials) and which has no layers or traces yet. */
    constructor (builtIn: set<string>)
      ensures Snapshot() == Design(builtIn, [], [], [])
    {
      materialKeys, materials, layers, traces := builtIn, [], [], [];
    }

    /** materials.add_material: registers `m` under its name. */
    method AddMaterial(m: Material)
      modifies this
      ensures Snapshot() == old(Snapshot()).RegisterMaterial(m)
      ensures m.name in materialKeys
    {
      materialKeys := materialKeys + {m.name};
      materials := materials + [m];
    }

    /** stackup.add_layer: puts `l` on top of the stack built so far. */
    method AddLayer(l: Layer)
      modifies this
      ensures Snapshot() == old(Snapshot()).AppendLayer(l)
    {
      layers := layers + [l];
    }

    /** modeler.create_trace: draws a trace along `path`. */
    method CreateTrace(path: seq<Point>, layer: string, width: real, net: string)
      modifies this
      ensures Snapshot() == old(Snapshot()).AddTrace(Trace(path, layer, width, net))
    {
      traces := traces + [Trace(path, layer, width, net)];
    }
  }
}
