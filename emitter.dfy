/**
  The side nodes and the edges of the diagram (`write_nodes`, `add_edges`):
  the rows listed in the `inputs` and `outputs` nodes and the edges that tie
  each of them to its cell in the module table. Rows and edges are kept as
  data; the HTML and the Graphviz objects are not modelled.
 */
module Emitter {
  import opened Opt
  import opened Builder
  import opened Layout

  datatype Direction = In | Out

  datatype Align = AlignRight | AlignLeft

  /** Display names of the known interface types. */
  const InterfaceMap: map<string, string> := map[
    "hwpe_stream_intf_stream" := "HWPE-Stream",
    "hwpe_stream_intf_tcdm" := "HWPE-Mem",
    "hwpe_ctrl_intf_periph" := "HWPE-Periph",
    "hci_core_intf" := "HCI-Core"]

  const NetKinds: set<string> := {"logic", "wire", "reg"}

  /** Input rows are right-aligned, output rows left-aligned. */
  function AlignOf(d: Direction): Align
  {
    if d == In then AlignRight else AlignLeft
  }

  /** The type shown before a port name: blank for the plain net kinds; a missing type prints as `None`. */
  function ShownType(tp: Option<string>): string
  {
    if tp.Some? && tp.value in NetKinds then " "
    else if tp.None? then "None"
    else tp.value
  }

  /** The display name of an interface type, or the type itself when it is not a known one. */
  function ShownInterface(iface: string): string
  {
    if iface in InterfaceMap then InterfaceMap[iface] else iface
  }

  /** One row of a side node: its port id, alignment, the type shown and the name. */
  datatype NodeRow = NodeRow(port: PortRef, align: Align, shown: string, name: string)

  function PortNodeRows(ps: seq<Port>, prefix: string, d: Direction): seq<NodeRow>
  {
    seq(|ps|, i requires 0 <= i < |ps| => NodeRow(PortRef(prefix, i), AlignOf(d), ShownType(ps[i].ptype), ps[i].name))
  }

  function InterfaceNodeRows(ps: seq<InterfacePort>, prefix: string, d: Direction): seq<NodeRow>
  {
    seq(|ps|, i requires 0 <= i < |ps| => NodeRow(PortRef(prefix, i), AlignOf(d), ShownInterface(ps[i].iface), ps[i].name))
  }

  /** An edge end: a node and a port of it. */
  datatype Endpoint = Endpoint(node: string, port: PortRef)

  /** The edge decoration: a tee at the module for inputs, a tee drawn backwards for outputs, a thick line for interfaces. */
  datatype Style = TeeHead | TeeTailBack | Thick

  datatype Edge = Edge(src: Endpoint, dst: Endpoint, caption: string, style: Style)

  /** A port edge is labelled with its unpacked range followed by its packed ranges. */
  function PortLabel(p: Port): string
  {
    p.unpacked + p.packed0 + p.packed1 + p.packed2 + p.packed3
  }

  /** Inputs run from the side node into the module, outputs from the module into the side node. */
  function Wire(moduleName: string, setName: string, port: PortRef, d: Direction, caption: string, style: Style): Edge
  {
    if d == In then Edge(Endpoint(setName, port), Endpoint(moduleName, port), caption, style)
    else Edge(Endpoint(moduleName, port), Endpoint(setName, port), caption, style)
  }

  function PortEdges(moduleName: string, ps: seq<Port>, prefix: string, setName: string, d: Direction): seq<Edge>
  {
    seq(|ps|, i requires 0 <= i < |ps| =>
      Wire(moduleName, setName, PortRef(prefix, i), d, PortLabel(ps[i]), if d == In then TeeHead else TeeTailBack))
  }

  function InterfaceEdges(moduleName: string, ps: seq<InterfacePort>, prefix: string, setName: string, d: Direction): seq<Edge>
  {
    seq(|ps|, i requires 0 <= i < |ps| => Wire(moduleName, setName, PortRef(prefix, i), d, ps[i].unpacked, Thick))
  }

  // ---------------------------------------------------------------------
  // The loops of `write_nodes` and `add_edges`
  // ---------------------------------------------------------------------

  /** `write_nodes` on a port list. */
  method WritePortNodes(ps: seq<Port>, prefix: string, d: Direction) returns (rows: seq<NodeRow>)
    ensures rows == PortNodeRows(ps, prefix, d)
  {
    rows := [];
    if |ps| == 0 {
      return;
    }
    var align := if d == In then AlignRight else AlignLeft;
    for i := 0 to |ps|
      invariant |rows| == i
      invariant forall j :: 0 <= j < i ==> rows[j] == PortNodeRows(ps, prefix, d)[j]
    {
      var tp := ps[i].ptype;
      var shown := if tp.Some? && tp.value in {"logic", "wire", "reg"} then " " else if tp.None? then "None" else tp.value;
      rows := rows + [NodeRow(PortRef(prefix, i), align, shown, ps[i].name)];
    }
  }

  /** `write_nodes` on an interface list. */
  method WriteInterfaceNodes(ps: seq<InterfacePort>, prefix: string, d: Direction) returns (rows: seq<NodeRow>)
    ensures rows == InterfaceNodeRows(ps, prefix, d)
  {
    rows := [];
    if |ps| == 0 {
      return;
    }
    var align := if d == In then AlignRight else AlignLeft;
    for i := 0 to |ps|
      invariant |rows| == i
      invariant forall j :: 0 <= j < i ==> rows[j] == InterfaceNodeRows(ps, prefix, d)[j]
    {
      var name := if ps[i].iface in InterfaceMap then InterfaceMap[ps[i].iface] else ps[i].iface;
      rows := rows + [NodeRow(PortRef(prefix, i), align, name, ps[i].name)];
    }
  }

  /** `add_edges` on a port list. */
  method AddPortEdges(moduleName: string, ps: seq<Port>, prefix: string, setName: string, d: Direction) returns (edges: seq<Edge>)
    ensures edges == PortEdges(moduleName, ps, prefix, setName, d)
  {
    edges := [];
    if |ps| == 0 {
      return;
    }
    for i := 0 to |ps|
      invariant |edges| == i
      invariant forall j :: 0 <= j < i ==> edges[j] == PortEdges(moduleName, ps, prefix, setName, d)[j]
    {
      var caption := ps[i].unpacked + ps[i].packed0 + ps[i].packed1 + ps[i].packed2 + ps[i].packed3;
      var e;
      if d == In {
        e := Edge(Endpoint(setName, PortRef(prefix, i)), Endpoint(moduleName, PortRef(prefix, i)), caption, TeeHead);
      } else {
        e := Edge(Endpoint(moduleName, PortRef(prefix, i)), Endpoint(setName, PortRef(prefix, i)), caption, TeeTailBack);
      }
      edges := edges + [e];
    }
  }

  /** `add_edges` on an interface list. */
  method AddInterfaceEdges(moduleName: string, ps: seq<InterfacePort>, prefix: string, setName: string, d: Direction)
    returns (edges: seq<Edge>)
    ensures edges == InterfaceEdges(moduleName, ps, prefix, setName, d)
  {
    edges := [];
    if |ps| == 0 {
      return;
    }
    for i := 0 to |ps|
      invariant |edges| == i
      invariant forall j :: 0 <= j < i ==> edges[j] == InterfaceEdges(moduleName, ps, prefix, setName, d)[j]
    {
      var e;
      if d == In {
        e := Edge(Endpoint(setName, PortRef(prefix, i)), Endpoint(moduleName, PortRef(prefix, i)), ps[i].unpacked, Thick);
      } else {
        e := Edge(Endpoint(moduleName, PortRef(prefix, i)), Endpoint(setName, PortRef(prefix, i)), ps[i].unpacked, Thick);
      }
      edges := edges + [e];
    }
  }

  // ---------------------------------------------------------------------
  // The whole diagram
  // ---------------------------------------------------------------------

  /** The diagram of a module record: title, table rows, the two side nodes and the edges. */
  datatype Diagram = Diagram(title: string, table: seq<Row>, inputs: seq<NodeRow>, outputs: seq<NodeRow>, edges: seq<Edge>)

  function InputRows(m: Module): seq<NodeRow>
  {
    PortNodeRows(m.inputPorts, "i", In) + InterfaceNodeRows(m.incomingInterfaces, "ii", In)
  }

  function OutputRows(m: Module): seq<NodeRow>
  {
    PortNodeRows(m.outputPorts, "o", Out) + InterfaceNodeRows(m.outgoingInterfaces, "io", Out)
  }

  function DiagramEdges(m: Module): seq<Edge>
  {
    PortEdges(m.name, m.inputPorts, "i", "inputs", In)
      + InterfaceEdges(m.name, m.incomingInterfaces, "ii", "inputs", In)
      + PortEdges(m.name, m.outputPorts, "o", "outputs", Out)
      + InterfaceEdges(m.name, m.outgoingInterfaces, "io", "outputs", Out)
  }

  function DiagramOf(m: Module, alwaysCoprime: bool): Diagram
  {
    Diagram(m.name, TablePlan(m, alwaysCoprime), InputRows(m), OutputRows(m), DiagramEdges(m))
  }

  /** The diagram part of `sv_prettyplot`: the table rows, the two side nodes, then the edges, in the source's order. */
  method Draw(m: Module, alwaysCoprime: bool) returns (d: Diagram)
    ensures d == DiagramOf(m, alwaysCoprime)
  {
    var table := PlanTable(m, alwaysCoprime);
    var inPorts := WritePortNodes(m.inputPorts, "i", In);
    var inIfs := WriteInterfaceNodes(m.incomingInterfaces, "ii", In);
    var outPorts := WritePortNodes(m.outputPorts, "o", Out);
    var outIfs := WriteInterfaceNodes(m.outgoingInterfaces, "io", Out);
    var e1 := AddPortEdges(m.name, m.inputPorts, "i", "inputs", In);
    var e2 := AddInterfaceEdges(m.name, m.incomingInterfaces, "ii", "inputs", In);
    var e3 := AddPortEdges(m.name, m.outputPorts, "o", "outputs", Out);
    var e4 := AddInterfaceEdges(m.name, m.outgoingInterfaces, "io", "outputs", Out);
    d := Diagram(m.name, table, inPorts + inIfs, outPorts + outIfs, e1 + e2 + e3 + e4);
  }

  // ---------------------------------------------------------------------
  // Properties
  // ---------------------------------------------------------------------

  /** A declared type is shown blank exactly when it is one of the plain net kinds. */
  lemma ShownTypeBlank(tp: Option<string>)
    requires tp.Some? ==> tp.value != " "
    ensures ShownType(tp) == " " <==> tp.Some? && tp.value in NetKinds
  {
  }

  /** A known interface type is shown by its display name, which is never the raw type name. */
  lemma ShownInterfaceKnown(iface: string)
    ensures iface in InterfaceMap <==> ShownInterface(iface) != iface
  {
  }

  /**
    Input row `k` is wired from the `inputs` node into the module, to the
    input cell with the same id, in row `InputRow` of the table (row `k`
    with `always_coprime`).
   */
  lemma InputWired(m: Module, alwaysCoprime: bool, k: nat)
    requires k < |InputRows(m)|
    ensures var d := DiagramOf(m, alwaysCoprime);
      && k < |d.edges|
      && d.edges[k].src == Endpoint("inputs", d.inputs[k].port)
      && d.edges[k].dst == Endpoint(m.name, d.inputs[k].port)
      && var r := InputRow(m, alwaysCoprime, k);
      r < |d.table| && d.table[r].left.Some? && d.table[r].left.value.port == d.inputs[k].port
  {
    var d := DiagramOf(m, alwaysCoprime);
    var inEdges := PortEdges(m.name, m.inputPorts, "i", "inputs", In) + InterfaceEdges(m.name, m.incomingInterfaces, "ii", "inputs", In);
    assert d.edges == inEdges + PortEdges(m.name, m.outputPorts, "o", "outputs", Out)
      + InterfaceEdges(m.name, m.outgoingInterfaces, "io", "outputs", Out);
    assert d.edges[k] == inEdges[k];
    assert d.inputs[k].port == InSide(m)[k].port;
    InputPlaced(m, alwaysCoprime, k);
  }

  /** Edge `|inputs| + k` of the diagram is the edge of output row `k`. */
  lemma OutputEdge(m: Module, k: nat)
    requires k < |OutputRows(m)|
    ensures |InputRows(m)| + k < |DiagramEdges(m)|
    ensures DiagramEdges(m)[|InputRows(m)| + k].src == Endpoint(m.name, OutputRows(m)[k].port)
    ensures DiagramEdges(m)[|InputRows(m)| + k].dst == Endpoint("outputs", OutputRows(m)[k].port)
  {
    var inEdges := PortEdges(m.name, m.inputPorts, "i", "inputs", In) + InterfaceEdges(m.name, m.incomingInterfaces, "ii", "inputs", In);
    var outEdges := PortEdges(m.name, m.outputPorts, "o", "outputs", Out) + InterfaceEdges(m.name, m.outgoingInterfaces, "io", "outputs", Out);
    assert DiagramEdges(m) == inEdges + outEdges;
    assert |inEdges| == |InputRows(m)|;
    assert DiagramEdges(m)[|InputRows(m)| + k] == outEdges[k];
  }

  /**
    Output row `k` is wired from the module into the `outputs` node, from
    the output cell with the same id, in row `OutputRow` of the table (row
    `k` with `always_coprime`).
   */
  lemma OutputWired(m: Module, alwaysCoprime: bool, k: nat)
    requires k < |OutputRows(m)|
    ensures var d := DiagramOf(m, alwaysCoprime);
      && |InputRows(m)| + k < |d.edges|
      && d.edges[|d.inputs| + k].src == Endpoint(m.name, d.outputs[k].port)
      && d.edges[|d.inputs| + k].dst == Endpoint("outputs", d.outputs[k].port)
      && var r := OutputRow(m, alwaysCoprime, k);
      r < |d.table| && d.table[r].right.Some? && d.table[r].right.value.port == d.outputs[k].port
  {
    OutputEdge(m, k);
    assert OutputRows(m)[k].port == OutSide(m)[k].port;
    OutputPlaced(m, alwaysCoprime, k);
  }

  /**
    The default diagram is wired consistently: one edge per row of the side
    nodes, inputs first; edge `k` joins row `k` of its side node to the
    module port of the same id, the input edges pointing into the module and
    the output edges out of it; and every such port id is the id of a cell
    in the module table, on the matching side.
   */
  lemma DefaultDiagramWired(m: Module)
    ensures var d := DiagramOf(m, true);
      && |d.edges| == |d.inputs| + |d.outputs|
      && |d.inputs| == |m.inputPorts| + |m.incomingInterfaces|
      && |d.outputs| == |m.outputPorts| + |m.outgoingInterfaces|
    ensures var d := DiagramOf(m, true);
      forall k :: 0 <= k < |d.inputs| ==>
        && d.edges[k].src == Endpoint("inputs", d.inputs[k].port)
        && d.edges[k].dst == Endpoint(m.name, d.inputs[k].port)
        && k < |d.table| && d.table[k].left.Some? && d.table[k].left.value.port == d.inputs[k].port
    ensures var d := DiagramOf(m, true);
      forall k :: 0 <= k < |d.outputs| ==>
        && d.edges[|d.inputs| + k].src == Endpoint(m.name, d.outputs[k].port)
        && d.edges[|d.inputs| + k].dst == Endpoint("outputs", d.outputs[k].port)
        && k < |d.table| && d.table[k].right.Some? && d.table[k].right.value.port == d.outputs[k].port
  {
    var d := DiagramOf(m, true);
    forall k | 0 <= k < |d.inputs|
      ensures d.edges[k].src == Endpoint("inputs", d.inputs[k].port)
      ensures d.edges[k].dst == Endpoint(m.name, d.inputs[k].port)
      ensures k < |d.table| && d.table[k].left.Some? && d.table[k].left.value.port == d.inputs[k].port
    {
      InputWired(m, true, k);
    }
    forall k | 0 <= k < |d.outputs|
      ensures d.edges[|d.inputs| + k].src == Endpoint(m.name, d.outputs[k].port)
      ensures d.edges[|d.inputs| + k].dst == Endpoint("outputs", d.outputs[k].port)
      ensures k < |d.table| && d.table[k].right.Some? && d.table[k].right.value.port == d.outputs[k].port
    {
      OutputWired(m, true, k);
    }
  }

  /**
    Edges only ever join a port to the port of the same id, and only for
    inputs, outputs and directed interfaces: the undirected interfaces
    (`iri`/`iro` rows of the table) are never wired.
   */
  lemma UndirectedNotWired(m: Module)
    ensures forall e :: e in DiagramEdges(m) ==> e.src.port == e.dst.port && e.src.port.prefix in {"i", "ii", "o", "io"}
  {
  }
}
