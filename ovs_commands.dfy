/** The `ovs-vsctl` command lines that the restore paths build, as values, with
    the exact text each one is rendered to. */
module OvsCommands {
  import opened PyStr

  datatype Command =
    | AddBr(bridge: string)
    | AddPort(bridge: string, port: string)
    | SetInterfaceType(iface: string, ifaceType: string)
    | SetPortTag(port: string, tag: string)
  {
    /** A command that creates a bridge or attaches a port. */
    predicate IsAdd() {
      AddBr? || AddPort?
    }
  }

  function Render(c: Command): string {
    match c
    case AddBr(b) => "ovs-vsctl add-br " + b
    case AddPort(b, p) => "ovs-vsctl add-port " + b + " " + p
    case SetInterfaceType(i, t) => "ovs-vsctl set Interface " + i + " type=" + t
    case SetPortTag(p, t) => "ovs-vsctl set port " + p + " tag=" + t
  }

  function RenderAll(cs: seq<Command>): seq<string> {
    seq(|cs|, i requires 0 <= i < |cs| => Render(cs[i]))
  }

  /** The rendered text says which kind of command it is. */
  lemma RenderPrefix(c: Command)
    ensures c.IsAdd() <==> StartsWith(Render(c), "ovs-vsctl add-")
    ensures !c.IsAdd() <==> StartsWith(Render(c), "ovs-vsctl set ")
  {
    var r := Render(c);
    if c.IsAdd() {
      assert r[..14] == "ovs-vsctl add-";
      assert r[..14] != "ovs-vsctl set ";
    } else {
      assert r[..14] == "ovs-vsctl set ";
      assert r[..14] != "ovs-vsctl add-";
    }
  }
}
