/** The dump of a node's ports (src/ofproto-sim-provider.c): a resumable walk over two string sets. */
module PortDump {
  import opened Wrappers

  const OFPP_NONE: int := 0xffff

  datatype OfprotoPort = OfprotoPort(name: string, kind: string, ofpPort: int)

  /** What the network device layer and the node know of names: `kinds` holds the device types, and
      `numbers` the OpenFlow ports. */
  datatype Names = Names(kinds: map<string, string>, numbers: map<string, int>) {
    function Describe(name: string): OfprotoPort
      requires name in kinds
    {
      OfprotoPort(name, kinds[name], if name in numbers then numbers[name] else OFPP_NONE)
    }

    /** The ports of a set in its order, without the names that no device bears. */
    function Listing(names: seq<string>): seq<OfprotoPort> {
      if names == [] then []
      else (if names[0] in kinds then [Describe(names[0])] else []) + Listing(names[1..])
    }

    method QueryByName(name: string) returns (port: Option<OfprotoPort>)
      ensures port == if name in kinds then Some(Describe(name)) else None
    {
      if name !in kinds { return None; }
      var ofpPort := if name in numbers then numbers[name] else OFPP_NONE;
      port := Some(OfprotoPort(name, kinds[name], ofpPort));
    }
  }

  /** What is still to be reported from a place in the walk. */
  function Left(names: Names, ports: seq<string>, ghostPorts: seq<string>, inGhosts: bool,
                position: nat): seq<OfprotoPort>
    requires position <= |if inGhosts then ghostPorts else ports|
  {
    if inGhosts then names.Listing(ghostPorts[position..])
    else names.Listing(ports[position..]) + names.Listing(ghostPorts)
  }

  lemma LeftAfter(names: Names, ports: seq<string>, ghostPorts: seq<string>, inGhosts: bool, position: nat)
    requires position < |if inGhosts then ghostPorts else ports|
    ensures var name := (if inGhosts then ghostPorts else ports)[position];
            Left(names, ports, ghostPorts, inGhosts, position)
            == (if name in names.kinds then [names.Describe(name)] else [])
               + Left(names, ports, ghostPorts, inGhosts, position + 1)
  {
    var walked := if inGhosts then ghostPorts else ports;
    assert walked[position..][1..] == walked[position + 1..];
  }

  /** The end of the ports is the start of the ghost ports, whose end is the end. */
  lemma LeftAtEnds(names: Names, ports: seq<string>, ghostPorts: seq<string>)
    ensures Left(names, ports, ghostPorts, false, 0) == names.Listing(ports) + names.Listing(ghostPorts)
    ensures Left(names, ports, ghostPorts, false, |ports|) == Left(names, ports, ghostPorts, true, 0)
    ensures Left(names, ports, ghostPorts, true, |ghostPorts|) == []
  {
    assert ports[0..] == ports && ports[|ports|..] == [];
    assert ghostPorts[0..] == ghostPorts;
  }

  /** One dump over sets that do not change; a set is the sequence in which its buckets hold it. */
  class Dump {
    const ports: seq<string>
    const ghostPorts: seq<string>
    const names: Names
    var inGhosts: bool
    var position: nat
    var hasPort: bool

    ghost predicate Valid()
      reads this
    {
      position <= |Current()|
    }

    function Current(): seq<string>
      reads this
    {
      if inGhosts then ghostPorts else ports
    }

    ghost function Remaining(): seq<OfprotoPort>
      reads this
      requires Valid()
    {
      Left(names, ports, ghostPorts, inGhosts, position)
    }

    constructor (ports: seq<string>, ghostPorts: seq<string>, names: Names)
      ensures this.ports == ports && this.ghostPorts == ghostPorts && this.names == names
      ensures Valid() && Remaining() == names.Listing(ports) + names.Listing(ghostPorts)
    {
      this.ports, this.ghostPorts, this.names := ports, ghostPorts, names;
      inGhosts, position, hasPort := false, 0, false;
      new;
      LeftAtEnds(names, ports, ghostPorts);
    }

    /** The next port, or none at the end; the ghost ports follow the ports in the same call. */
    method Next() returns (port: Option<OfprotoPort>)
      requires Valid()
      modifies this
      ensures Valid() && hasPort == port.Some?
      ensures old(Remaining()) == (if port.Some? then [port.value] else []) + Remaining()
      ensures port.None? ==> Remaining() == []
      decreases if inGhosts then 0 else 1
    {
      hide Left;
      hasPort := false;
      while position < |Current()|
        invariant Valid() && Remaining() == old(Remaining()) && inGhosts == old(inGhosts) && !hasPort
        decreases |Current()| - position
      {
        LeftAfter(names, ports, ghostPorts, inGhosts, position);
        var name := Current()[position];
        position := position + 1;
        port := names.QueryByName(name);
        if port.Some? {
          hasPort := true;
          return;
        }
      }
      LeftAtEnds(names, ports, ghostPorts);
      if !inGhosts {
        inGhosts, position := true, 0;
        port := Next();
        return;
      }
      port := None;
    }

    /** A whole dump: it ends, and has reported the ports and then the ghost ports. */
    method All() returns (reported: seq<OfprotoPort>)
      requires Valid()
      modifies this
      ensures Valid() && reported == old(Remaining()) && Remaining() == []
    {
      hide Left;
      reported := [];
      var port := Next();
      while port.Some?
        invariant Valid()
        invariant old(Remaining()) == reported + ((if port.Some? then [port.value] else []) + Remaining())
        invariant port.None? ==> Remaining() == []
        decreases |Remaining()| + if port.Some? then 1 else 0
      {
        Regroup(reported, port.value, Remaining());
        reported := reported + [port.value];
        port := Next();
      }
    }
  }

  lemma Regroup(reported: seq<OfprotoPort>, port: OfprotoPort, left: seq<OfprotoPort>)
    ensures reported + ([port] + left) == reported + [port] + left
  {}

  /** How often a name is listed. */
  function Times(ports: seq<OfprotoPort>, name: string): nat {
    if ports == [] then 0 else (if ports[0].name == name then 1 else 0) + Times(ports[1..], name)
  }

  lemma {:induction false} TimesConcat(a: seq<OfprotoPort>, b: seq<OfprotoPort>, name: string)
    ensures Times(a + b, name) == Times(a, name) + Times(b, name)
  {
    if a == [] {
      assert a + b == b;
    } else {
      assert (a + b)[1..] == a[1..] + b;
      TimesConcat(a[1..], b, name);
    }
  }

  lemma {:induction false} ListedOnce(names: Names, walked: seq<string>, name: string)
    requires forall i, j :: 0 <= i < j < |walked| ==> walked[i] != walked[j]
    ensures Times(names.Listing(walked), name) == if name in walked && name in names.kinds then 1 else 0
  {
    if walked != [] {
      ListedOnce(names, walked[1..], name);
      var first := if walked[0] in names.kinds then [names.Describe(walked[0])] else [];
      TimesConcat(first, names.Listing(walked[1..]), name);
      assert walked == [walked[0]] + walked[1..];
      assert walked[0] !in walked[1..];
    }
  }

  /** Every port of a listing has its device's type and OpenFlow number, or 65535 if it has none. */
  lemma {:induction false} ListedAsKnown(names: Names, walked: seq<string>)
    ensures forall port :: port in names.Listing(walked) ==> AsKnown(names, port)
  {
    if walked != [] { ListedAsKnown(names, walked[1..]); }
  }

  ghost predicate AsKnown(names: Names, port: OfprotoPort) {
    && port.name in names.kinds && port.kind == names.kinds[port.name]
    && port.ofpPort == if port.name in names.numbers then names.numbers[port.name] else 65535
  }

  /** In a dump every known name of each set is reported exactly once for that set, and no other name is. */
  lemma DumpIsExact(names: Names, ports: seq<string>, ghostPorts: seq<string>, name: string)
    requires forall i, j :: 0 <= i < j < |ports| ==> ports[i] != ports[j]
    requires forall i, j :: 0 <= i < j < |ghostPorts| ==> ghostPorts[i] != ghostPorts[j]
    ensures Times(names.Listing(ports) + names.Listing(ghostPorts), name)
            == if name !in names.kinds then 0
               else (if name in ports then 1 else 0) + if name in ghostPorts then 1 else 0
    ensures forall port :: port in names.Listing(ports) + names.Listing(ghostPorts) ==> AsKnown(names, port)
  {
    ListedAsKnown(names, ports);
    ListedAsKnown(names, ghostPorts);
    ListedOnce(names, ports, name);
    ListedOnce(names, ghostPorts, name);
    TimesConcat(names.Listing(ports), names.Listing(ghostPorts), name);
  }
}
