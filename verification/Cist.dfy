/** The CIST port reconciler (`mstp_cist_configure_ports` in src/sim-stp-plugin.c): three loops over
    hash maps, in whatever order those give, that bring the stored ports to the database's rows. */
module Cist {
  import opened Wrappers

  // enum mstp_instance_port_state
  const DISABLED: int := 0
  const LEARNING: int := 2
  const FORWARDING: int := 3
  const BLOCKED: int := 4
  const INVALID: int := 5

  /** A row of the database: a reference to a port, which may be missing, and a state string. */
  datatype Row = Row(port: Option<string>, state: string)

  /** A stored port, under its name. */
  datatype Port = Port(stpState: int, row: Row)

  /** `get_port_state_from_string` */
  function Decode(state: string): Option<int> {
    if state == "Blocking" then Some(BLOCKED)
    else if state == "Disabled" then Some(DISABLED)
    else if state == "Learning" then Some(LEARNING)
    else if state == "Forwarding" then Some(FORWARDING)
    else None
  }

  // ---------------------------------------------------------------- the same, in the database's words

  /** The number that stands for a state. */
  ghost predicate Shows(state: string, number: int) {
    || (state == "Blocking" && number == 4) || (state == "Disabled" && number == 0)
    || (state == "Learning" && number == 2) || (state == "Forwarding" && number == 3)
  }

  ghost predicate Spelled(state: string) {
    state == "Blocking" || state == "Disabled" || state == "Learning" || state == "Forwarding"
  }

  /** It is the first of the rows to name the port. */
  ghost predicate FirstRow(rows: seq<Row>, n: string, row: Row) {
    exists i :: 0 <= i < |rows| && rows[i] == row && row.port == Some(n) && forall j :: 0 <= j < i ==>
      rows[j].port != Some(n)
  }

  /** The ports are those that the rows name, each with its row.  A new port has its row's state, or
      5 if that is no state; any other port has its row's state or the one it had. */
  ghost predicate StoredFrom(rows: seq<Row>, was: map<string, Port>, ports: map<string, Port>) {
    && (forall n :: n in ports <==> exists r :: r in rows && r.port == Some(n))
    && forall n :: n in ports ==>
           FirstRow(rows, n, ports[n].row) && StoredOne(ports[n], if n in was then Some(was[n].stpState) else None)
  }

  ghost predicate StoredOne(p: Port, was: Option<int>) {
    if was.Some? then Shows(p.row.state, p.stpState) || p.stpState == was.value
    else if Spelled(p.row.state) then Shows(p.row.state, p.stpState)
    else p.stpState == 5
  }

  /** Every port has a state of the database's, and that is the one that is stored. */
  ghost predicate AllShown(ports: map<string, Port>) {
    forall n :: n in ports ==> Shows(ports[n].row.state, ports[n].stpState)
  }

  ghost predicate AllSpelled(ports: map<string, Port>) { forall n :: n in ports ==> Spelled(ports[n].row.state) }

  /** What is known of the ports whatever there was before. */
  ghost predicate LastStored(rows: seq<Row>, ports: map<string, Port>) {
    && (forall n :: n in ports <==> exists r :: r in rows && r.port == Some(n))
    && (forall n :: n in ports ==> FirstRow(rows, n, ports[n].row))
    && (AllSpelled(ports) ==> AllShown(ports))
  }

  /** Every row that names a port has a state of the database's. */
  ghost predicate RowsSpelled(rows: seq<Row>) { forall r :: r in rows && r.port.Some? ==> Spelled(r.state) }

  /** The kernel has every port, in the state of its row. */
  ghost predicate KernelShows(ports: map<string, Port>, members: set<string>, kernel: map<string, int>) {
    forall n :: n in ports ==> n in members && n in kernel && Shows(ports[n].row.state, kernel[n])
  }

  lemma DecodeShows(state: string)
    ensures Decode(state).Some? <==> Spelled(state)
    ensures forall number :: Decode(state) == Some(number) <==> Shows(state, number)
  {}

  lemma SpelledDecodes(rows: seq<Row>)
    requires RowsSpelled(rows)
    ensures AllDecodable(RowsByName(rows))
  {
    hide Decode, Spelled, Shows, RowsByName;
    forall n | n in RowsByName(rows) ensures Decode(RowsByName(rows)[n].state).Some? {
      FirstRowCounts(rows, n);
      DecodeShows(RowsByName(rows)[n].state);
    }
  }

  lemma LastShows(rows: seq<Row>, ports: map<string, Port>, members: set<string>, kernel: map<string, int>)
    requires LastStored(rows, ports) && (AllSpelled(ports) || AllDecodable(RowsByName(rows)))
    ensures ToldOf(ports, members, kernel) ==> KernelShows(ports, members, kernel)
  {
    hide Decode, Spelled, Shows, RowsByName;
    if !AllSpelled(ports) {
      forall n | n in ports ensures Spelled(ports[n].row.state) {
        FirstRowCounts(rows, n);
        DecodeShows(ports[n].row.state);
      }
    }
    ToldShows(ports, members, kernel);
  }

  lemma NamedRow(rows: seq<Row>, n: string)
    ensures n in RowsByName(rows) <==> exists r :: r in rows && r.port == Some(n)
    ensures n in RowsByName(rows) ==> FirstRow(rows, n, RowsByName(rows)[n])
  {
    FirstRowCounts(rows, n);
    hide RowsByName;
    if exists r :: r in rows && r.port == Some(n) {
      var r :| r in rows && r.port == Some(n);
      var i :| 0 <= i < |rows| && rows[i] == r;
    }
    if n in RowsByName(rows) {
      var i :| 0 <= i < |rows| && rows[i].port == Some(n) && RowsByName(rows)[n] == rows[i]
               && forall j :: 0 <= j < i ==> rows[j].port != Some(n);
      assert rows[i] in rows;
    }
  }

  lemma FollowsStored(rows: seq<Row>, was: map<string, Port>, ports: map<string, Port>)
    requires Follows(was, ports, RowsByName(rows))
    requires AllDecodable(RowsByName(rows)) ==> ports == Target(RowsByName(rows))
    ensures StoredFrom(rows, was, ports) && LastStored(rows, ports)
    ensures AllSpelled(ports) <==> AllDecodable(RowsByName(rows))
  {
    hide Decode, Shows, Spelled, RowsByName, FirstRow, AllDecodable, Target;
    var byName := RowsByName(rows);
    forall n
      ensures n in ports <==> exists r :: r in rows && r.port == Some(n)
      ensures n in ports ==> FirstRow(rows, n, ports[n].row)
    {
      NamedRow(rows, n);
    }
    forall n | n in ports ensures StoredOne(ports[n], if n in was then Some(was[n].stpState) else None) {
      DecodeShows(byName[n].state);
    }
    ShownByTarget(byName, ports);
  }

  lemma ShownByTarget(byName: map<string, Row>, ports: map<string, Port>)
    requires ports.Keys == byName.Keys && forall n :: n in ports ==> ports[n].row == byName[n]
    requires AllDecodable(byName) ==> ports == Target(byName)
    ensures AllSpelled(ports) ==> AllShown(ports)
    ensures AllSpelled(ports) <==> AllDecodable(byName)
  {
    hide Decode, Shows, Spelled;
    forall n | n in ports
      ensures Decode(byName[n].state).Some? <==> Spelled(ports[n].row.state)
      ensures Decode(byName[n].state) == Some(ports[n].stpState) ==> Shows(ports[n].row.state, ports[n].stpState)
    {
      DecodeShows(byName[n].state);
    }
  }

  // ---------------------------------------------------------------- what the database asks for

  /** The row of each port name: the first one that names it. */
  function RowsByName(rows: seq<Row>): map<string, Row> {
    if rows == [] then map[]
    else
      var front, last := RowsByName(rows[..|rows| - 1]), rows[|rows| - 1];
      if last.port.None? || last.port.value in front then front else front[last.port.value := last]
  }

  ghost predicate AllDecodable(rows: map<string, Row>) {
    forall n :: n in rows ==> Decode(rows[n].state).Some?
  }

  /** Every row with a name that is not among these has a state that decodes. */
  ghost predicate NewDecode(names: set<string>, rows: map<string, Row>) {
    forall n :: n in rows && n !in names ==> Decode(rows[n].state).Some?
  }

  /** In every call the rows whose names are new since the call before decode. */
  ghost predicate AlwaysDecode(names: set<string>, calls: seq<(seq<Row>, bool)>)
    decreases |calls|
  {
    calls == [] ||
    var rows := RowsByName(calls[0].0);
    NewDecode(names, rows) && AlwaysDecode(rows.Keys, calls[1..])
  }

  /** The stored ports a call should end with. */
  ghost function Target(rows: map<string, Row>): map<string, Port> {
    map n | n in rows :: Port(Decode(rows[n].state).GetOr(INVALID), rows[n])
  }

  /** A name is asked for exactly when some row gives it, and it is the first such row that counts. */
  lemma {:induction false} FirstRowCounts(rows: seq<Row>, n: string)
    ensures n in RowsByName(rows) <==> exists i :: 0 <= i < |rows| && rows[i].port == Some(n)
    ensures n in RowsByName(rows) ==>
              exists i :: 0 <= i < |rows| && rows[i].port == Some(n) && RowsByName(rows)[n] == rows[i]
                          && forall j :: 0 <= j < i ==> rows[j].port != Some(n)
    decreases |rows|
  {
    if rows != [] {
      var front := rows[..|rows| - 1];
      FirstRowCounts(front, n);
      assert forall i :: 0 <= i < |front| ==> front[i] == rows[i];
      if n in RowsByName(front) {
        var i :| 0 <= i < |front| && front[i].port == Some(n) && RowsByName(front)[n] == front[i]
                 && forall j :: 0 <= j < i ==> front[j].port != Some(n);
        assert rows[i].port == Some(n);
      } else if rows[|rows| - 1].port == Some(n) {
        assert forall j :: 0 <= j < |rows| - 1 ==> rows[j] == front[j];
      }
    }
  }

  // ---------------------------------------------------------------- the instance

  class MstpInstance {
    var ports: map<string, Port>
    var nbPorts: int
    // the kernel's side: bridge members, link states, and how many link states were ever set
    var members: set<string>
    var kernel: map<string, int>
    var kernelSets: nat
    /** Ports ever added with an undecodable state: the code does not count those in `nb_ports`,
        but does subtract them when they go. */
    ghost var uncounted: nat

    ghost predicate Valid()
      reads this
    {
      nbPorts == |ports| - uncounted
    }

    constructor ()
      ensures Valid() && ToldOf(ports, members, kernel) && ports == map[] && uncounted == 0
    {
      ports, nbPorts, members, kernel, kernelSets, uncounted := map[], 0, {}, map[], 0, 0;
    }

    method SetPortState(n: string, state: int)
      modifies this`kernel, this`kernelSets
      ensures kernel == old(kernel)[n := state] && kernelSets == old(kernelSets) + 1
    {
      kernel := kernel[n := state];
      kernelSets := kernelSets + 1;
    }

    method Delete(n: string)
      requires Valid() && n in ports
      modifies this`ports, this`nbPorts, this`members
      ensures Valid() && ports == old(ports) - {n} && members == old(members) - {n}
    {
      assert |ports| == |ports - {n}| + 1 by { Shrinks(ports, n); }
      ports := ports - {n};
      members := members - {n};
      nbPorts := nbPorts - 1;
    }

    /** `brOk` is whether `br_set` returns 0 when the first counted port arrives. */
    method Add(n: string, row: Row, brOk: bool)
      requires Valid() && n !in ports
      modifies this
      ensures Valid() && ports == old(ports)[n := Port(Decode(row.state).GetOr(INVALID), row)]
      ensures uncounted == old(uncounted) + if Decode(row.state).Some? then 0 else 1
      ensures kernelSets <= old(kernelSets) + 1 && members <= old(members) + {n}
      ensures brOk && Decode(row.state).Some? && ToldOf(old(ports), old(members), old(kernel)) ==>
                ToldOf(ports, members, kernel)
    {
      Grows(ports, n, Port(Decode(row.state).GetOr(INVALID), row));
      var state := Decode(row.state);
      if state.None? {
        ports := ports[n := Port(INVALID, row)];
        uncounted := uncounted + 1;
        return;
      }
      ports := ports[n := Port(state.value, row)];
      nbPorts := nbPorts + 1;
      if nbPorts == 1 && !brOk {
        return;
      }
      members := members + {n};
      SetPortState(n, state.value);
    }

    method Collect(rows: seq<Row>) returns (byName: map<string, Row>)
      ensures byName == RowsByName(rows)
    {
      byName := map[];
      for i := 0 to |rows|
        invariant byName == RowsByName(rows[..i])
      {
        assert rows[..i + 1][..i] == rows[..i];
        if rows[i].port.Some? && rows[i].port.value !in byName {
          byName := byName[rows[i].port.value := rows[i]];
        }
      }
      assert rows[..|rows|] == rows;
    }

    /** First loop: ports without a row go, the others take their row. */
    method DeleteOld(rows: map<string, Row>)
      requires Valid()
      modifies this`ports, this`nbPorts, this`members
      ensures Valid() && ports == Pruned(old(ports), rows, {})
      ensures members == old(members) - (old(ports).Keys - rows.Keys)
    {
      ghost var ports0, members0 := ports, members;
      var rest := ports.Keys;
      PrunedStart(ports, rows);
      while rest != {}
        invariant Valid() && rest <= ports0.Keys && ports == Pruned(ports0, rows, rest)
        invariant members == members0 - (ports0.Keys - rest - rows.Keys)
      {
        var n :| n in rest;
        PrunedStep(ports0, rows, rest, n);
        if n !in rows {
          Delete(n);
        } else {
          Updates(ports, n, Port(ports[n].stpState, rows[n]));
          ports := ports[n := Port(ports[n].stpState, rows[n])];
        }
        rest := rest - {n};
      }
    }

    /** Second loop: rows without a port are added. */
    method AddNew(rows: map<string, Row>, brOk: bool)
      requires Valid()
      modifies this
      ensures Valid() && ports == Merged(old(ports), rows, rows.Keys) && uncounted >= old(uncounted)
      ensures uncounted == old(uncounted) <==> NewDecode(old(ports).Keys, rows)
      ensures members <= old(members) + rows.Keys
      ensures rows.Keys <= old(ports).Keys ==>
                kernelSets == old(kernelSets) && members == old(members) && kernel == old(kernel)
                    && uncounted == old(uncounted)
      ensures brOk && AllDecodable(rows) && ToldOf(old(ports), old(members), old(kernel)) ==>
                ToldOf(ports, members, kernel)
    {
      hide Decode, Merged, ToldOf, NewDecode, AllDecodable, MstpInstance.Valid;
      ghost var ports0 := ports;
      var rest := rows.Keys;
      MergedStart(ports, rows);
      NoneNew(ports0.Keys, rows);
      while rest != {}
        invariant Valid() && rest <= rows.Keys && ports == Merged(ports0, rows, rows.Keys - rest)
                  && uncounted >= old(uncounted)
        invariant uncounted == old(uncounted) <==> NewDecode(ports0.Keys + rest, rows)
        invariant members <= old(members) + rows.Keys
        invariant rows.Keys <= ports0.Keys ==>
                    kernelSets == old(kernelSets) && members == old(members) && kernel == old(kernel)
                    && uncounted == old(uncounted)
        invariant brOk && AllDecodable(rows) && ToldOf(ports0, old(members), old(kernel)) ==>
                    ToldOf(ports, members, kernel)
      {
        var n :| n in rest;
        MergedStep(ports0, rows, rows.Keys - rest, n);
        NewStep(ports0.Keys, rows, rest, n);
        if n !in ports {
          Add(n, rows[n], brOk);
        }
        assert rows.Keys - (rest - {n}) == rows.Keys - rest + {n};
        rest := rest - {n};
      }
      assert rows.Keys - {} == rows.Keys && ports0.Keys + {} == ports0.Keys;
    }

    /** Third loop: changed states are stored and set; the first undecodable state ends it. */
    method UpdateStates()
      requires Valid()
      modifies this`ports, this`kernel, this`kernelSets
      ensures Valid() && exists rest :: rest <= old(ports).Keys && ports == Restated(old(ports), rest)
      ensures (forall n :: n in old(ports) ==> Decode(old(ports)[n].row.state).Some?) ==>
                ports == Restated(old(ports), {})
      ensures (forall n :: n in old(ports) ==> Restate(old(ports)[n]) == old(ports)[n]) ==>
                kernelSets == old(kernelSets) && kernel == old(kernel)
      ensures ToldOf(old(ports), members, old(kernel)) ==> ToldOf(ports, members, kernel)
    {
      hide Decode, Restated, ToldOf;
      ghost var ports0 := ports;
      var rest := ports.Keys;
      RestatedStart(ports);
      while rest != {}
        invariant Valid() && rest <= ports0.Keys && ports == Restated(ports0, rest)
        invariant (forall n :: n in ports0 ==> Restate(ports0[n]) == ports0[n]) ==>
                    kernelSets == old(kernelSets) && kernel == old(kernel)
        invariant ToldOf(ports0, members, old(kernel)) ==> ToldOf(ports, members, kernel)
      {
        var n :| n in rest;
        RestatedStep(ports0, rest, n);
        var state := Decode(ports[n].row.state);
        if state.None? {
          return;
        }
        if state.value != ports[n].stpState {
          Updates(ports, n, ports[n].(stpState := state.value));
          if ToldOf(ports, members, kernel) { ToldSet(ports, members, kernel, n, state.value); }
          ports := ports[n := ports[n].(stpState := state.value)];
          SetPortState(n, state.value);
        }
        rest := rest - {n};
      }
    }

    /** One reconfiguration, from any reachable state.  Names and rows always follow the database;
        when every state decodes, so do the stored states, and repeating the call changes nothing. */
    method ConfigurePorts(rows: seq<Row>, brOk: bool)
      requires Valid()
      modifies this
      ensures Valid() && uncounted >= old(uncounted)
      ensures Follows(old(ports), ports, RowsByName(rows))
      ensures ports.Keys == RowsByName(rows).Keys
      ensures uncounted == old(uncounted) <==> NewDecode(old(ports).Keys, RowsByName(rows))
      ensures AllDecodable(RowsByName(rows)) ==> ports == Target(RowsByName(rows))
      ensures AllDecodable(RowsByName(rows)) && old(ports) == Target(RowsByName(rows)) ==>
                ports == old(ports) && nbPorts == old(nbPorts) && kernelSets == old(kernelSets) && kernel == old(kernel)
                && members == old(members)
      ensures brOk && AllDecodable(RowsByName(rows)) && ToldOf(old(ports), old(members), old(kernel))
              ==> ToldOf(ports, members, kernel)
      // in the database's words
      ensures StoredFrom(rows, old(ports), ports)
      ensures forall n :: n in old(ports) && n !in ports ==> n !in members
      ensures LastStored(rows, ports)
      ensures brOk && AllSpelled(ports) && ToldOf(old(ports), old(members), old(kernel)) ==>
                KernelShows(ports, members, kernel)
    {
      hide Decode, RowsByName, Pruned, Merged, Restated, Target, ToldOf, Follows, AllDecodable, NewDecode, StoredFrom,
        AllSpelled,
        AllShown, KernelShows, LastStored;
      ghost var ports0, members0 := ports, members;
      var byName := Collect(rows);
      DeleteOld(byName);
      ghost var ports1 := ports;
      PrunedNew(ports0, byName);
      PrunedTold(ports0, members0, members, kernel, byName);
      AddNew(byName, brOk);
      ghost var ports2 := ports;
      UpdateStates();
      ThreeLoops(ports0, ports1, ports2, ports, byName);
      FollowsStored(rows, ports0, ports);
      if AllSpelled(ports) { LastShows(rows, ports, members, kernel); }
    }

    /** Any sequence of reconfigurations.  `nb_ports` is the number of ports if and only if it was before
        and in every call the rows that are new decode. */
    method Run(calls: seq<(seq<Row>, bool)>)
      requires Valid()
      modifies this
      ensures Valid() && (nbPorts == |ports| <==> old(nbPorts == |ports|) && AlwaysDecode(old(ports).Keys, calls))
      ensures calls != [] ==> ports.Keys == RowsByName(calls[|calls| - 1].0).Keys
      ensures calls != [] && AllDecodable(RowsByName(calls[|calls| - 1].0)) ==>
                ports == Target(RowsByName(calls[|calls| - 1].0))
      ensures (forall c :: c in calls ==> c.1 && AllDecodable(RowsByName(c.0)))
              && ToldOf(old(ports), old(members), old(kernel)) ==>
                ToldOf(ports, members, kernel)
      // in the database's words
      ensures calls != [] ==> LastStored(calls[|calls| - 1].0, ports)
      ensures calls != [] && (forall c :: c in calls ==> c.1 && RowsSpelled(c.0))
              && ToldOf(old(ports), old(members), old(kernel)) ==>
                KernelShows(ports, members, kernel)
    {
      hide RowsSpelled, LastStored, StoredFrom, AllShown, KernelShows, AllSpelled, RowsByName, Target, ToldOf, Follows,
        AllDecodable, NewDecode, Decode, Spelled;
      forall c | c in calls && RowsSpelled(c.0) ensures AllDecodable(RowsByName(c.0)) { SpelledDecodes(c.0); }
      ghost var names := ports.Keys;
      assert calls[0..] == calls;
      for i := 0 to |calls|
        invariant Valid() && uncounted >= old(uncounted)
        invariant uncounted == 0 && AlwaysDecode(ports.Keys, calls[i..]) <==>
                  old(uncounted) == 0 && AlwaysDecode(names, calls)
        invariant i > 0 ==> LastStored(calls[i - 1].0, ports)
        invariant i > 0 ==> ports.Keys == RowsByName(calls[i - 1].0).Keys
        invariant i > 0 && AllDecodable(RowsByName(calls[i - 1].0)) ==> ports == Target(RowsByName(calls[i - 1].0))
        invariant (forall c :: c in calls[..i] ==> c.1 && AllDecodable(RowsByName(c.0)))
                  && ToldOf(old(ports), old(members), old(kernel)) ==>
                    ToldOf(ports, members, kernel)
      {
        assert calls[..i + 1] == calls[..i] + [calls[i]] && calls[i] in calls[..i + 1];
        assert calls[i..][0] == calls[i] && calls[i..][1..] == calls[i + 1..];
        ConfigurePorts(calls[i].0, calls[i].1);
      }
      assert calls[..|calls|] == calls;
      if calls != [] && AllDecodable(RowsByName(calls[|calls| - 1].0)) {
        LastShows(calls[|calls| - 1].0, ports, members, kernel);
      }
    }
  }

  /** A port with a state the decoder rejects comes and goes, and `nb_ports` is negative. */
  method UndecodableRun() returns (m: MstpInstance)
    ensures m.Valid() && m.ports == map[] && m.nbPorts < 0
  {
    m := new MstpInstance();
    var row := Row(Some("1"), "");
    assert [row][..0] == [];
    assert RowsByName([]) == map[] && RowsByName([row]) == map["1" := row];
    m.ConfigurePorts([row], true);
    assert "1" in RowsByName([row]);
    assert m.uncounted != 0 && |m.ports.Keys| == 1;
    m.ConfigurePorts([], true);
  }

  ghost predicate ToldOf(ports: map<string, Port>, members: set<string>, kernel: map<string, int>) {
    forall n :: n in ports ==> n in members && n in kernel && kernel[n] == ports[n].stpState
  }

  lemma ToldShows(ports: map<string, Port>, members: set<string>, kernel: map<string, int>)
    requires AllShown(ports)
    ensures ToldOf(ports, members, kernel) ==> KernelShows(ports, members, kernel)
  {}

  lemma ToldSet(ports: map<string, Port>, members: set<string>, kernel: map<string, int>, n: string, state: int)
    requires n in ports && ToldOf(ports, members, kernel)
    ensures ToldOf(ports[n := ports[n].(stpState := state)], members, kernel[n := state])
  {}

  // ---------------------------------------------------------------- what each loop has done, part-way

  ghost function Pruned(ports: map<string, Port>, rows: map<string, Row>, rest: set<string>): map<string, Port> {
    map n | n in ports && (n in rest || n in rows) :: if n in rest then ports[n] else Port(ports[n].stpState, rows[n])
  }

  lemma PrunedStart(ports: map<string, Port>, rows: map<string, Row>)
    ensures Pruned(ports, rows, ports.Keys) == ports
  {}

  /** What is new for the database is new for what the first loop leaves. */
  lemma PrunedNew(ports: map<string, Port>, rows: map<string, Row>)
    ensures NewDecode(Pruned(ports, rows, {}).Keys, rows) <==> NewDecode(ports.Keys, rows)
  {
    hide Decode;
  }

  lemma PrunedStep(ports: map<string, Port>, rows: map<string, Row>, rest: set<string>, n: string)
    requires n in rest && rest <= ports.Keys
    ensures var (now, next) := (Pruned(ports, rows, rest), Pruned(ports, rows, rest - {n}));
            n in now && next == if n in rows then now[n := Port(now[n].stpState, rows[n])] else now - {n}
  {}

  ghost function Merged(ports: map<string, Port>, rows: map<string, Row>, done: set<string>): map<string, Port>
    requires done <= rows.Keys
  {
    map n | n in ports.Keys + done ::
      if n in ports then ports[n] else Port(Decode(rows[n].state).GetOr(INVALID), rows[n])
  }

  lemma MergedStart(ports: map<string, Port>, rows: map<string, Row>)
    ensures rows.Keys - rows.Keys == {} && Merged(ports, rows, {}) == ports
  {}

  lemma MergedStep(ports: map<string, Port>, rows: map<string, Row>, done: set<string>, n: string)
    requires done <= rows.Keys && n in rows
    ensures var now := Merged(ports, rows, done);
            Merged(ports, rows, done + {n})
            == if n in now then now else now[n := Port(Decode(rows[n].state).GetOr(INVALID), rows[n])]
    ensures rows.Keys <= ports.Keys ==> n in Merged(ports, rows, done)
    ensures n !in done ==> (n in Merged(ports, rows, done) <==> n in ports)
  {
    hide Decode;
  }

  lemma NoneNew(names: set<string>, rows: map<string, Row>)
    ensures NewDecode(names + rows.Keys, rows)
  {}

  lemma NewStep(names: set<string>, rows: map<string, Row>, rest: set<string>, n: string)
    requires n in rest && n in rows
    ensures NewDecode(names + (rest - {n}), rows) <==>
            NewDecode(names + rest, rows) && (n in names || Decode(rows[n].state).Some?)
    ensures AllDecodable(rows) ==> Decode(rows[n].state).Some?
  {
    hide Decode;
  }

  /** A port with its row's state, if that decodes. */
  ghost function Restate(p: Port): Port { p.(stpState := Decode(p.row.state).GetOr(p.stpState)) }

  ghost function Restated(ports: map<string, Port>, rest: set<string>): map<string, Port> {
    map n | n in ports :: if n in rest then ports[n] else Restate(ports[n])
  }

  lemma RestatedStart(ports: map<string, Port>)
    ensures Restated(ports, ports.Keys) == ports
  {}

  lemma RestatedStep(ports: map<string, Port>, rest: set<string>, n: string)
    requires n in rest && rest <= ports.Keys
    ensures var now := Restated(ports, rest);
            && n in now && now[n] == ports[n]
            && Restated(ports, rest - {n}) == now[n := Restate(ports[n])]
            && (Restate(ports[n]) == ports[n] ==> Restated(ports, rest - {n}) == now)
  {
    hide Decode;
  }

  lemma PrunedTold(ports: map<string, Port>, members: set<string>, members': set<string>, kernel: map<string, int>,
                   rows: map<string, Row>)
    requires members' == members - (ports.Keys - rows.Keys)
    ensures ToldOf(ports, members, kernel) ==> ToldOf(Pruned(ports, rows, {}), members', kernel)
    ensures ports.Keys <= rows.Keys ==> members' == members
  {}

  /** What one call does to the stored ports, whatever the states: the names and rows are the
      database's, and each state is the decoded one, or else what it was, or INVALID when new. */
  ghost predicate Follows(ports0: map<string, Port>, ports: map<string, Port>, rows: map<string, Row>) {
    && ports.Keys == rows.Keys
    && forall n :: n in ports ==>
         && ports[n].row == rows[n]
         && if n in ports0 then
              Some(ports[n].stpState) == Decode(rows[n].state) || ports[n].stpState == ports0[n].stpState
            else ports[n].stpState == Decode(rows[n].state).GetOr(INVALID)
  }

  lemma ThreeLoops(ports0: map<string, Port>, ports1: map<string, Port>, ports2: map<string, Port>,
                   ports: map<string, Port>,
                   rows: map<string, Row>)
    requires ports1 == Pruned(ports0, rows, {}) && ports2 == Merged(ports1, rows, rows.Keys)
    requires exists rest :: rest <= ports2.Keys && ports == Restated(ports2, rest)
    requires (forall n :: n in ports2 ==> Decode(ports2[n].row.state).Some?) ==> ports == Restated(ports2, {})
    ensures Follows(ports0, ports, rows) && ports.Keys == rows.Keys
    ensures AllDecodable(rows) ==> ports == Target(rows)
    ensures AllDecodable(rows) && ports0 == Target(rows) ==>
              && ports0.Keys == rows.Keys && ports1 == ports0 && ports2 == ports0
              && forall n :: n in ports2 ==> Restate(ports2[n]) == ports2[n]
  {
    hide Decode, Pruned, Merged, Restated, Follows, Target, Restate, AllDecodable;
    FirstTwo(ports0, ports1, ports2, rows);
    ThirdFollows(ports0, ports2, ports, rows);
    if AllDecodable(rows) {
      ThirdReaches(ports2, rows);
      if ports0 == Target(rows) { NothingToDo(ports0, rows); }
    }
  }

  /** After the first two loops: the database's names and rows, and each state old or new. */
  ghost predicate Merging(ports0: map<string, Port>, ports: map<string, Port>, rows: map<string, Row>) {
    && ports.Keys == rows.Keys
    && forall n :: n in ports ==>
         && ports[n].row == rows[n]
         && ports[n].stpState == if n in ports0 then ports0[n].stpState else Decode(rows[n].state).GetOr(INVALID)
  }

  lemma FirstTwo(ports0: map<string, Port>, ports1: map<string, Port>, ports2: map<string, Port>,
                 rows: map<string, Row>)
    requires ports1 == Pruned(ports0, rows, {}) && ports2 == Merged(ports1, rows, rows.Keys)
    ensures Merging(ports0, ports2, rows)
    ensures (forall n :: n in ports2 ==> Decode(ports2[n].row.state).Some?) <==> AllDecodable(rows)
  {
    hide Decode;
  }

  lemma ThirdFollows(ports0: map<string, Port>, ports2: map<string, Port>, ports: map<string, Port>,
                     rows: map<string, Row>)
    requires Merging(ports0, ports2, rows) && exists rest :: rest <= ports2.Keys && ports == Restated(ports2, rest)
    ensures Follows(ports0, ports, rows) && ports.Keys == rows.Keys
  {
    hide Decode;
  }

  lemma ThirdReaches(ports2: map<string, Port>, rows: map<string, Row>)
    requires AllDecodable(rows) && ports2.Keys == rows.Keys && forall n :: n in ports2 ==> ports2[n].row == rows[n]
    ensures Restated(ports2, {}) == Target(rows)
  {
    hide Decode;
  }

  lemma NothingToDo(ports0: map<string, Port>, rows: map<string, Row>)
    requires AllDecodable(rows) && ports0 == Target(rows)
    ensures ports0.Keys == rows.Keys && Pruned(ports0, rows, {}) == ports0 && Merged(ports0, rows, rows.Keys) == ports0
    ensures forall n :: n in ports0 ==> Restate(ports0[n]) == ports0[n]
  {
    hide Decode;
  }

  lemma Shrinks(ports: map<string, Port>, n: string)
    requires n in ports
    ensures |ports| == |ports - {n}| + 1
  {
    assert ports == (ports - {n})[n := ports[n]];
  }

  lemma Grows(ports: map<string, Port>, n: string, p: Port)
    requires n !in ports
    ensures |ports[n := p]| == |ports| + 1
  {
    assert ports[n := p] - {n} == ports;
    Shrinks(ports[n := p], n);
  }

  lemma Updates(ports: map<string, Port>, n: string, p: Port)
    requires n in ports
    ensures |ports[n := p]| == |ports|
  {
    assert ports[n := p].Keys == ports.Keys;
    assert |ports.Keys| == |ports| && |ports[n := p].Keys| == |ports[n := p]|;
  }
}
