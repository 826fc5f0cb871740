/** The sFlow rules of a VRF node (`set_sflow` in src/ofproto-sim-provider.c).

    `set_sflow` edits the kernel's NFLOG rules step by step.  `VrfNode` does the same edits on a
    multiset of rules and logs every command that concerns an interface, so that two things can be
    stated: the rules are a function of the last call alone, and the commands of each interface
    come in the order the counters rely on. */
module SflowRules {
  import opened Wrappers
  import opened SflowCounters
  import opened SflowNet

  type Aux = nat

  /** What `set_sflow` reads of a bundle.  In a VRF the bundle's name is its interface's name. */
  datatype Bundle = Bundle(name: string, isSflowEnabled: bool)

  datatype Options = Options(targets: set<string>, samplingRate: nat, pollingInterval: nat, headerLen: nat,
                             maxDatagram: nat, agentDevice: Option<string>, agentIp: Option<string>)

  /** An iptables rule that copies one packet in `rate` to the sFlow agent. */
  datatype NflogRule = NflogRule(port: string, kind: RuleKind, rate: nat)

  // ---------------------------------------------------------------- what the rules should be

  function EnabledAmong(bundles: map<Aux, Bundle>, keys: set<Aux>): set<string> {
    set a | a in keys && a in bundles && bundles[a].isSflowEnabled :: bundles[a].name
  }

  function EnabledNames(bundles: map<Aux, Bundle>): set<string> {
    EnabledAmong(bundles, bundles.Keys)
  }

  function Names(bundles: map<Aux, Bundle>): set<string> {
    set a | a in bundles :: bundles[a].name
  }

  /** Whether a call turns sampling on. */
  predicate Accepted(o: Option<Options>) {
    o.Some? && o.value.targets != {} && o.value.samplingRate != 0
  }

  /** One four-rule group at this rate for each of these interfaces, and no other rule. */
  ghost predicate GroupsFor(rules: multiset<NflogRule>, ports: set<string>, rate: nat) {
    forall r :: rules[r] == if r.port in ports && r.rate == rate then 1 else 0
  }

  /** The rules as a function of one call and the bundles at its time. */
  ghost predicate RulesFollow(rules: multiset<NflogRule>, o: Option<Options>, bundles: map<Aux, Bundle>) {
    if Accepted(o) then GroupsFor(rules, EnabledNames(bundles), o.value.samplingRate) else rules == multiset{}
  }

  /** The same, spelled out: with a target and a rate, each rule of an enabled bundle's interface at that
      rate is there once, and there is no other; without, there is none. */
  ghost predicate RulesAre(rules: multiset<NflogRule>, o: Option<Options>, bundles: map<Aux, Bundle>) {
    if o.Some? && o.value.targets != {} && o.value.samplingRate != 0 then
      forall port, kind, rate ::
        rules[NflogRule(port, kind, rate)] == if rate == o.value.samplingRate && Samples(bundles, port) then 1 else 0
    else rules == multiset{}
  }

  ghost predicate Samples(bundles: map<Aux, Bundle>, port: string) {
    exists a :: a in bundles && bundles[a].isSflowEnabled && bundles[a].name == port
  }

  lemma FollowAre(rules: multiset<NflogRule>, o: Option<Options>, bundles: map<Aux, Bundle>)
    requires RulesFollow(rules, o, bundles)
    ensures RulesAre(rules, o, bundles)
  {
    forall port ensures port in EnabledNames(bundles) <==> Samples(bundles, port) {}
    hide EnabledNames, Samples;
  }

  // ---------------------------------------------------------------- what calls ask for

  datatype Call = SetSflow(o: Option<Options>) | SetBundle(aux: Aux, name: string, enabled: bool)
    | DestroyBundle(aux: Aux)

  /** The bundles, the configuration in force, and the interfaces enabled when it was last accepted. */
  datatype Asked = Asked(bundles: map<Aux, Bundle>, config: Option<Options>, sampled: set<string>)

  /** The calls the code can take: not a repeated configuration after a sampled bundle has gone, and
      not a second bundle of the same name. */
  predicate Takes(a: Asked, call: Call) {
    match call
    case SetSflow(o) => Accepted(o) && a.config == o ==> a.sampled <= Names(a.bundles)
    case SetBundle(aux, name, _) => forall b :: b in a.bundles && b != aux ==> a.bundles[b].name != name
    case DestroyBundle(_) => true
  }

  function After(a: Asked, call: Call): Asked {
    if !Takes(a, call) then a
    else
      match call
      case SetSflow(o) =>
        if Accepted(o) then Asked(a.bundles, o, EnabledNames(a.bundles)) else Asked(a.bundles, None, {})
      case SetBundle(aux, name, enabled) => a.(bundles := a.bundles[aux := Bundle(name, enabled)])
      case DestroyBundle(aux) => a.(bundles := a.bundles - {aux})
  }

  function AfterAll(a: Asked, calls: seq<Call>): Asked
    decreases |calls|
  {
    if calls == [] then a else AfterAll(After(a, calls[0]), calls[1..])
  }

  // ---------------------------------------------------------------- the commands of each interface

  datatype Logged = Logged(port: string, c: Ctl)

  function CommandsOf(log: seq<Logged>, port: string): seq<Ctl> {
    if log == [] then []
    else CommandsOf(log[..|log| - 1], port) + if log[|log| - 1].port == port then [log[|log| - 1].c] else []
  }

  /** Where the commands so far have taken an interface; None once they are out of order. */
  function PortCtl(log: seq<Logged>, port: string): Option<CtlState> {
    CtlRun(CTL_START, CommandsOf(log, port))
  }

  function Next(before: Option<CtlState>, c: Ctl): Option<CtlState> {
    if before.None? then None else CtlStep(before.value, c)
  }

  lemma LogOne(log: seq<Logged>, port: string, c: Ctl)
    ensures forall q :: PortCtl(log + [Logged(port, c)], q)
                        == if q == port then Next(PortCtl(log, q), c) else PortCtl(log, q)
  {
    var log' := log + [Logged(port, c)];
    assert log'[..|log|] == log;
    forall q ensures PortCtl(log', q) == if q == port then Next(PortCtl(log, q), c) else PortCtl(log, q) {
      var cs := CommandsOf(log', q);
      if q == port {
        assert cs[..|cs| - 1] == CommandsOf(log, q);
      } else {
        assert cs == CommandsOf(log, q);
      }
    }
  }

  /** An interface with all of its rules, or none, and no command in progress. */
  ghost predicate Settled(c: Option<CtlState>, on: bool) {
    c.Some? && c.value.phase.Idle?
      && (if on then c.value.present == ALL_KINDS && c.value.enabled else c.value.present == {})
  }

  ghost predicate AllSettled(log: seq<Logged>, ports: set<string>) {
    forall p :: Settled(PortCtl(log, p), p in ports)
  }

  // ---------------------------------------------------------------- the node

  class VrfNode {
    var bundles: map<Aux, Bundle>
    // struct sim_sflow_cfg
    var ports: set<string>
    var targets: set<string>
    var samplingRate: nat
    var pollingInterval: nat
    var headerLen: nat
    var maxDatagram: nat
    var agentDevice: Option<string>
    var agentIp: Option<string>
    var isSet: bool
    var disabled: bool
    // the kernel's SFLOW rules, and the commands issued so far
    var rules: multiset<NflogRule>
    ghost var log: seq<Logged>

    ghost predicate DistinctNames()
      reads this
    {
      forall a, b :: a in bundles && b in bundles && bundles[a].name == bundles[b].name ==> a == b
    }

    /** The rules and the command log agree that exactly `on` is being sampled. */
    ghost predicate Sampling(on: set<string>)
      reads this
    {
      GroupsFor(rules, on, samplingRate) && AllSettled(log, on)
    }

    ghost predicate Valid()
      reads this
    {
      && DistinctNames()
      && Sampling(ports)
      && (if isSet then targets != {} && samplingRate != 0 else targets == {} && ports == {})
      && (disabled ==> !isSet)
    }

    constructor ()
      ensures Valid() && bundles == map[] && rules == multiset{} && log == []
    {
      bundles, ports, targets, rules, log := map[], {}, {}, multiset{}, [];
      samplingRate, pollingInterval, headerLen, maxDatagram := 0, 0, 0, 0;
      agentDevice, agentIp, isSet, disabled := None, None, false, false;
    }

    function Current(): Options
      reads this
    {
      Options(targets, samplingRate, pollingInterval, headerLen, maxDatagram, agentDevice, agentIp)
    }

    function View(): Asked
      reads this
    {
      Asked(bundles, if isSet then Some(Current()) else None, ports)
    }

    ghost method Log(port: string, c: Ctl)
      modifies this`log
      ensures log == old(log) + [Logged(port, c)]
      ensures forall q :: PortCtl(log, q) == if q == port then Next(old(PortCtl(log, q)), c) else old(PortCtl(log, q))
    {
      LogOne(log, port, c);
      log := log + [Logged(port, c)];
    }

    // ------------------------------------------------------------ iptables commands

    method InsertRule(port: string, kind: RuleKind)
      modifies this`rules, this`log
      ensures forall r :: rules[r] == old(rules)[r] + if r == NflogRule(port, kind, samplingRate) then 1 else 0
      ensures forall q :: PortCtl(log, q)
                          == if q == port then Next(old(PortCtl(log, q)), Install(kind)) else old(PortCtl(log, q))
    {
      rules := rules + multiset{NflogRule(port, kind, samplingRate)};
      Log(port, Install(kind));
    }

    /** `-D` fails when no rule with this rate is there. */
    method DeleteRule(port: string, kind: RuleKind) returns (ok: bool)
      modifies this`rules, this`log
      ensures ok <==> NflogRule(port, kind, samplingRate) in old(rules)
      ensures ok ==> forall r :: rules[r] == old(rules)[r] - if r == NflogRule(port, kind, samplingRate) then 1 else 0
      ensures ok ==> forall q :: PortCtl(log, q)
                          == if q == port then Next(old(PortCtl(log, q)), Delete(kind)) else old(PortCtl(log, q))
      ensures !ok ==> rules == old(rules) && log == old(log)
    {
      ok := NflogRule(port, kind, samplingRate) in rules;
      if ok {
        rules := rules - multiset{NflogRule(port, kind, samplingRate)};
        Log(port, Delete(kind));
      }
    }

    /** A port not sampled before, after the reset note and with polling on. */
    method IptableAdd(port: string)
      requires PortCtl(log, port).Some? && PortCtl(log, port).value == CtlState(Adding, {}, true)
      modifies this`rules, this`log
      ensures forall r :: rules[r] == old(rules)[r] + if r.port == port && r.rate == samplingRate then 1 else 0
      ensures forall q :: q != port ==> PortCtl(log, q) == old(PortCtl(log, q))
      ensures PortCtl(log, port) == Some(CtlState(Idle, ALL_KINDS, true))
    {
      hide PortCtl, CtlStep;
      InstallFour(PortCtl(log, port));
      InsertRule(port, InputIn);
      InsertRule(port, OutputOut);
      InsertRule(port, ForwardIn);
      InsertRule(port, ForwardOut);
      FourKinds();
    }

    /** Stops at the first rule it cannot find. */
    method IptableDel(port: string) returns (ok: bool)
      modifies this`rules, this`log
      ensures ok <==> forall k :: NflogRule(port, k, samplingRate) in old(rules)
      ensures ok ==> forall r :: rules[r] == old(rules)[r] - if r.port == port && r.rate == samplingRate then 1 else 0
      ensures ok ==> forall q :: q != port ==> PortCtl(log, q) == old(PortCtl(log, q))
      ensures ok && old(PortCtl(log, port)) == Some(CtlState(Withdrawing, ALL_KINDS, false))
              ==> PortCtl(log, port) == Some(CtlState(Idle, {}, false))
    {
      hide PortCtl, CtlStep;
      FourKinds();
      if PortCtl(log, port) == Some(CtlState(Withdrawing, ALL_KINDS, false)) { WithdrawFour(PortCtl(log, port)); }
      ok := DeleteRule(port, InputIn);
      if !ok { return; }
      ok := DeleteRule(port, OutputOut);
      if !ok { return; }
      ok := DeleteRule(port, ForwardIn);
      if !ok { return; }
      ok := DeleteRule(port, ForwardOut);
      FourKinds();
    }

    // ------------------------------------------------------------ sflow_iptable_del_all

    /** Removes every rule with the SFLOW prefix, whatever its rate, one at a time. */
    method IptableDelAll(ghost on: set<string>, ghost rate: nat)
      requires GroupsFor(rules, on, rate) && AllSettled(log, on)
      modifies this`rules, this`log
      ensures rules == multiset{} && AllSettled(log, {})
    {
      SweepBegins(rules, log, on, rate);
      while rules != multiset{}
        invariant SweptTo(rules, log, on, rate)
        decreases |rules|
      {
        var r :| r in rules;
        SweepOne(rules, log, on, rate, r);
        hide *;
        rules := rules - multiset{r};
        Log(r.port, Delete(r.kind));
      }
      SweepEnds(rules, log, on, rate);
    }

    // ------------------------------------------------------------ sflow_iptables_reconfigure

    method StartSampling(name: string, ghost on: set<string>)
      requires Sampling(on) && name !in on
      modifies this`rules, this`log
      ensures Sampling(on + {name})
    {
      hide PortCtl;
      ArmAndPoll(PortCtl(log, name));
      Log(name, Reset);
      Log(name, Enable(true));
      IptableAdd(name);
    }

    method StopSampling(name: string, ghost on: set<string>)
      requires Sampling(on) && name in on
      modifies this`rules, this`log
      ensures Sampling(on - {name})
    {
      hide PortCtl;
      assert Settled(PortCtl(log, name), true);
      PollOff(PortCtl(log, name));
      Log(name, Enable(false));
      assert forall k :: rules[NflogRule(name, k, samplingRate)] == 1;
      var ok := IptableDel(name);
      assert ok;  // the rate always matches
    }

    method FindByName(name: string) returns (found: Option<Aux>)
      requires DistinctNames()
      ensures found.Some? ==> found.value in bundles && bundles[found.value].name == name
      ensures found.None? ==> name !in Names(bundles)
    {
      var rest := bundles.Keys;
      while rest != {}
        invariant rest <= bundles.Keys
        invariant forall a :: a in bundles.Keys - rest ==> bundles[a].name != name
      {
        var a :| a in rest;
        rest := rest - {a};
        if bundles[a].name == name { return Some(a); }
      }
      found := None;
    }

    /** Adds rules for the enabled bundles that have none, removes those of the bundles no longer
        enabled, and rebuilds `ports`.  A name in `ports` without a bundle would crash the loop. */
    method IptablesReconfigure()
      requires DistinctNames() && Sampling(ports) && ports <= Names(bundles)
      modifies this`rules, this`log, this`ports
      ensures ports == EnabledNames(bundles) && Sampling(ports)
    {
      hide GroupsFor, AllSettled, PortCtl;
      ghost var on := ports;
      var rest := bundles.Keys;
      while rest != {}
        invariant rest <= bundles.Keys && Sampling(on)
        invariant on == ports + EnabledAmong(bundles, bundles.Keys - rest)
      {
        var a :| a in rest;
        if bundles[a].isSflowEnabled && bundles[a].name !in ports {
          StartSampling(bundles[a].name, on);
          on := on + {bundles[a].name};
        }
        EnabledOneMore(bundles, bundles.Keys - rest, a);
        assert bundles.Keys - (rest - {a}) == bundles.Keys - rest + {a};
        rest := rest - {a};
      }
      assert bundles.Keys - {} == bundles.Keys;
      var old_ports := ports;
      while old_ports != {}
        invariant old_ports <= ports && Sampling(on)
        invariant on == EnabledNames(bundles) + old_ports
      {
        var p :| p in old_ports;
        var found := FindByName(p);
        if found.None? || !bundles[found.value].isSflowEnabled {
          StopSampling(p, on);
          on := on - {p};
        }
        old_ports := old_ports - {p};
      }
      assert on == EnabledNames(bundles);
      RebuildPorts();
    }

    method RebuildPorts()
      modifies this`ports
      ensures ports == EnabledNames(bundles)
    {
      ports := {};
      var rest := bundles.Keys;
      while rest != {}
        invariant rest <= bundles.Keys
        invariant ports == EnabledAmong(bundles, bundles.Keys - rest)
      {
        var a :| a in rest;
        if bundles[a].isSflowEnabled { ports := ports + {bundles[a].name}; }
        EnabledOneMore(bundles, bundles.Keys - rest, a);
        assert bundles.Keys - (rest - {a}) == bundles.Keys - rest + {a};
        rest := rest - {a};
      }
      assert bundles.Keys - {} == bundles.Keys;
    }

    // ------------------------------------------------------------ set_sflow

    method CfgClear()
      modifies this`ports, this`targets, this`isSet
      ensures !isSet
      ensures if old(isSet) then ports == {} && targets == {} else ports == old(ports) && targets == old(targets)
    {
      if isSet {
        ports, targets, isSet := {}, {}, false;
      }
    }

    method CfgSet(o: Options)
      modifies this`samplingRate, this`pollingInterval, this`headerLen, this`maxDatagram, this`ports, this`targets,
               this`agentDevice, this`agentIp, this`isSet
      ensures isSet && CfgEqual(o) && ports == {}
    {
      samplingRate, pollingInterval := o.samplingRate, o.pollingInterval;
      headerLen, maxDatagram := o.headerLen, o.maxDatagram;
      ports, targets := {}, o.targets;
      agentDevice, agentIp, isSet := o.agentDevice, o.agentIp, true;
    }

    method Disable()
      requires Valid()
      modifies this
      ensures Valid() && bundles == old(bundles) && !isSet && rules == multiset{}
    {
      hide GroupsFor, AllSettled;
      if disabled {
        NothingSampled(rules, samplingRate);
        return;
      }
      ghost var on := ports;
      CfgClear();
      IptableDelAll(on, samplingRate);
      NothingSampled(rules, samplingRate);
      disabled := true;
    }

    predicate CfgEqual(o: Options)
      reads this
    {
      && o.targets == targets && o.samplingRate == samplingRate && o.pollingInterval == pollingInterval
      && o.headerLen == headerLen && o.maxDatagram == maxDatagram
      && o.agentDevice == agentDevice && o.agentIp == agentIp
    }

    /** After every call the rules follow from that call and the bundles alone; what was installed
        before, and at which rate, makes no difference. */
    method SetSflow(o: Option<Options>)
      requires Valid()
      requires Accepted(o) && CfgEqual(o.value) ==> ports <= Names(bundles)
      modifies this
      ensures Valid() && bundles == old(bundles)
      ensures isSet == Accepted(o) && (isSet ==> CfgEqual(o.value))
      ensures RulesFollow(rules, o, bundles) && RulesAre(rules, o, bundles)
      ensures ports == if Accepted(o) then EnabledNames(bundles) else {}
    {
      hide AllSettled;
      if o.None? || o.value.targets == {} || o.value.samplingRate == 0 {
        Disable();
        FollowAre(rules, o, bundles);
        return;
      }
      if CfgEqual(o.value) {
        IptablesReconfigure();
        FollowAre(rules, o, bundles);
        return;
      }
      Reinstall(o.value);
      FollowAre(rules, o, bundles);
    }

    /** The part of `set_sflow` that runs when the configuration has changed. */
    method Reinstall(o: Options)
      requires Valid() && Accepted(Some(o))
      modifies this
      ensures DistinctNames() && Sampling(ports) && bundles == old(bundles)
      ensures isSet && !disabled && CfgEqual(o) && ports == EnabledNames(bundles)
    {
      hide GroupsFor, AllSettled, EnabledNames, Names;
      ghost var on, rate := ports, samplingRate;
      CfgClear();
      CfgSet(o);
      disabled := false;
      IptableDelAll(on, rate);
      ports := {};
      NothingSampled(rules, samplingRate);
      IptablesReconfigure();
    }

    /** A bundle appears, or its `sflow-enabled` setting changes. */
    method SetBundle(aux: Aux, name: string, enabled: bool)
      requires Valid()
      requires forall b :: b in bundles && b != aux ==> bundles[b].name != name
      modifies this`bundles
      ensures Valid() && bundles == old(bundles)[aux := Bundle(name, enabled)]
    {
      bundles := bundles[aux := Bundle(name, enabled)];
    }

    method DestroyBundle(aux: Aux)
      requires Valid()
      modifies this`bundles
      ensures Valid() && bundles == old(bundles) - {aux}
    {
      bundles := bundles - {aux};
    }

    /** One call, if the code can take it. */
    method Take(call: Call)
      requires Valid()
      modifies this
      ensures Valid() && View() == After(old(View()), call)
      ensures call.SetSflow? && Takes(old(View()), call) ==>
                RulesFollow(rules, call.o, bundles) && RulesAre(rules, call.o, bundles)
      ensures !call.SetSflow? ==> rules == old(rules)
    {
      hide AllSettled, GroupsFor;
      match call {
        case SetSflow(o) =>
          if !(o.Some? && CfgEqual(o.value)) || ports <= Names(bundles) {
            SetSflow(o);
          }
        case SetBundle(aux, name, enabled) =>
          if forall b :: b in bundles && b != aux ==> bundles[b].name != name {
            SetBundle(aux, name, enabled);
          }
        case DestroyBundle(aux) =>
          DestroyBundle(aux);
      }
    }

    /** Any sequence of calls: at every moment the rules are one group for each interface enabled at
        the last accepted call, at that call's rate, and none if there is no such call. */
    method Run(calls: seq<Call>)
      requires Valid()
      modifies this
      ensures Valid() && View() == AfterAll(old(View()), calls)
      ensures var a := AfterAll(old(View()), calls);
              if a.config.Some? then GroupsFor(rules, a.sampled, a.config.value.samplingRate) else rules == multiset{}
    {
      hide AllSettled, GroupsFor, After, Accepted;
      ghost var start := View();
      assert calls[0..] == calls;
      for i := 0 to |calls|
        invariant Valid() && AfterAll(View(), calls[i..]) == AfterAll(start, calls)
      {
        assert calls[i..][0] == calls[i] && calls[i..][1..] == calls[i + 1..];
        Take(calls[i]);
      }
      NothingSampled(rules, samplingRate);
    }
  }

  lemma NothingSampled(rules: multiset<NflogRule>, rate: nat)
    ensures GroupsFor(rules, {}, rate) <==> rules == multiset{}
  {}

  lemma EnabledOneMore(bundles: map<Aux, Bundle>, keys: set<Aux>, a: Aux)
    requires a in bundles
    ensures EnabledAmong(bundles, keys + {a})
            == EnabledAmong(bundles, keys) + if bundles[a].isSflowEnabled then {bundles[a].name} else {}
  {}

  lemma ArmAndPoll(c: Option<CtlState>)
    requires Settled(c, false)
    ensures Next(Next(c, Reset), Enable(true)) == Some(CtlState(Adding, {}, true))
  {}

  lemma PollOff(c: Option<CtlState>)
    requires Settled(c, true)
    ensures Next(c, Enable(false)) == Some(CtlState(Withdrawing, ALL_KINDS, false))
  {}

  // ---------------------------------------------------------------- the counters of each interface

  /** In every reachable state of a node and for every interface: however traffic and polls mix with
      the commands issued so far, the interface's totals over its own rules are exact all along if
      and only if every poll is harmless. */
  lemma CommandsKeepTotalsExact(log: seq<Logged>, on: set<string>, port: string, es: seq<Event>)
    requires AllSettled(log, on)
    requires ControlsOf(es) == CommandsOf(log, port) && AllowedRun(es)
    ensures OpenRun(es)
    ensures (forall i :: 0 <= i <= |es| ==> SflowCounters.Run(es[..i]).Exact()) <==> LegalRun(es)
  {
    assert Settled(PortCtl(log, port), port in on);
    AcceptedControlsAreOpen(es);
    ExactThroughoutIff(es);
  }

  /** So too with all interfaces together and what `grep` lets a poll read, for an interface whose
      name picks out no other sampled one. */
  lemma CommandsKeepNetExact(log: seq<Logged>, on: set<string>, names: seq<string>, port: string, es: seq<NetEvent>)
    requires AllSettled(log, on) && Distinct(names) && port in names && Alone(names, port)
    requires NetEnvironment(names, es) && forall q :: q in names ==> ControlsOf(Project(es, q)) == CommandsOf(log, q)
    ensures OpenRun(Project(es, port)) && NetRun(names, es)[port] == SflowCounters.Run(Project(es, port))
    ensures LegalRun(Project(es, port)) ==> NetRun(names, es)[port].Exact()
  {
    forall q | q in names ensures CtlRun(CTL_START, ControlsOf(Project(es, q))).Some? {
      assert Settled(PortCtl(log, q), q in on);
    }
    NetInOrder(names, es);
    RunsAlone(names, es, port);
    if LegalRun(Project(es, port)) { TotalsExactOnEveryRun(Project(es, port)); }
  }

  // ---------------------------------------------------------------- sweeping, one interface at a time

  ghost function KindsLeft(rules: multiset<NflogRule>, port: string, rate: nat): set<RuleKind> {
    set k: RuleKind | NflogRule(port, k, rate) in rules
  }

  ghost predicate MidSweep(c: Option<CtlState>, left: set<RuleKind>) {
    && c.Some? && c.value.present == left && (left != {} ==> c.value.enabled)
    && c.value.phase == if left == {} || left == ALL_KINDS then Idle else Sweeping
  }

  /** Part-way through a sweep: what is left of each interface's rules, and where it stands. */
  ghost predicate SweptTo(rules: multiset<NflogRule>, log: seq<Logged>, on: set<string>, rate: nat) {
    && (forall r :: 0 <= rules[r] <= 1 && (rules[r] == 1 ==> r.port in on && r.rate == rate))
    && forall p :: MidSweep(PortCtl(log, p), KindsLeft(rules, p, rate))
  }

  lemma SweepStep(c: Option<CtlState>, left: set<RuleKind>, k: RuleKind)
    requires MidSweep(c, left) && k in left
    ensures MidSweep(Next(c, Delete(k)), left - {k})
  {
    assert left == {} || left == ALL_KINDS || c.value.phase.Sweeping?;
    assert k in ALL_KINDS && k !in left - {k};
  }

  lemma SweepOne(rules: multiset<NflogRule>, log: seq<Logged>, on: set<string>, rate: nat, r: NflogRule)
    requires SweptTo(rules, log, on, rate) && r in rules
    ensures SweptTo(rules - multiset{r}, log + [Logged(r.port, Delete(r.kind))], on, rate)
  {
    hide PortCtl, MidSweep;
    var left := KindsLeft(rules, r.port, rate);
    assert rules[r] == 1 && r.kind in left;
    SweepStep(PortCtl(log, r.port), left, r.kind);
    KindsLeftAfter(rules, rules - multiset{r}, r, rate);
    LogOne(log, r.port, Delete(r.kind));
  }

  lemma SweepEnds(rules: multiset<NflogRule>, log: seq<Logged>, on: set<string>, rate: nat)
    requires SweptTo(rules, log, on, rate) && rules == multiset{}
    ensures AllSettled(log, {})
  {
    hide PortCtl;
    assert forall p :: KindsLeft(rules, p, rate) == {};
  }

  lemma KindsLeftAfter(before: multiset<NflogRule>, after: multiset<NflogRule>, r: NflogRule, rate: nat)
    requires after == before - multiset{r} && before[r] == 1 && r.rate == rate
    ensures forall p :: KindsLeft(after, p, rate)
                        == if p == r.port then KindsLeft(before, p, rate) - {r.kind} else KindsLeft(before, p, rate)
  {
    forall p
      ensures KindsLeft(after, p, rate)
              == if p == r.port then KindsLeft(before, p, rate) - {r.kind} else KindsLeft(before, p, rate)
    {
      forall k: RuleKind
        ensures k in KindsLeft(after, p, rate) <==> k in KindsLeft(before, p, rate) && !(p == r.port && k == r.kind)
      {
        assert NflogRule(p, k, rate) == r <==> p == r.port && k == r.kind;
      }
    }
  }

  lemma SweepBegins(rules: multiset<NflogRule>, log: seq<Logged>, on: set<string>, rate: nat)
    requires GroupsFor(rules, on, rate) && AllSettled(log, on)
    ensures SweptTo(rules, log, on, rate)
  {
    hide PortCtl;
    forall k: RuleKind ensures k in ALL_KINDS { match k { case InputIn => case _ => } }
    forall p ensures MidSweep(PortCtl(log, p), KindsLeft(rules, p, rate)) {
      assert Settled(PortCtl(log, p), p in on);
      if p in on {
        assert forall k: RuleKind :: rules[NflogRule(p, k, rate)] == 1;
        assert KindsLeft(rules, p, rate) == ALL_KINDS;
      } else {
        assert KindsLeft(rules, p, rate) == {};
      }
    }
  }

  lemma FourKinds()
    ensures forall r: NflogRule ::
              || r == NflogRule(r.port, InputIn, r.rate) || r == NflogRule(r.port, OutputOut, r.rate)
              || r == NflogRule(r.port, ForwardIn, r.rate) || r == NflogRule(r.port, ForwardOut, r.rate)
  {
    forall r: NflogRule
      ensures || r == NflogRule(r.port, InputIn, r.rate) || r == NflogRule(r.port, OutputOut, r.rate)
              || r == NflogRule(r.port, ForwardIn, r.rate) || r == NflogRule(r.port, ForwardOut, r.rate)
    {
      match r.kind { case InputIn => case ForwardIn => case OutputOut => case ForwardOut => }
    }
  }

  lemma InstallFour(c: Option<CtlState>)
    requires c == Some(CtlState(Adding, {}, true))
    ensures Next(Next(Next(Next(c, Install(InputIn)), Install(OutputOut)), Install(ForwardIn)), Install(ForwardOut))
            == Some(CtlState(Idle, ALL_KINDS, true))
  {
    assert ForwardOut in ALL_KINDS;
    var c1 := Next(c, Install(InputIn));
    var c2 := Next(c1, Install(OutputOut));
    var c3 := Next(c2, Install(ForwardIn));
    assert ForwardOut !in c3.value.present;
    assert c3.value.present + {ForwardOut} == ALL_KINDS;
  }

  lemma WithdrawFour(c: Option<CtlState>)
    requires c == Some(CtlState(Withdrawing, ALL_KINDS, false))
    ensures Next(Next(Next(Next(c, Delete(InputIn)), Delete(OutputOut)), Delete(ForwardIn)), Delete(ForwardOut))
            == Some(CtlState(Idle, {}, false))
  {
    var c1 := Next(c, Delete(InputIn));
    assert OutputOut in c1.value.present && ForwardIn in c1.value.present && ForwardOut in c1.value.present;
    var c2 := Next(c1, Delete(OutputOut));
    assert ForwardIn in c2.value.present && ForwardOut in c2.value.present;
    var c3 := Next(c2, Delete(ForwardIn));
    assert c3.value.present == {ForwardOut};
  }
}
