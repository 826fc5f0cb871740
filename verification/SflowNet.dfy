/** The sFlow counters of all sampled interfaces together (src/netdev-sim.c).

    A poll of one interface reads the kernel's rules through `grep`, which takes the interface's name
    as a pattern and finds it anywhere after the option letter: interface "1" also reads the rules of
    "10".  `Net` has one `World` per sampled interface and gives each poll what `grep` lets through. */
module SflowNet {
  import opened SflowCounters
  import opened Wrappers

  /** Whether a poll of `port` reads the rules of interface `name`: a dot matches any character, and
      the name may go on. */
  predicate Greps(port: string, name: string) {
    |port| <= |name| && forall i :: 0 <= i < |port| ==> port[i] == '.' || port[i] == name[i]
  }

  lemma GrepsItself(port: string)
    ensures Greps(port, port)
  {}

  type Net = map<string, World>

  datatype NetEvent = At(port: string, event: Event)

  function Reading(w: World, ingress: bool): Count { if ingress then w.ingress.Now() else w.egress.Now() }

  /** What a poll of `port` reads in one direction: the sum over the rules that `grep` lets through. */
  function Heard(names: seq<string>, net: Net, port: string, ingress: bool): Count
    requires forall n :: n in names ==> n in net
  {
    if names == [] then ZERO
    else
      var rest := Heard(names[1..], net, port, ingress);
      if !Greps(port, names[0]) then rest
      else
        var own := Reading(net[names[0]], ingress);
        Count(rest.pkts + own.pkts, rest.bytes + own.bytes)
  }

  function Fresh(names: seq<string>): Net { map n | n in names :: START }

  ghost predicate Over(names: seq<string>, net: Net) { forall n :: n in names <==> n in net }

  function NetStep(names: seq<string>, net: Net, e: NetEvent): (next: Net)
    requires Over(names, net)
    ensures Over(names, next)
  {
    if e.port !in net then net
    else if e.event.Poll? then
      net[e.port := PolledAs(net[e.port], Heard(names, net, e.port, true), Heard(names, net, e.port, false))]
    else net[e.port := Step(net[e.port], e.event)]
  }

  function NetRun(names: seq<string>, es: seq<NetEvent>): (net: Net)
    ensures Over(names, net)
  {
    if es == [] then Fresh(names) else NetStep(names, NetRun(names, es[..|es| - 1]), es[|es| - 1])
  }

  /** Readings stay parseable on every interface, its own and what it hears; each interface's commands
      come in order. */
  ghost predicate NetAllowed(names: seq<string>, net: Net, e: NetEvent)
    requires Over(names, net)
  {
    && e.port in names && Allowed(net[e.port], e.event) && Ordered(net[e.port], e.event)
    && forall p, ingress :: p in names ==> Heard(names, NetStep(names, net, e), p, ingress).Readable()
  }

  ghost predicate NetOpen(names: seq<string>, es: seq<NetEvent>) {
    es == [] ||
    (NetOpen(names, es[..|es| - 1]) && NetAllowed(names, NetRun(names, es[..|es| - 1]), es[|es| - 1]))
  }

  /** The part of it that is not about the order of commands. */
  ghost predicate NetEnvironment(names: seq<string>, es: seq<NetEvent>) {
    es == [] ||
    (&& NetEnvironment(names, es[..|es| - 1])
     && var (net, e) := (NetRun(names, es[..|es| - 1]), es[|es| - 1]);
        && e.port in names && Allowed(net[e.port], e.event)
        && forall p, ingress :: p in names ==> Heard(names, NetStep(names, net, e), p, ingress).Readable())
  }

  /** The events of one interface. */
  function Project(es: seq<NetEvent>, port: string): seq<Event> {
    if es == [] then []
    else Project(es[..|es| - 1], port) + if es[|es| - 1].port == port then [es[|es| - 1].event] else []
  }

  predicate Distinct(names: seq<string>) { forall i, j :: 0 <= i < j < |names| ==> names[i] != names[j] }

  /** No other sampled interface is heard in polls of this one. */
  predicate Alone(names: seq<string>, port: string) {
    forall q :: q in names && q != port ==> !Greps(port, q)
  }

  /** If each interface's commands come in an accepted order, the run is one of those above. */
  lemma {:induction false} NetInOrder(names: seq<string>, es: seq<NetEvent>)
    requires NetEnvironment(names, es) && forall q :: q in names ==> CtlRun(CTL_START, ControlsOf(Project(es, q))).Some?
    ensures NetOpen(names, es)
    ensures forall q :: q in names ==> NetRun(names, es)[q].ctl == CtlRun(CTL_START, ControlsOf(Project(es, q))).value
    decreases |es|
  {
    hide Heard, Allowed, Step, NetStep, CtlStep, CtlRun, ControlsOf;
    if es == [] {
      NoControls();
    } else {
      var front, e := es[..|es| - 1], es[|es| - 1];
      forall q | q in names ensures CtlRun(CTL_START, ControlsOf(Project(front, q))).Some? {
        ControlsAfter(front, e, q);
      }
      NetInOrder(names, front);
      ControlsAfter(front, e, e.port);
      CtlMoves(names, NetRun(names, front), e);
      forall q | q in names
        ensures NetRun(names, es)[q].ctl == CtlRun(CTL_START, ControlsOf(Project(es, q))).value
      {
        ControlsAfter(front, e, q);
      }
    }
  }

  lemma NoControls()
    ensures ControlsOf([]) == [] && CtlRun(CTL_START, []) == Some(CTL_START)
  {}

  /** One more event: where an interface's commands have taken it. */
  lemma ControlsAfter(front: seq<NetEvent>, e: NetEvent, q: string)
    ensures var before := CtlRun(CTL_START, ControlsOf(Project(front, q)));
            var after := CtlRun(CTL_START, ControlsOf(Project(front + [e], q)));
            after
            == if q == e.port && e.event.Control? then (if before.None? then None else CtlStep(before.value, e.event.c))
                     else before
  {
    hide CtlStep;
    assert (front + [e])[..|front|] == front;
    if q == e.port {
      ControlsSnoc(Project(front, q), e.event);
      var cs := ControlsOf(Project(front, q));
      if e.event.Control? { assert (cs + [e.event.c])[..|cs|] == cs; } else { assert cs + [] == cs; }
    } else {
      assert Project(front + [e], q) == Project(front, q);
    }
  }

  lemma CtlMoves(names: seq<string>, net: Net, e: NetEvent)
    requires Over(names, net) && e.port in net && Ordered(net[e.port], e.event)
    ensures forall q :: q in net ==>
      NetStep(names, net, e)[q].ctl
      == if q == e.port && e.event.Control? then CtlStep(net[q].ctl, e.event.c).value else net[q].ctl
  {
    hide Heard, CtlStep, Updated;
  }

  lemma ControlsSnoc(es: seq<Event>, e: Event)
    ensures ControlsOf(es + [e]) == ControlsOf(es) + if e.Control? then [e.c] else []
  {
    assert (es + [e])[..|es|] == es;
  }

  // ---------------------------------------------------------------- an interface that hears no other

  lemma {:induction false} HeardAlone(names: seq<string>, net: Net, port: string, ingress: bool)
    requires Distinct(names) && Alone(names, port) && forall n :: n in names ==> n in net
    ensures Heard(names, net, port, ingress) == if port in names then Reading(net[port], ingress) else ZERO
  {
    if names != [] {
      assert names == [names[0]] + names[1..];
      assert names[0] !in names[1..];
      GrepsItself(port);
      hide Greps, Reading;
      HeardAlone(names[1..], net, port, ingress);
    }
  }

  lemma StepsAlone(names: seq<string>, net: Net, e: NetEvent, port: string)
    requires Distinct(names) && port in names && Alone(names, port) && Over(names, net)
    ensures NetStep(names, net, e)[port] == if e.port == port then Step(net[port], e.event) else net[port]
  {
    HeardAlone(names, net, port, true);
    HeardAlone(names, net, port, false);
    hide PolledAs, Controlled, CtlStep, Counted, Heard, Alone;
  }

  /** Its part of the run is a run of its own. */
  lemma {:induction false} RunsAlone(names: seq<string>, es: seq<NetEvent>, port: string)
    requires Distinct(names) && port in names && Alone(names, port) && NetOpen(names, es)
    ensures NetRun(names, es)[port] == Run(Project(es, port)) && OpenRun(Project(es, port))
    decreases |es|
  {
    hide Step, NetStep, Allowed, Ordered, Heard, OpenRun, Run, Alone, Distinct;
    if es == [] {
      StartsOpen();
    } else {
      var front, e := es[..|es| - 1], es[|es| - 1];
      RunsAlone(names, front, port);
      StepsAlone(names, NetRun(names, front), e, port);
      if e.port == port {
        RunStep(Project(front, port), e.event);
      } else {
        assert Project(es, port) == Project(front, port);
      }
    }
  }

  lemma StartsOpen()
    ensures OpenRun([]) && Run([]) == START
  {}

  // ---------------------------------------------------------------- one that hears another

  /** No interface but two has counted anything. */
  ghost predicate QuietBut(net: Net, p: string, q: string) {
    forall n :: n in net && n != p && n != q ==> net[n].ingress.Now() == ZERO == net[n].egress.Now()
  }

  /** What a poll of `port` hears from one interface. */
  function From(names: seq<string>, net: Net, port: string, q: string, ingress: bool): Count
    requires forall n :: n in names ==> n in net
  {
    if q in names && Greps(port, q) then Reading(net[q], ingress) else ZERO
  }

  lemma {:induction false} HeardTwo(names: seq<string>, net: Net, port: string, p: string, q: string, ingress: bool)
    requires Distinct(names) && p != q && QuietBut(net, p, q) && forall n :: n in names ==> n in net
    ensures var h, a, b := Heard(names, net, port, ingress), From(names, net, port, p, ingress),
            From(names, net, port, q, ingress);
            h.pkts == a.pkts + b.pkts && h.bytes == a.bytes + b.bytes
  {
    if names != [] {
      assert names == [names[0]] + names[1..];
      assert names[0] !in names[1..];
      hide Greps;
      HeardTwo(names[1..], net, port, p, q, ingress);
    }
  }

  lemma NetThen(names: seq<string>, es: seq<NetEvent>, e: NetEvent)
    ensures NetRun(names, es + [e]) == NetStep(names, NetRun(names, es), e)
    ensures NetOpen(names, es + [e]) <==> NetOpen(names, es) && NetAllowed(names, NetRun(names, es), e)
    ensures forall q :: Project(es + [e], q) == Project(es, q) + if e.port == q then [e.event] else []
  {
    assert (es + [e])[..|es|] == es;
  }

  /** A step that leaves little to read. */
  lemma SmallStep(names: seq<string>, es: seq<NetEvent>, e: NetEvent, p: string, q: string)
    requires Distinct(names) && p != q && NetOpen(names, es) && e.port in names
    requires var net := NetRun(names, es);
             && Allowed(net[e.port], e.event) && Ordered(net[e.port], e.event)
             && Calm(names, NetStep(names, net, e), p, q)
    ensures NetOpen(names, es + [e])
  {
    NetThen(names, es, e);
    hide NetStep, NetRun, NetOpen, Step, Heard, Greps, Allowed, Ordered, Project, Distinct;
    var next := NetStep(names, NetRun(names, es), e);
    forall n, ingress | n in names ensures Heard(names, next, n, ingress).Readable() {
      HeardTwo(names, next, n, p, q, ingress);
    }
  }

  predicate Small(c: Count) { 0 <= c.pkts < 1000 && 0 <= c.bytes < 1000 }

  /** Only two interfaces have counted anything, and not much. */
  ghost predicate Calm(names: seq<string>, net: Net, p: string, q: string) {
    && Over(names, net) && QuietBut(net, p, q)
    && forall n, ingress :: n in names ==> Small(Reading(net[n], ingress))
  }

  function Tagged(port: string, es: seq<Event>): seq<NetEvent> {
    if es == [] then [] else Tagged(port, es[..|es| - 1]) + [At(port, es[|es| - 1])]
  }

  lemma NoneTagged(es: seq<NetEvent>, port: string)
    ensures es + Tagged(port, []) == es
  {}

  lemma LastTagged(es: seq<NetEvent>, port: string, front: seq<Event>, e: Event)
    ensures es + Tagged(port, front + [e]) == es + Tagged(port, front) + [At(port, e)]
  {
    assert (front + [e])[..|front|] == front;
  }

  lemma {:induction false} ControlsAreQuiet(es: seq<Event>)
    requires forall e :: e in es ==> e.Control?
    ensures var w := Run(es);
            w.ingress.first.now == ZERO == w.ingress.second.now && w.egress.first.now == ZERO == w.egress.second.now
    decreases |es|
  {
    if es != [] {
      ControlsAreQuiet(es[..|es| - 1]);
      assert es[|es| - 1] in es;
    }
  }

  /** One interface of a net that has counted nothing is brought up as it would be on its own. */
  lemma {:induction false} Lift(names: seq<string>, es: seq<NetEvent>, port: string, fs: seq<Event>, p: string,
                                q: string)
    requires Distinct(names) && port in names && p != q && (port == p || port == q) && NetOpen(names, es)
    requires NetRun(names, es)[port] == START && OpenRun(fs) && forall e :: e in fs ==> e.Control?
    requires forall n :: n in names ==> NetRun(names, es)[n].ingress.Now() == ZERO == NetRun(names, es)[n].egress.Now()
    ensures NetOpen(names, es + Tagged(port, fs))
    ensures NetRun(names, es + Tagged(port, fs)) == NetRun(names, es)[port := Run(fs)]
    ensures forall n :: Project(es + Tagged(port, fs), n) == Project(es, n) + if n == port then fs else []
    decreases |fs|
  {
    hide Run, OpenRun, Step, NetStep, NetRun, NetOpen, Distinct, Project, Tagged, Legal, Allowed, Ordered, Calm,
      Side.Now;
    if fs == [] {
      StartsOpen();
      NoneTagged(es, port);
      assert NetRun(names, es)[port := START] == NetRun(names, es);
    } else {
      var front, e := fs[..|fs| - 1], fs[|fs| - 1];
      assert e in fs && fs == front + [e];
      RunStep(front, e);
      Lift(names, es, port, front, p, q);
      var before := es + Tagged(port, front);
      LastTagged(es, port, front, e);
      LiftStep(names, NetRun(names, before), port, front, e, p, q);
      NetThen(names, before, At(port, e));
      SmallStep(names, before, At(port, e), p, q);
    }
  }

  /** One step of it. */
  lemma LiftStep(names: seq<string>, net: Net, port: string, front: seq<Event>, e: Event, p: string, q: string)
    requires Over(names, net) && port in names && net[port] == Run(front) && forall f :: f in front + [e] ==> f.Control?
    requires forall n :: n in names && n != port ==> net[n].ingress.Now() == ZERO == net[n].egress.Now()
    ensures var next := NetStep(names, net, At(port, e));
            next == net[port := Run(front + [e])] && (port == p || port == q ==> Calm(names, next, p, q))
  {
    assert e in front + [e];
    RunStep(front, e);
    ControlsAreQuiet(front + [e]);
    hide Run, Step;
  }

  const UP := START.(dev := FRESH_DEV.(resets := 1, enabled := true), ctl := CtlState(Idle, ALL_KINDS, true))

  lemma QuietStarts()
    ensures START.ingress.Now() == ZERO == START.egress.Now() && UP.ingress.Now() == ZERO == UP.egress.Now()
  {}

  lemma NothingRun(names: seq<string>)
    ensures NetOpen(names, []) && NetRun(names, []) == Fresh(names) && forall n :: Project([], n) == []
  {}

  /** Two interfaces of a fresh net are brought up. */
  lemma BothUp(names: seq<string>, p: string, q: string) returns (es: seq<NetEvent>, up: seq<Event>)
    requires Distinct(names) && p in names && q in names && p != q
    ensures NetOpen(names, es) && NetRun(names, es) == Fresh(names)[p := UP][q := UP]
    ensures Project(es, p) == up && LegalRun(up) && Run(up) == UP
  {
    up := BringUp();
    hide Run, LegalRun, NetRun, NetOpen, Distinct, Project, Tagged, OpenRun;
    LegalIsOpen(up);
    QuietStarts();
    NothingRun(names);
    Lift(names, [], p, up, p, q);
    es := [] + Tagged(p, up);
    Lift(names, es, q, up, p, q);
    es := es + Tagged(q, up);
    assert [] + up == up && up + [] == up;
  }

  // ---------------------------------------------------------------- two interfaces as a pair

  /** What a step does to an interface and to another that its name also picks out. */
  function PairStep(w: World, v: World, atOther: bool, e: Event): (World, World) {
    if atOther then (w, Step(v, e))
    else if e.Poll? then
      (PolledAs(w, Count(w.ingress.Now().pkts + v.ingress.Now().pkts, w.ingress.Now().bytes + v.ingress.Now().bytes),
                Count(w.egress.Now().pkts + v.egress.Now().pkts, w.egress.Now().bytes + v.egress.Now().bytes)), v)
    else (Step(w, e), v)
  }

  predicate FewSamples(w: World) { Small(w.ingress.Now()) && Small(w.egress.Now()) }

  ghost predicate PairAllowed(w: World, v: World, atOther: bool, e: Event) {
    var (w', v') := PairStep(w, v, atOther, e);
    && !(atOther && e.Poll?) && Allowed(if atOther then v else w, e) && Ordered(if atOther then v else w, e)
    && FewSamples(w') && FewSamples(v')
  }

  lemma PairThen(names: seq<string>, es: seq<NetEvent>, p: string, q: string, w: World, v: World, atOther: bool,
                 e: Event)
    requires Distinct(names) && p in names && q in names && p != q && Greps(p, q)
    requires NetOpen(names, es) && NetRun(names, es) == Fresh(names)[p := w][q := v] && PairAllowed(w, v, atOther, e)
    ensures var (next, (w', v')) := (es + [At(if atOther then q else p, e)], PairStep(w, v, atOther, e));
            && NetOpen(names, next) && NetRun(names, next) == Fresh(names)[p := w'][q := v']
            && Project(next, p) == Project(es, p) + if atOther then [] else [e]
  {
    var at := At(if atOther then q else p, e);
    PairMoves(names, p, q, w, v, atOther, e);
    hide *;
    NetThen(names, es, at);
    SmallStep(names, es, at, p, q);
  }

  lemma PairMoves(names: seq<string>, p: string, q: string, w: World, v: World, atOther: bool, e: Event)
    requires Distinct(names) && p in names && q in names && p != q && Greps(p, q) && PairAllowed(w, v, atOther, e)
    ensures var (net, at) := (Fresh(names)[p := w][q := v], At(if atOther then q else p, e));
            var (w', v') := PairStep(w, v, atOther, e);
            && Over(names, net) && NetStep(names, net, at) == Fresh(names)[p := w'][q := v']
            && Calm(names, Fresh(names)[p := w'][q := v'], p, q)
            && Allowed(net[at.port], e) && Ordered(net[at.port], e)
  {
    hide Step, PolledAs, Greps, Heard, Allowed, Ordered, Distinct, Side.Now, Calm;
    var (w', v') := PairStep(w, v, atOther, e);
    PairReads(names, p, q, w, v, true);
    PairReads(names, p, q, w, v, false);
    PairCalm(names, p, q, w', v');
    var net := Fresh(names)[p := w][q := v];
    assert net[p := w'] == Fresh(names)[p := w'][q := v] && net[q := v'] == Fresh(names)[p := w][q := v'];
  }

  lemma PairReads(names: seq<string>, p: string, q: string, w: World, v: World, ingress: bool)
    requires Distinct(names) && p in names && q in names && p != q && Greps(p, q)
    ensures var h, x, y := Heard(names, Fresh(names)[p := w][q := v], p, ingress), Reading(w, ingress),
            Reading(v, ingress);
            h == Count(x.pkts + y.pkts, x.bytes + y.bytes)
  {
    var net := Fresh(names)[p := w][q := v];
    QuietStarts();
    GrepsItself(p);
    hide Greps, Heard, Side.Now;
    HeardTwo(names, net, p, p, q, ingress);
  }

  lemma PairCalm(names: seq<string>, p: string, q: string, w: World, v: World)
    requires p in names && q in names && FewSamples(w) && FewSamples(v)
    ensures Calm(names, Fresh(names)[p := w][q := v], p, q)
  {
    QuietStarts();
    hide Side.Now;
  }

  // ---------------------------------------------------------------- exact if and only if alone

  function Packet(a: Count): Event { Traffic(InputIn, a) }

  predicate OneSample(a: Count) { a.pkts == 1 && 0 <= a.bytes < 100 }

  ghost predicate IsUp(w: World) {
    && w.ctl == CtlState(Idle, ALL_KINDS, true) && w.dev.enabled && w.dev.resets == 1
    && w.dev.ingress.prev == ZERO == w.dev.ingress.total && w.dev.egress.prev == ZERO == w.dev.egress.total
    && w.ingress == NO_SIDE == w.egress
  }

  /** Up, and one packet counted on INPUT. */
  ghost predicate HasPacket(w: World, a: Count) {
    && w.ingress == NO_SIDE.(first := Rule(a, ZERO)) && IsUp(w.(ingress := NO_SIDE))
  }

  lemma UpIsUp()
    ensures IsUp(UP)
  {}

  lemma PacketOnUp(w: World, v: World, a: Count, atOther: bool)
    requires IsUp(w) && FewSamples(v) && OneSample(a)
    ensures HasPacket(Step(w, Packet(a)), a) && FewSamples(Step(w, Packet(a)))
    ensures if atOther then PairAllowed(v, w, true, Packet(a)) else PairAllowed(w, v, false, Packet(a))
  {
    assert InputIn in ALL_KINDS;
  }

  lemma PollOnUp(w: World, v: World, a: Count)
    requires IsUp(w) && HasPacket(v, a) && OneSample(a)
    ensures PairAllowed(w, v, false, Poll) && !PairStep(w, v, false, Poll).0.Exact() && Legal(w, Poll)
  {
    PollCounts(w, v, a);
    hide PairStep, Allowed, HasPacket;
  }

  lemma PollCounts(w: World, v: World, a: Count)
    requires IsUp(w) && HasPacket(v, a) && OneSample(a)
    ensures var (w', v') := PairStep(w, v, false, Poll);
            w'.dev.ingress.total.pkts == 1 && w'.ingress == w'.egress == NO_SIDE && FewSamples(w') && v' == v
              && FewSamples(v)
  {}

  lemma FewWhenUp(w: World)
    requires IsUp(w)
    ensures FewSamples(w)
  {}

  /** Both up; one packet of the other interface is counted; the next poll takes it for this one's. */
  lemma HeardIsCounted(names: seq<string>, p: string, q: string, a: Count) returns (es: seq<NetEvent>)
    requires Distinct(names) && p in names && q in names && p != q && Greps(p, q) && OneSample(a)
    ensures NetOpen(names, es) && LegalRun(Project(es, p)) && !NetRun(names, es)[p].Exact()
  {
    hide *;
    var before, up := BothUp(names, p, q);
    UpIsUp();
    FewWhenUp(UP);
    PacketOnUp(UP, UP, a, true);
    PairThen(names, before, p, q, UP, UP, true, Packet(a));
    OtherMoves(UP, UP, Packet(a));
    var v := Step(UP, Packet(a));
    es := before + [At(q, Packet(a))];
    PollOnUp(UP, v, a);
    PairThen(names, es, p, q, UP, v, false, Poll);
    OwnMoves(UP, v, Poll);
    RunStep(up, Poll);
    es := es + [At(p, Poll)];
    assert up + [] == up;
  }

  lemma OtherMoves(w: World, v: World, e: Event)
    ensures PairStep(w, v, true, e) == (w, Step(v, e))
  {}

  lemma OwnMoves(w: World, v: World, e: Event)
    ensures PairStep(w, v, false, e) == (PairStep(w, v, false, e).0, v)
    ensures !e.Poll? ==> PairStep(w, v, false, e).0 == Step(w, e)
  {}

  /** An interface's totals are exact in every run of the whole net whose polls of it are harmless, if
      and only if its name picks out no other sampled interface. */
  lemma ExactIffAlone(names: seq<string>, p: string)
    requires Distinct(names) && p in names
    ensures Alone(names, p) <==>
            forall es :: NetOpen(names, es) && LegalRun(Project(es, p)) ==> NetRun(names, es)[p].Exact()
  {
    if Alone(names, p) {
      forall es | NetOpen(names, es) && LegalRun(Project(es, p)) ensures NetRun(names, es)[p].Exact() {
        RunsAlone(names, es, p);
        TotalsExactOnEveryRun(Project(es, p));
      }
    } else {
      var q :| q in names && q != p && Greps(p, q);
      var es := HeardIsCounted(names, p, q, Count(1, 64));
    }
  }

  // ---------------------------------------------------------------- interfaces "1" and "10"

  /** Both packets read, and the ledger of the own one closed. */
  ghost predicate BothRead(w: World, a: Count) {
    && w.ctl == CtlState(Idle, ALL_KINDS, true) && w.dev.enabled && w.dev.resets == 0
    && w.dev.ingress.prev.pkts == 2 == w.dev.ingress.total.pkts && w.dev.egress.prev == ZERO
    && w.ingress == NO_SIDE.(first := Rule(a, a)) && w.egress == NO_SIDE
  }

  lemma PollReadsBoth(w: World, v: World, a: Count)
    requires HasPacket(w, a) && HasPacket(v, a) && OneSample(a)
    ensures PairAllowed(w, v, false, Poll) && BothRead(PairStep(w, v, false, Poll).0, a)
  {}

  lemma SwitchedOff(w: World, v: World, a: Count)
    requires BothRead(w, a) && HasPacket(v, a) && OneSample(a)
    ensures PairAllowed(w, v, true, Control(Enable(false)))
    ensures var off := Step(v, Control(Enable(false)));
            off.ctl == CtlState(Withdrawing, ALL_KINDS, false) && off.ingress == v.ingress && off.egress == v.egress
  {}

  lemma RuleRemoved(w: World, v: World, a: Count)
    requires BothRead(w, a) && OneSample(a)
    requires v.ctl == CtlState(Withdrawing, ALL_KINDS, false) && v.egress == NO_SIDE
             && v.ingress == NO_SIDE.(first := Rule(a, ZERO))
    ensures PairAllowed(w, v, true, Control(Delete(InputIn)))
    ensures var gone := Step(v, Control(Delete(InputIn))); gone.ingress.Now() == ZERO == gone.egress.Now()
  {
    assert InputIn in ALL_KINDS;
  }

  lemma ReadsAgain(w: World, v: World, a: Count)
    requires BothRead(w, a) && OneSample(a) && v.ingress.Now() == ZERO == v.egress.Now()
    ensures PairAllowed(w, v, false, Poll)
    ensures var w' := PairStep(w, v, false, Poll).0; w'.ingress.Due().pkts == 1 && w'.dev.ingress.total.pkts == 3
  {}

  /** On its own the interface would have been polled harmlessly. */
  lemma OwnPartIsLegal(up: seq<Event>, a: Count)
    requires LegalRun(up) && Run(up) == UP && OneSample(a)
    ensures LegalRun(up + [Packet(a)] + [Poll] + [Poll])
  {
    UpIsUp();
    FewWhenUp(UP);
    PacketOnUp(UP, UP, a, false);
    RunStep(up, Packet(a));
    RunStep(up + [Packet(a)], Poll);
    RunStep(up + [Packet(a)] + [Poll], Poll);
    hide IsUp, HasPacket, FewSamples, Updated;
  }

  function WithdrawnEvents(es: seq<NetEvent>, p: string, q: string, a: Count): seq<NetEvent> {
    es + [At(q, Packet(a))] + [At(p, Packet(a))] + [At(p, Poll)]
    + [At(q, Control(Enable(false)))] + [At(q, Control(Delete(InputIn)))] + [At(p, Poll)]
  }

  /** One packet is counted on each; a poll of the first reads both; the second is taken out of
      sampling; the next poll takes the drop for a restart and counts the first one's packet again. */
  lemma WithdrawnRun(names: seq<string>, es: seq<NetEvent>, p: string, q: string, up: seq<Event>, a: Count)
    requires Distinct(names) && p in names && q in names && p != q && Greps(p, q) && OneSample(a)
    requires NetOpen(names, es) && NetRun(names, es) == Fresh(names)[p := UP][q := UP] && Project(es, p) == up
    ensures var last := WithdrawnEvents(es, p, q, a);
            && NetOpen(names, last) && p in NetRun(names, last)
            && NetRun(names, last)[p].ingress.Due().pkts == 1 && NetRun(names, last)[p].dev.ingress.total.pkts == 3
            && Project(last, p) == up + [Packet(a)] + [Poll] + [Poll]
  {
    var e1 := es + [At(q, Packet(a))];
    var e2 := e1 + [At(p, Packet(a))];
    var e3 := e2 + [At(p, Poll)];
    var e4 := e3 + [At(q, Control(Enable(false)))];
    var e5 := e4 + [At(q, Control(Delete(InputIn)))];
    assert WithdrawnEvents(es, p, q, a) == e5 + [At(p, Poll)];
    UpIsUp();
    FewWhenUp(UP);
    hide Run, NetRun, NetOpen, Project, PairStep, PairAllowed, Step, Distinct, Greps, IsUp, BothRead, FewSamples,
      Fresh, Side.Now;
    PacketOnUp(UP, UP, a, true);
    PairThen(names, es, p, q, UP, UP, true, Packet(a));
    OtherMoves(UP, UP, Packet(a));
    var v := Step(UP, Packet(a));
    PacketOnUp(UP, v, a, false);
    PairThen(names, e1, p, q, UP, v, false, Packet(a));
    OwnMoves(UP, v, Packet(a));
    PollReadsBoth(v, v, a);
    PairThen(names, e2, p, q, v, v, false, Poll);
    OwnMoves(v, v, Poll);
    var w := PairStep(v, v, false, Poll).0;
    SwitchedOff(w, v, a);
    PairThen(names, e3, p, q, w, v, true, Control(Enable(false)));
    OtherMoves(w, v, Control(Enable(false)));
    var off := Step(v, Control(Enable(false)));
    RuleRemoved(w, off, a);
    PairThen(names, e4, p, q, w, off, true, Control(Delete(InputIn)));
    OtherMoves(w, off, Control(Delete(InputIn)));
    var gone := Step(off, Control(Delete(InputIn)));
    ReadsAgain(w, gone, a);
    PairThen(names, e5, p, q, w, gone, false, Poll);
    OwnMoves(w, gone, Poll);
    assert up + [] == up && up + [Packet(a)] + [Poll] + [] == up + [Packet(a)] + [Poll];
  }

  lemma WithdrawalCountsAgain() returns (es: seq<NetEvent>)
    ensures NetOpen(["1", "10"], es) && LegalRun(Project(es, "1"))
    ensures var w := NetRun(["1", "10"], es)["1"]; w.ingress.Due().pkts == 1 && w.dev.ingress.total.pkts == 3
  {
    var names, p, q, a := ["1", "10"], "1", "10", Count(1, 64);
    assert p[0] == q[0] && |p| == 1;
    assert p in names && q in names && names[0] != names[1];
    assert Distinct(names) && Greps(p, q) && OneSample(a);
    hide *;
    var before, up := BothUp(names, p, q);
    WithdrawnRun(names, before, p, q, up, a);
    OwnPartIsLegal(up, a);
    es := WithdrawnEvents(before, p, q, a);
  }
}
