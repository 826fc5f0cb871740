/** sFlow sample counters of one L3 interface (src/netdev-sim.c).

    The kernel counts samples in four NFLOG rules that come and go; a poller turns readings of
    those rules into ever-growing totals.  `NetdevSim` is the object the code updates.  Around it,
    `World` puts the kernel's rules and a ledger that says what the totals should be, and lets
    traffic, rule changes and polls interleave one command at a time. */
module SflowCounters {
  import opened Wrappers

  const TWO32: int := 0x1_0000_0000
  const TWO64: int := 0x1_0000_0000_0000_0000
  const READ_LIMIT: int := 1_000_000_000_000_000  // a reading is parsed from at most 15 characters

  datatype Count = Count(pkts: int, bytes: int) {
    /** Never negative; and no packet, no byte. */
    predicate Sane() { 0 <= pkts && 0 <= bytes && (pkts == 0 ==> bytes == 0) }
    predicate AtMost(c: Count) { pkts <= c.pkts && bytes <= c.bytes }
    predicate Readable() { pkts < READ_LIMIT && bytes < READ_LIMIT }
  }

  const ZERO := Count(0, 0)

  /** uint64_t arithmetic: the remainder modulo 2^64, also for a negative difference. */
  function Wrap(x: int): int { x % TWO64 }

  function Wrapped(c: Count): Count { Count(Wrap(c.pkts), Wrap(c.bytes)) }

  // ---------------------------------------------------------------- the object

  /** One direction: the previous reading and the running total. */
  datatype Meter = Meter(prev: Count, total: Count)

  datatype Dev = Dev(enabled: bool, resets: int, ingress: Meter, egress: Meter)

  const FRESH_DEV := Dev(false, 0, Meter(ZERO, ZERO), Meter(ZERO, ZERO))

  /** Whether an update treats its reading as the first of new rules. */
  predicate Restarted(d: Dev, readIn: Count, readOut: Count) {
    d.resets > 0 || d.ingress.prev.pkts > readIn.pkts || d.egress.prev.pkts > readOut.pkts
  }

  function Grown(total: Count, reading: Count): Count {
    Count(Wrap(total.pkts + reading.pkts), Wrap(total.bytes + reading.bytes))
  }

  function Advanced(total: Count, reading: Count, prev: Count): Count {
    Count(Wrap(total.pkts + (reading.pkts - prev.pkts)), Wrap(total.bytes + (reading.bytes - prev.bytes)))
  }

  function Metered(m: Meter, reading: Count, anew: bool): Meter {
    if anew then Meter(reading, Grown(m.total, reading)) else Meter(reading, Advanced(m.total, reading, m.prev))
  }

  function Seen(d: Dev, c: Count): Count { if d.enabled then c else ZERO }

  /** One poll; a device whose statistics are off reads zeros. */
  function Updated(d: Dev, readIn: Count, readOut: Count): Dev {
    var anew := Restarted(d, Seen(d, readIn), Seen(d, readOut));
    Dev(d.enabled, 0, Metered(d.ingress, Seen(d, readIn), anew), Metered(d.egress, Seen(d, readOut), anew))
  }

  function ResetNoted(d: Dev): Dev {
    d.(resets := (d.resets + 1) % TWO32)
  }

  /** The sFlow fields of `struct netdev_sim`; each pair of packet and byte fields is one Count. */
  class NetdevSim {
    var sflowStatsEnabled: bool
    var sflowResets: nat
    var sflowPrevIngress: Count
    var sflowPrevEgress: Count
    var sflowIngress: Count
    var sflowEgress: Count

    ghost function View(): Dev
      reads this
    {
      Dev(sflowStatsEnabled, sflowResets, Meter(sflowPrevIngress, sflowIngress), Meter(sflowPrevEgress, sflowEgress))
    }

    constructor ()
      ensures View() == FRESH_DEV
    {
      sflowStatsEnabled, sflowResets := false, 0;
      sflowPrevIngress, sflowPrevEgress, sflowIngress, sflowEgress := ZERO, ZERO, ZERO, ZERO;
    }

    /** `readIn` and `readOut` are what the kernel's rules would answer now. */
    method UpdateSflowStats(readIn: Count, readOut: Count)
      modifies this
      ensures View() == Updated(old(View()), readIn, readOut)
    {
      var inp, out := ZERO, ZERO;
      if sflowStatsEnabled {
        inp, out := readIn, readOut;
      }
      if sflowResets > 0 || sflowPrevIngress.pkts > inp.pkts || sflowPrevEgress.pkts > out.pkts {
        sflowIngress := Grown(sflowIngress, inp);
        sflowEgress := Grown(sflowEgress, out);
      } else {
        sflowIngress := Advanced(sflowIngress, inp, sflowPrevIngress);
        sflowEgress := Advanced(sflowEgress, out, sflowPrevEgress);
      }
      sflowPrevIngress, sflowPrevEgress := inp, out;
      sflowResets := 0;
    }

    method SflowReset()
      modifies this
      ensures View() == ResetNoted(old(View()))
    {
      sflowResets := (sflowResets + 1) % TWO32;
    }

    method SflowStatsEnable(enabled: bool)
      modifies this
      ensures View() == old(View()).(enabled := enabled)
    {
      sflowStatsEnabled := enabled;
    }
  }

  // ---------------------------------------------------------------- the commands on one interface

  datatype Slot = First | Second

  /** The four NFLOG rules of an interface: INPUT and FORWARD match `-i`, OUTPUT and FORWARD `-o`. */
  datatype RuleKind = InputIn | ForwardIn | OutputOut | ForwardOut {
    predicate OnIngress() { InputIn? || ForwardIn? }
    function Slot(): Slot { if InputIn? || OutputOut? then First else Second }
  }

  /** What the control path does to an interface, one call or one iptables command at a time. */
  datatype Ctl = Reset | Enable(on: bool) | Install(kind: RuleKind) | Delete(kind: RuleKind)

  /** Where the control path is: between calls; removing every SFLOW rule of the system; removing
      one interface's rules after polling was switched off for it; after the reset note; adding. */
  datatype Phase = Idle | Sweeping | Withdrawing | Armed | Adding

  datatype CtlState = CtlState(phase: Phase, present: set<RuleKind>, enabled: bool)

  const ALL_KINDS: set<RuleKind> := {InputIn, ForwardIn, OutputOut, ForwardOut}
  const CTL_START := CtlState(Idle, {}, false)

  /** The orders in which the control path issues its commands; None for any other order. */
  function CtlStep(c: CtlState, e: Ctl): Option<CtlState> {
    match e
    case Reset =>
      if c.phase.Idle? && c.present == {} then Some(c.(phase := Armed)) else None
    case Enable(on) =>
      if on && c.phase.Armed? then Some(c.(phase := Adding, enabled := true))
      else if !on && c.phase.Idle? && c.present == ALL_KINDS then Some(c.(phase := Withdrawing, enabled := false))
      else None
    case Install(k) =>
      if c.phase.Adding? && k !in c.present then
        var present := c.present + {k};
        Some(c.(present := present, phase := if present == ALL_KINDS then Idle else Adding))
      else None
    case Delete(k) =>
      if k !in c.present then None
      else if c.phase.Idle? && c.present == ALL_KINDS then Some(Removed(c, k, Sweeping))
      else if c.phase.Sweeping? || c.phase.Withdrawing? then Some(Removed(c, k, c.phase))
      else None
  }

  function Removed(c: CtlState, k: RuleKind, during: Phase): CtlState {
    var present := c.present - {k};
    c.(present := present, phase := if present == {} then Idle else during)
  }

  function CtlRun(c: CtlState, es: seq<Ctl>): Option<CtlState> {
    if es == [] then Some(c)
    else
      var before := CtlRun(c, es[..|es| - 1]);
      if before.None? then None else CtlStep(before.value, es[|es| - 1])
  }

  ghost predicate CtlOk(c: CtlState) {
    match c.phase
    case Idle => c.present == {} || (c.present == ALL_KINDS && c.enabled)
    case Sweeping => c.enabled && c.present != {} && c.present != ALL_KINDS
    case Withdrawing => !c.enabled && c.present != {}
    case Armed => c.present == {}
    case Adding => c.enabled && c.present != ALL_KINDS
  }

  // ---------------------------------------------------------------- the interleaved system

  /** A kernel rule (zeros when it is not there): its counter, and what the latest poll of this
      epoch read from it.  An epoch lasts from the rule's insertion to its removal. */
  datatype Rule = Rule(now: Count, last: Count)

  const NO_RULE := Rule(ZERO, ZERO)

  /** The two rules of one direction, and the ledger: `closed` adds up the final readings of all
      ended epochs, `gone` those of the epochs the sweep in progress has ended since the last poll. */
  datatype Side = Side(first: Rule, second: Rule, closed: Count, gone: Count) {
    function Now(): Count {
      Count(first.now.pkts + second.now.pkts, first.now.bytes + second.now.bytes)
    }
    function Last(): Count {
      Count(first.last.pkts + second.last.pkts, first.last.bytes + second.last.bytes)
    }
    /** The samples of the last reading of every epoch, each counted once. */
    function Due(): Count {
      Count(closed.pkts + first.last.pkts + second.last.pkts, closed.bytes + first.last.bytes + second.last.bytes)
    }

    function At(s: Slot): Rule { if s.First? then first else second }
    function With(s: Slot, r: Rule): Side { if s.First? then this.(first := r) else this.(second := r) }

    function Polled(): Side {
      this.(first := Rule(first.now, first.now), second := Rule(second.now, second.now), gone := ZERO)
    }
    function Counted(s: Slot, c: Count): Side {
      var r := At(s);
      With(s, r.(now := Count(r.now.pkts + c.pkts, r.now.bytes + c.bytes)))
    }
    function Deleted(s: Slot): Side {
      var final := At(s).last;
      With(s, NO_RULE).(closed := Count(closed.pkts + final.pkts, closed.bytes + final.bytes),
                       gone := Count(gone.pkts + final.pkts, gone.bytes + final.bytes))
    }
  }

  datatype World = World(dev: Dev, ctl: CtlState, ingress: Side, egress: Side) {
    ghost predicate Exact() {
      dev.ingress.total == Wrapped(ingress.Due()) && dev.egress.total == Wrapped(egress.Due())
    }
    function With(k: RuleKind, s: Side): World {
      if k.OnIngress() then this.(ingress := s) else this.(egress := s)
    }
    function SideOf(k: RuleKind): Side { if k.OnIngress() then ingress else egress }
  }

  const NO_SIDE := Side(NO_RULE, NO_RULE, ZERO, ZERO)
  const START := World(FRESH_DEV, CTL_START, NO_SIDE, NO_SIDE)

  datatype Event = Control(c: Ctl) | Traffic(kind: RuleKind, amount: Count) | Poll

  /** A poll that reads these counts; the ledger closes on the interface's own rules. */
  function PolledAs(w: World, readIn: Count, readOut: Count): World {
    var dev := Updated(w.dev, readIn, readOut);
    if w.dev.enabled then World(dev, w.ctl, w.ingress.Polled(), w.egress.Polled()) else w.(dev := dev)
  }

  /** A poll that reads the interface's own rules. */
  function Polled(w: World): World { PolledAs(w, w.ingress.Now(), w.egress.Now()) }

  function Counted(w: World, k: RuleKind, amount: Count): World {
    if k in w.ctl.present then w.With(k, w.SideOf(k).Counted(k.Slot(), amount)) else w
  }

  function Controlled(w: World, c: Ctl): World {
    match c
    case Reset => w.(dev := ResetNoted(w.dev))
    case Enable(on) => w.(dev := w.dev.(enabled := on))
    case Install(k) => w.With(k, w.SideOf(k).With(k.Slot(), NO_RULE))
    case Delete(k) => Deleted(w, k)
  }

  /** The first removal of a sweep starts `gone` afresh on both sides. */
  function Swept(w: World): World {
    if w.ctl.phase.Sweeping? then w
    else w.(ingress := w.ingress.(gone := ZERO), egress := w.egress.(gone := ZERO))
  }

  /** Removing a rule ends its epoch. */
  function Deleted(w: World, k: RuleKind): World {
    var w0 := Swept(w);
    w0.With(k, w0.SideOf(k).Deleted(k.Slot()))
  }

  function Step(w: World, e: Event): World {
    match e
    case Poll => Polled(w)
    case Traffic(k, a) => Counted(w, k, a)
    case Control(c) =>
      var ctl := CtlStep(w.ctl, c);
      if ctl.None? then w else Controlled(w, c).(ctl := ctl.value)
  }

  /** What the environment keeps to: the 32-bit reset counter does not come round between polls, and
      readings stay parseable. */
  predicate Allowed(w: World, e: Event) {
    match e
    case Poll => true
    case Traffic(k, a) => a.Sane() && Counted(w, k, a).SideOf(k).Now().Readable()
    case Control(c) => c.Reset? ==> w.dev.resets + 1 < TWO32
  }

  /** What the control path keeps to: the order of its commands.  Polls may come at any time. */
  predicate Ordered(w: World, e: Event) { e.Control? ==> CtlStep(w.ctl, e.c).Some? }

  /** A poll is harmless outside a sweep.  Inside one it is if a reset is pending, or packet counts
      dropped and the rules still there had last been read as zero, or they did not drop and the
      rules removed since the last poll had last been read as zero. */
  predicate Harmless(w: World) {
    w.ctl.phase.Sweeping? ==>
      var dropped := w.dev.ingress.prev.pkts > w.ingress.Now().pkts || w.dev.egress.prev.pkts > w.egress.Now().pkts;
      || w.dev.resets > 0
      || (dropped && w.ingress.Last() == ZERO == w.egress.Last())
      || (!dropped && w.ingress.gone == ZERO == w.egress.gone)
  }

  predicate Legal(w: World, e: Event) { Allowed(w, e) && Ordered(w, e) && (e.Poll? ==> Harmless(w)) }

  function Run(es: seq<Event>): World {
    if es == [] then START else Step(Run(es[..|es| - 1]), es[|es| - 1])
  }

  /** Any interleaving of traffic, polls and the control path's commands. */
  predicate OpenRun(es: seq<Event>) {
    es == [] ||
    (&& OpenRun(es[..|es| - 1])
     && Allowed(Run(es[..|es| - 1]), es[|es| - 1]) && Ordered(Run(es[..|es| - 1]), es[|es| - 1]))
  }

  /** One in which every poll is harmless. */
  predicate LegalRun(es: seq<Event>) {
    es == [] || (LegalRun(es[..|es| - 1]) && Legal(Run(es[..|es| - 1]), es[|es| - 1]))
  }

  /** One whose commands may come in any order. */
  predicate AllowedRun(es: seq<Event>) {
    es == [] || (AllowedRun(es[..|es| - 1]) && Allowed(Run(es[..|es| - 1]), es[|es| - 1]))
  }

  /** The control commands of a run, in order. */
  function ControlsOf(es: seq<Event>): seq<Ctl> {
    if es == [] then []
    else ControlsOf(es[..|es| - 1]) + if es[|es| - 1].Control? then [es[|es| - 1].c] else []
  }

  /** A run whose control commands come in an accepted order is one of the runs below. */
  lemma {:induction false} AcceptedControlsAreOpen(es: seq<Event>)
    requires CtlRun(CTL_START, ControlsOf(es)).Some? && AllowedRun(es)
    ensures OpenRun(es) && Run(es).ctl == CtlRun(CTL_START, ControlsOf(es)).value
    decreases |es|
  {
    if es != [] {
      var front, e := es[..|es| - 1], es[|es| - 1];
      if e.Control? {
        assert ControlsOf(es)[..|ControlsOf(es)| - 1] == ControlsOf(front);
      } else {
        assert ControlsOf(es) == ControlsOf(front);
      }
      AcceptedControlsAreOpen(front);
    }
  }

  // ---------------------------------------------------------------- the invariant

  /** A counter is sane, was last read no higher, and is zero when its rule is not there. */
  ghost predicate RuleOk(present: bool, r: Rule) {
    r.now.Sane() && r.last.Sane() && r.last.AtMost(r.now) && (!present ==> r == NO_RULE)
  }

  ghost predicate SideOk(first: bool, second: bool, s: Side) {
    RuleOk(first, s.first) && RuleOk(second, s.second) && s.Now().Readable()
  }

  /** What the device remembers of a direction: the last readings, or a pending reset and nothing read. */
  ghost predicate Matches(resets: int, prev: Count, s: Side, gone: Count) {
    if resets == 0 then prev == Count(s.Last().pkts + gone.pkts, s.Last().bytes + gone.bytes)
    else s.first.last == ZERO == s.second.last && gone == ZERO
  }

  ghost predicate Shape(w: World) {
    && CtlOk(w.ctl) && w.dev.enabled == w.ctl.enabled && 0 <= w.dev.resets < TWO32
    && w.dev.ingress.prev.Sane() && w.dev.egress.prev.Sane()
    && SidesOk(w.ctl.present, w)
  }

  ghost predicate SidesOk(p: set<RuleKind>, w: World) {
    && SideOk(InputIn in p, ForwardIn in p, w.ingress)
    && SideOk(OutputOut in p, ForwardOut in p, w.egress)
  }

  ghost predicate GoneOk(s: Side) {
    && 0 <= s.gone.pkts && 0 <= s.gone.bytes
    && Count(s.Last().pkts + s.gone.pkts, s.Last().bytes + s.gone.bytes).Readable()
  }

  ghost predicate Memory(w: World) {
    match w.ctl.phase
    case Withdrawing => true
    case Sweeping =>
      && Matches(w.dev.resets, w.dev.ingress.prev, w.ingress, w.ingress.gone) && GoneOk(w.ingress)
      && Matches(w.dev.resets, w.dev.egress.prev, w.egress, w.egress.gone) && GoneOk(w.egress)
    case _ =>
      (w.ctl.phase.Idle? && w.ctl.present == {}) ||
      (&& Matches(w.dev.resets, w.dev.ingress.prev, w.ingress, ZERO)
       && Matches(w.dev.resets, w.dev.egress.prev, w.egress, ZERO))
  }

  lemma CtlStaysOk(c: CtlState, e: Ctl)
    requires CtlOk(c) && CtlStep(c, e).Some?
    ensures CtlOk(CtlStep(c, e).value)
  {
    assert InputIn in ALL_KINDS && ForwardIn in ALL_KINDS;
    if e.Delete? {
      var k := if e.kind.InputIn? then ForwardIn else InputIn;
      assert k in ALL_KINDS - {e.kind} && e.kind !in c.present - {e.kind};
    }
  }

  lemma SideInstallOk(first: bool, second: bool, s: Side, slot: Slot)
    requires SideOk(first, second, s)
    ensures SideOk(first || slot.First?, second || slot.Second?, s.With(slot, NO_RULE))
  {}

  lemma SideDeleteOk(first: bool, second: bool, s: Side, slot: Slot)
    requires SideOk(first, second, s)
    ensures SideOk(first && !slot.First?, second && !slot.Second?, s.Deleted(slot))
  {}

  /** Ending an epoch moves its last reading; nothing is lost on either side of the move. */
  lemma DeleteKeepsSums(s: Side, slot: Slot)
    ensures s.Deleted(slot).Due() == s.Due()
    ensures var d := s.Deleted(slot);
            && d.Last().pkts + d.gone.pkts == s.Last().pkts + s.gone.pkts
            && d.Last().bytes + d.gone.bytes == s.Last().bytes + s.gone.bytes
  {}

  lemma SidePollOk(first: bool, second: bool, s: Side)
    requires SideOk(first, second, s)
    ensures SideOk(first, second, s.Polled()) && s.Now().Sane()
    ensures s.Polled().Last() == s.Now()
  {}

  lemma SideTrafficOk(first: bool, second: bool, s: Side, slot: Slot, a: Count)
    requires SideOk(first, second, s) && a.Sane() && (if slot.First? then first else second)
    requires s.Counted(slot, a).Now().Readable()
    ensures SideOk(first, second, s.Counted(slot, a))
    ensures s.Counted(slot, a).Last() == s.Last() && s.Counted(slot, a).Due() == s.Due()
  {}

  lemma ControlKeepsShape(w: World, c: Ctl)
    requires Shape(w) && CtlStep(w.ctl, c).Some?
    ensures Shape(Step(w, Control(c)))
  {
    hide SideOk, CtlOk, Side.Deleted, Side.With;
    CtlStaysOk(w.ctl, c);
    var p := w.ctl.present;
    match c {
      case Install(k) =>
        if k.OnIngress() { SideInstallOk(InputIn in p, ForwardIn in p, w.ingress, k.Slot()); }
        else { SideInstallOk(OutputOut in p, ForwardOut in p, w.egress, k.Slot()); }
      case Delete(k) =>
        var w0 := Swept(w);
        GoneIsSpare(InputIn in p, ForwardIn in p, w.ingress);
        GoneIsSpare(OutputOut in p, ForwardOut in p, w.egress);
        if k.OnIngress() { SideDeleteOk(InputIn in p, ForwardIn in p, w0.ingress, k.Slot()); }
        else { SideDeleteOk(OutputOut in p, ForwardOut in p, w0.egress, k.Slot()); }
      case _ =>
    }
  }

  lemma GoneIsSpare(first: bool, second: bool, s: Side)
    ensures SideOk(first, second, s) == SideOk(first, second, s.(gone := ZERO))
  {}

  lemma PollKeepsShape(w: World)
    requires Shape(w)
    ensures Shape(Polled(w))
  {
    hide SideOk, CtlOk;
    SidePollOk(InputIn in w.ctl.present, ForwardIn in w.ctl.present, w.ingress);
    SidePollOk(OutputOut in w.ctl.present, ForwardOut in w.ctl.present, w.egress);
  }

  lemma TrafficKeepsShape(w: World, k: RuleKind, a: Count)
    requires Shape(w) && Legal(w, Traffic(k, a))
    ensures Shape(Counted(w, k, a))
  {
    hide SideOk, CtlOk;
    var p := w.ctl.present;
    if k in p {
      if k.OnIngress() { SideTrafficOk(InputIn in p, ForwardIn in p, w.ingress, k.Slot(), a); }
      else { SideTrafficOk(OutputOut in p, ForwardOut in p, w.egress, k.Slot(), a); }
    }
  }

  lemma AbsentSide(s: Side)
    requires SideOk(false, false, s)
    ensures s.first == NO_RULE == s.second
  {}

  lemma DeleteKeepsMatch(s: Side, slot: Slot, first: bool, second: bool)
    requires SideOk(first, second, s)
    ensures forall r: int, prev :: Matches(r, prev, s, s.gone) ==>
              Matches(r, prev, s.Deleted(slot), s.Deleted(slot).gone)
    ensures GoneOk(s) ==> GoneOk(s.Deleted(slot))
  {
    DeleteKeepsSums(s, slot);
  }

  lemma DeleteKeepsMemory(w: World, k: RuleKind)
    requires Shape(w) && Memory(w) && CtlStep(w.ctl, Delete(k)).Some?
    ensures Memory(Step(w, Control(Delete(k))))
  {
    hide SideOk, Side.Deleted;
    var p := w.ctl.present;
    if w.ctl.phase.Withdrawing? { return; }
    var w0 := Swept(w);
    SweepStart(w);
    if k.OnIngress() { DeleteKeepsMatch(w0.ingress, k.Slot(), InputIn in p, ForwardIn in p); }
    else { DeleteKeepsMatch(w0.egress, k.Slot(), OutputOut in p, ForwardOut in p); }
  }

  /** Starting a sweep: nothing is gone yet. */
  lemma SweepStart(w: World)
    requires Shape(w) && Memory(w)
    requires w.ctl.phase.Sweeping? || (w.ctl.phase.Idle? && w.ctl.present == ALL_KINDS)
    ensures var w0 := Swept(w);
            && SidesOk(w.ctl.present, w0)
            && Matches(w.dev.resets, w.dev.ingress.prev, w0.ingress, w0.ingress.gone) && GoneOk(w0.ingress)
            && Matches(w.dev.resets, w.dev.egress.prev, w0.egress, w0.egress.gone) && GoneOk(w0.egress)
  {
    assert InputIn in ALL_KINDS;
  }

  lemma ControlKeepsMemory(w: World, c: Ctl)
    requires Shape(w) && Memory(w) && Legal(w, Control(c))
    ensures Memory(Step(w, Control(c)))
  {
    match c {
      case Reset =>
        AbsentSide(w.ingress);
        AbsentSide(w.egress);
      case Enable(_) =>
      case Install(k) =>
        InstallChangesNothing(w, k);
      case Delete(k) =>
        DeleteKeepsMemory(w, k);
    }
  }

  lemma InstallChangesNothing(w: World, k: RuleKind)
    requires SidesOk(w.ctl.present, w) && k !in w.ctl.present
    ensures Controlled(w, Install(k)) == w
  {}

  lemma PollKeepsMemory(w: World)
    requires Shape(w) && Memory(w)
    ensures Memory(Polled(w))
  {
    if w.ctl.phase.Armed? {
      AbsentSide(w.ingress);
      AbsentSide(w.egress);
    }
  }

  lemma TrafficKeepsMemory(w: World, k: RuleKind, a: Count)
    requires Shape(w) && Memory(w)
    ensures Memory(Counted(w, k, a)) && (w.Exact() ==> Counted(w, k, a).Exact())
  {}

  lemma StepKeeps(w: World, e: Event)
    requires Shape(w) && Memory(w) && Legal(w, e)
    ensures Shape(Step(w, e)) && Memory(Step(w, e))
  {
    hide Shape, Memory;
    match e {
      case Poll =>
        PollKeepsShape(w);
        PollKeepsMemory(w);
      case Control(c) =>
        ControlKeepsShape(w, c);
        ControlKeepsMemory(w, c);
      case Traffic(k, a) =>
        TrafficKeepsShape(w, k, a);
        TrafficKeepsMemory(w, k, a);
    }
  }

  lemma {:induction false} LegalRunKeeps(es: seq<Event>)
    requires LegalRun(es)
    ensures Shape(Run(es)) && Memory(Run(es))
    decreases |es|
  {
    hide Shape, Memory, Step, Legal;
    if es == [] {
      StartKeeps();
    } else {
      LegalRunKeeps(es[..|es| - 1]);
      StepKeeps(Run(es[..|es| - 1]), es[|es| - 1]);
    }
  }

  lemma EmptySide(s: Side)
    requires s.first == NO_RULE == s.second
    ensures SideOk(false, false, s)
  {}

  lemma StartKeeps()
    ensures Shape(START) && Memory(START)
  {
    hide SideOk, Matches;
    EmptySide(NO_SIDE);
    assert forall k: RuleKind :: k !in CTL_START.present;
  }

  // ---------------------------------------------------------------- the totals are exact

  lemma {:induction false} ModShift(a: int, k: int)
    ensures (a + TWO64 * k) % TWO64 == a % TWO64
    decreases if k < 0 then -k else k
  {
    if k > 0 { ModShift(a, k - 1); }
    if k < 0 { ModShift(a, k + 1); }
  }

  lemma WrapAdd(x: int, y: int)
    ensures Wrap(Wrap(x) + y) == Wrap(x + y)
  {
    assert x == TWO64 * (x / TWO64) + Wrap(x);
    ModShift(Wrap(x) + y, x / TWO64);
  }

  lemma WrapApart(x: int, y: int)
    requires -TWO64 < x - y < TWO64
    ensures Wrap(x) == Wrap(y) <==> x == y
  {}

  /** By how much the totals move when a poll reads `reading` over the base its branch subtracts,
      less what the ledger says they should move. */
  function Excess(reading: Count, prev: Count, anew: bool, due: Count, due': Count): Count {
    var base := if anew then ZERO else prev;
    Count(reading.pkts - base.pkts - (due'.pkts - due.pkts), reading.bytes - base.bytes - (due'.bytes - due.bytes))
  }

  lemma MeterExactIff(m: Meter, reading: Count, anew: bool, due: Count, due': Count)
    requires m.total == Wrapped(due)
    ensures var x := Excess(reading, m.prev, anew, due, due');
            -TWO64 < x.pkts < TWO64 && -TWO64 < x.bytes < TWO64 ==>
              (Metered(m, reading, anew).total == Wrapped(due') <==> x == ZERO)
  {
    var base := if anew then ZERO else m.prev;
    var x := Excess(reading, m.prev, anew, due, due');
    WrapAdd(due.pkts, reading.pkts - base.pkts);
    WrapAdd(due.bytes, reading.bytes - base.bytes);
    if -TWO64 < x.pkts < TWO64 && -TWO64 < x.bytes < TWO64 {
      WrapApart(due.pkts + (reading.pkts - base.pkts), due'.pkts);
      WrapApart(due.bytes + (reading.bytes - base.bytes), due'.bytes);
    }
  }

  predicate Anew(w: World) { Restarted(w.dev, Seen(w.dev, w.ingress.Now()), Seen(w.dev, w.egress.Now())) }

  /** Two readings of one direction over what the device remembers. */
  function ExcessIn(w: World): Count {
    Excess(Seen(w.dev, w.ingress.Now()), w.dev.ingress.prev, Anew(w), w.ingress.Due(), Polled(w).ingress.Due())
  }

  function ExcessOut(w: World): Count {
    Excess(Seen(w.dev, w.egress.Now()), w.dev.egress.prev, Anew(w), w.egress.Due(), Polled(w).egress.Due())
  }

  lemma NoExcess(w: World)
    requires Shape(w) && Memory(w) && !w.ctl.phase.Sweeping?
    ensures ExcessIn(w) == ZERO == ExcessOut(w)
  {
    if w.ctl.present == {} {
      AbsentSide(w.ingress);
      AbsentSide(w.egress);
    }
  }

  lemma ControlKeepsExact(w: World, c: Ctl)
    requires SidesOk(w.ctl.present, w) && CtlStep(w.ctl, c).Some? && w.Exact()
    ensures Step(w, Control(c)).Exact()
  {
    match c {
      case Install(k) => InstallChangesNothing(w, k);
      case Delete(k) => DeleteKeepsExact(w, k);
      case _ =>
    }
  }

  lemma DeleteKeepsExact(w: World, k: RuleKind)
    requires w.Exact()
    ensures Deleted(w, k).Exact()
  {
    DeleteKeepsSums(Swept(w).SideOf(k), k.Slot());
  }

  /** Exact means: packets and bytes of both directions, modulo 2 to the 64th. */
  lemma ExactMeans(w: World)
    ensures w.Exact() <==>
            && w.dev.ingress.total.pkts == w.ingress.Due().pkts % 18446744073709551616
            && w.dev.ingress.total.bytes == w.ingress.Due().bytes % 18446744073709551616
            && w.dev.egress.total.pkts == w.egress.Due().pkts % 18446744073709551616
            && w.dev.egress.total.bytes == w.egress.Due().bytes % 18446744073709551616
  {}

  /** Over every interleaving of traffic, rule removal, reset notes, rule insertion and harmless
      polls, the totals are the sum over rule epochs of the last reading of that epoch. */
  lemma {:induction false} TotalsExactOnEveryRun(es: seq<Event>)
    requires LegalRun(es)
    ensures Run(es).Exact()
    decreases |es|
  {
    if es != [] {
      var w, e := Run(es[..|es| - 1]), es[|es| - 1];
      TotalsExactOnEveryRun(es[..|es| - 1]);
      LegalRunKeeps(es[..|es| - 1]);
      match e {
        case Poll => PollExactIff(w);
        case Control(c) => ControlKeepsExact(w, c);
        case Traffic(k, a) => TrafficKeepsMemory(w, k, a);
      }
    }
  }

  /** A poll of exact totals keeps them exact if and only if it is harmless. */
  lemma PollExactIff(w: World)
    requires Shape(w) && Memory(w) && w.Exact()
    ensures Polled(w).Exact() <==> Harmless(w)
  {
    if w.ctl.phase.Sweeping? {
      SweepPoll(w);
    } else {
      NoExcess(w);
      MeterExactIff(w.dev.ingress, Seen(w.dev, w.ingress.Now()), Anew(w), w.ingress.Due(), Polled(w).ingress.Due());
      MeterExactIff(w.dev.egress, Seen(w.dev, w.egress.Now()), Anew(w), w.egress.Due(), Polled(w).egress.Due());
    }
  }

  lemma {:induction false} PrefixLegal(es: seq<Event>, i: nat)
    requires LegalRun(es) && i <= |es|
    ensures LegalRun(es[..i])
    decreases |es|
  {
    if i == |es| {
      assert es[..i] == es;
    } else {
      PrefixLegal(es[..|es| - 1], i);
      assert es[..|es| - 1][..i] == es[..i];
    }
  }

  /** With polls anywhere, also inside sweeps: the totals are exact all along if and only if every
      poll is harmless; the first harmful poll makes them wrong. */
  lemma ExactThroughoutIff(es: seq<Event>)
    requires OpenRun(es)
    ensures (forall i :: 0 <= i <= |es| ==> Run(es[..i]).Exact()) <==> LegalRun(es)
  {
    if LegalRun(es) {
      forall i | 0 <= i <= |es| ensures Run(es[..i]).Exact() {
        PrefixLegal(es, i);
        TotalsExactOnEveryRun(es[..i]);
      }
    } else {
      var i := FirstHarm(es);
      assert !Run(es[..i]).Exact();
    }
  }

  lemma {:induction false} LegalIsOpen(es: seq<Event>)
    requires LegalRun(es)
    ensures OpenRun(es)
    decreases |es|
  {
    if es != [] { LegalIsOpen(es[..|es| - 1]); }
  }

  lemma {:induction false} FirstHarm(es: seq<Event>) returns (i: nat)
    requires OpenRun(es) && !LegalRun(es)
    ensures 0 < i <= |es| && es[i - 1].Poll? && LegalRun(es[..i - 1]) && !Harmless(Run(es[..i - 1]))
    ensures !Run(es[..i]).Exact()
    decreases |es|
  {
    hide Run, Harmless, Shape, Memory, Allowed, Ordered, PolledAs, World.Exact;
    var front := es[..|es| - 1];
    if LegalRun(front) {
      i := |es|;
      assert es[..i] == es == front + [es[|front|]];
      RunStep(front, es[|front|]);
      LegalRunKeeps(front);
      TotalsExactOnEveryRun(front);
      PollExactIff(Run(front));
    } else {
      i := FirstHarm(front);
      assert front[..i] == es[..i] && front[..i - 1] == es[..i - 1];
    }
  }

  lemma NoUnderflow(w: World)
    requires Shape(w) && Memory(w) && Harmless(w) && !Anew(w)
    ensures w.dev.ingress.prev.AtMost(Seen(w.dev, w.ingress.Now()))
    ensures w.dev.egress.prev.AtMost(Seen(w.dev, w.egress.Now()))
  {
    if w.ctl.present == {} {
      AbsentSide(w.ingress);
      AbsentSide(w.egress);
    }
  }

  /** A harmless poll that does not start anew never subtracts more than it read, so no unsigned
      difference wraps. */
  lemma DeltasDoNotUnderflow(es: seq<Event>)
    requires LegalRun(es) && Harmless(Run(es)) && !Anew(Run(es))
    ensures var w := Run(es);
            && w.dev.ingress.prev.AtMost(Seen(w.dev, w.ingress.Now()))
            && w.dev.egress.prev.AtMost(Seen(w.dev, w.egress.Now()))
  {
    LegalRunKeeps(es);
    NoUnderflow(Run(es));
  }

  // ---------------------------------------------------------------- a poll inside a sweep

  lemma SweepPoll(w: World)
    requires Shape(w) && Memory(w) && w.ctl.phase.Sweeping? && w.Exact()
    ensures var in0, out0 := if Anew(w) then w.ingress.Last() else w.ingress.gone,
                             if Anew(w) then w.egress.Last() else w.egress.gone;
            Polled(w).Exact() <==> in0 == ZERO && out0 == ZERO
  {
    MeterExactIff(w.dev.ingress, w.ingress.Now(), Anew(w), w.ingress.Due(), Polled(w).ingress.Due());
    MeterExactIff(w.dev.egress, w.egress.Now(), Anew(w), w.egress.Due(), Polled(w).egress.Due());
  }

  lemma RunStep(es: seq<Event>, e: Event)
    ensures Run(es + [e]) == Step(Run(es), e)
    ensures LegalRun(es + [e]) <==> LegalRun(es) && Legal(Run(es), e)
    ensures OpenRun(es + [e]) <==> OpenRun(es) && Allowed(Run(es), e) && Ordered(Run(es), e)
  {
    assert (es + [e])[..|es|] == es;
  }

  lemma Then(es: seq<Event>, w: World, e: Event, w': World)
    requires LegalRun(es) && Run(es) == w && Legal(w, e) && Step(w, e) == w'
    ensures LegalRun(es + [e]) && Run(es + [e]) == w'
  {
    RunStep(es, e);
  }

  /** Reset, enable, install: the run that brings up an interface. */
  lemma BringUp() returns (es: seq<Event>)
    ensures LegalRun(es) && forall e :: e in es ==> e.Control?
    ensures Run(es) == START.(dev := FRESH_DEV.(resets := 1, enabled := true), ctl := CtlState(Idle, ALL_KINDS, true))
  {
    es := [];
    var w := START.(dev := FRESH_DEV.(resets := 1), ctl := CtlState(Armed, {}, false));
    Then(es, START, Control(Reset), w);
    es := es + [Control(Reset)];
    var w' := START.(dev := FRESH_DEV.(resets := 1, enabled := true), ctl := CtlState(Adding, {}, true));
    Then(es, w, Control(Enable(true)), w');
    es := es + [Control(Enable(true))];
    es := ThenInstall(es, w', InputIn);
    es := ThenInstall(es, w'.(ctl := CtlState(Adding, {InputIn}, true)), OutputOut);
    es := ThenInstall(es, w'.(ctl := CtlState(Adding, {InputIn, OutputOut}, true)), ForwardIn);
    es := ThenInstall(es, w'.(ctl := CtlState(Adding, {InputIn, OutputOut, ForwardIn}, true)), ForwardOut);
  }

  lemma ThenInstall(es: seq<Event>, w: World, k: RuleKind) returns (es': seq<Event>)
    requires LegalRun(es) && Run(es) == w && w.ctl.phase.Adding? && k !in w.ctl.present
    requires w.SideOf(k).At(k.Slot()) == NO_RULE
    ensures var present := w.ctl.present + {k};
            && LegalRun(es') && es' == es + [Control(Install(k))]
            && Run(es') == w.(ctl := w.ctl.(present := present, phase := if present == ALL_KINDS then Idle else Adding))
  {
    es' := es + [Control(Install(k))];
    RunStep(es, Control(Install(k)));
    assert w.SideOf(k).With(k.Slot(), NO_RULE) == w.SideOf(k);
  }

  lemma ThenTraffic(es: seq<Event>, w: World, k: RuleKind, a: Count) returns (es': seq<Event>)
    requires LegalRun(es) && Run(es) == w && k in w.ctl.present && Legal(w, Traffic(k, a))
    ensures LegalRun(es') && Run(es') == w.With(k, w.SideOf(k).Counted(k.Slot(), a))
  {
    es' := es + [Traffic(k, a)];
    RunStep(es, Traffic(k, a));
  }

  /** All four rules are installed; one packet of 100 bytes is sampled on INPUT and one on FORWARD;
      a poll reads both; a sweep removes INPUT's rule; a second poll finds FORWARD's packet alone,
      takes the drop for a restart, and counts that packet twice. */
  lemma SweepDoubleCounts() returns (es: seq<Event>)
    ensures LegalRun(es) && Run(es).ctl.phase.Sweeping?
    ensures Polled(Run(es)).ingress.Due().pkts == 2
    ensures Polled(Run(es)).dev.ingress.total.pkts == 3
  {
    es := BringUp();
    var one := Count(1, 100);
    es := OnePacketEach(es, Run(es), one);
    es := PollThenSweep(es, Run(es), one);
    hide *;
    SecondPoll(Run(es), one);
  }

  lemma PollThenSweep(es: seq<Event>, w: World, one: Count) returns (es': seq<Event>)
    requires LegalRun(es) && Run(es) == w && w.ctl == CtlState(Idle, ALL_KINDS, true) && w.dev.resets == 1
    requires w.ingress == Side(Rule(one, ZERO), Rule(one, ZERO), ZERO, ZERO) && w.egress == NO_SIDE
    requires w.dev.enabled && w.dev.ingress.total == ZERO && one.pkts == 1
    ensures LegalRun(es') && SweptOnce(Run(es'), one)
  {
    RunStep(es, Poll);
    RunStep(es + [Poll], Control(Delete(InputIn)));
    es' := es + [Poll] + [Control(Delete(InputIn))];
  }

  ghost predicate SweptOnce(w: World, one: Count) {
    && w.ctl.phase.Sweeping? && w.ctl.enabled == w.dev.enabled == true && w.dev.resets == 0
    && w.ingress.first == NO_RULE && w.ingress.second == Rule(one, one) && w.ingress.closed == one
    && w.dev.ingress.prev.pkts == 2 && w.dev.ingress.total.pkts == 2
  }

  lemma SecondPoll(w: World, one: Count)
    requires SweptOnce(w, one) && one.pkts == 1
    ensures w.ctl.phase.Sweeping?
    ensures Polled(w).ingress.Due().pkts == 2
    ensures Polled(w).dev.ingress.total.pkts == 3
  {}

  lemma OnePacketEach(es: seq<Event>, w: World, one: Count) returns (es': seq<Event>)
    requires LegalRun(es) && Run(es) == w && w.ctl == CtlState(Idle, ALL_KINDS, true)
    requires w.ingress == NO_SIDE && one.Sane() && one.pkts < 10 && one.bytes < 1000
    ensures LegalRun(es')
    ensures Run(es') == w.(ingress := Side(Rule(one, ZERO), Rule(one, ZERO), ZERO, ZERO))
  {
    es' := ThenTraffic(es, w, InputIn, one);
    es' := ThenTraffic(es', w.(ingress := NO_SIDE.(first := Rule(one, ZERO))), ForwardIn, one);
  }
}
