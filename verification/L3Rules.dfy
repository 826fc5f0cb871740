/** L3 counter rules and their positional reader (src/netdev-sim.c).

    Each device's thread appends sixteen counting rules to the kernel's tables, one iptables command
    at a time, or deletes them again; the threads of different devices interleave freely.  A reader
    lists a device's rules and adds up the counters by line position alone.  `Kernel` runs the
    threads; what the reader makes of the tables is proved for every state the threads can reach,
    including the states in the middle of an installation or a removal. */
module L3Rules {
  import opened Wrappers

  datatype Family = V4 | V6
  datatype Chain = Input | Forward | Output
  datatype Dir = In | Out  // -i, -o
  datatype Pkt = Unicast | Multicast

  /** A counting rule of one interface, up to its counters. */
  datatype Spec = Spec(family: Family, chain: Chain, dir: Dir, pkt: Pkt)

  /** A line of the tables: a counting rule of an interface, or a rule of someone else's. */
  datatype Entry =
    | Counter(ifName: string, spec: Spec, pkts: int, bytes: int)
    | Foreign(family: Family, chain: Chain)

  // ---------------------------------------------------------------- the threads' commands

  /** The rules in the order `netdev_sim_xtables_rule_create_` adds them and its counterpart deletes
      them; a FORWARD call issues a pair of commands. */
  function Script(): (ss: seq<Spec>)
    ensures |ss| == 16
  {
   [
    Spec(V4, Input, In, Unicast), Spec(V4, Input, In, Multicast),
    Spec(V6, Input, In, Unicast), Spec(V6, Input, In, Multicast),
    Spec(V4, Output, Out, Unicast), Spec(V4, Output, Out, Multicast),
    Spec(V6, Output, Out, Unicast), Spec(V6, Output, Out, Multicast),
    Spec(V4, Forward, In, Unicast), Spec(V4, Forward, Out, Unicast),
    Spec(V4, Forward, In, Multicast), Spec(V4, Forward, Out, Multicast),
    Spec(V6, Forward, In, Unicast), Spec(V6, Forward, Out, Unicast),
    Spec(V6, Forward, In, Multicast), Spec(V6, Forward, Out, Multicast)]
  }

  /** Command `k` is the second of a FORWARD pair, issued without a check of its own. */
  predicate SecondOfPair(k: nat) { k > 8 && k % 2 == 1 }

  /** How many commands the call starting at `k` issues. */
  function CallLength(k: nat): nat { if k < 8 then 1 else 2 }

  /** Where a device's thread stands: before command `next`, and past its `-C` checks if `checked`. */
  datatype Thread =
    | Resting
    | Creating(next: nat, checked: bool)
    | Deleting(next: nat, checked: bool)
    | Stuck  // returned early with the mutex still held

  datatype Device = Device(thread: Thread, enabled: bool)

  // ---------------------------------------------------------------- the tables

  predicate Owns(d: string, e: Entry) { e.Counter? && e.ifName == d }

  /** Everything but the device's own rules. */
  function Others(rules: seq<Entry>, d: string): seq<Entry> {
    if rules == [] then []
    else (if Owns(d, rules[0]) then [] else [rules[0]]) + Others(rules[1..], d)
  }

  /** The device's own rules, in table order. */
  function Specs(rules: seq<Entry>, d: string): seq<Spec> {
    if rules == [] then []
    else (if Owns(d, rules[0]) then [rules[0].spec] else []) + Specs(rules[1..], d)
  }

  predicate Matches(e: Entry, d: string, s: Spec) { Owns(d, e) && e.spec == s }

  /** `-C` */
  predicate Installed(rules: seq<Entry>, d: string, s: Spec) {
    exists i :: 0 <= i < |rules| && Matches(rules[i], d, s)
  }

  /** `-A`: the end of the table.  Order matters within a chain only: a listing groups by chain. */
  function Append(rules: seq<Entry>, d: string, s: Spec): seq<Entry> {
    rules + [Counter(d, s, 0, 0)]
  }

  /** `-D`: the first match goes. */
  function DeleteFirst(rules: seq<Entry>, d: string, s: Spec): seq<Entry> {
    if rules == [] then []
    else if Matches(rules[0], d, s) then rules[1..]
    else [rules[0]] + DeleteFirst(rules[1..], d, s)
  }

  lemma {:induction false} InstalledIff(rules: seq<Entry>, d: string, s: Spec)
    ensures Installed(rules, d, s) <==> s in Specs(rules, d)
  {
    if rules != [] {
      InstalledIff(rules[1..], d, s);
      if Installed(rules[1..], d, s) {
        var i :| 0 <= i < |rules[1..]| && Matches(rules[1..][i], d, s);
        assert Matches(rules[i + 1], d, s);
      }
      if Installed(rules, d, s) && !Matches(rules[0], d, s) {
        var i :| 0 <= i < |rules| && Matches(rules[i], d, s);
        assert Matches(rules[1..][i - 1], d, s);
      }
    }
  }

  lemma {:induction false} AppendViews(rules: seq<Entry>, d: string, s: Spec, q: string)
    ensures Specs(Append(rules, d, s), q) == Specs(rules, q) + if q == d then [s] else []
    ensures Others(Append(rules, d, s), d) == Others(rules, d)
  {
    if rules == [] {
      assert Append(rules, d, s)[1..] == [];
    } else {
      assert Append(rules, d, s)[1..] == Append(rules[1..], d, s);
      AppendViews(rules[1..], d, s, q);
    }
  }

  function WithoutFirst(ss: seq<Spec>, s: Spec): seq<Spec> {
    if ss == [] then [] else if ss[0] == s then ss[1..] else [ss[0]] + WithoutFirst(ss[1..], s)
  }

  lemma {:induction false} DeleteViews(rules: seq<Entry>, d: string, s: Spec, q: string)
    ensures Specs(DeleteFirst(rules, d, s), q)
            == if q == d then WithoutFirst(Specs(rules, d), s) else Specs(rules, q)
    ensures Others(DeleteFirst(rules, d, s), d) == Others(rules, d)
  {
    if rules == [] {
    } else if Matches(rules[0], d, s) {
      assert Specs(rules, d)[1..] == Specs(rules[1..], d);
    } else {
      DeleteViews(rules[1..], d, s, q);
      var kept := DeleteFirst(rules, d, s);
      assert kept[0] == rules[0] && kept[1..] == DeleteFirst(rules[1..], d, s);
      if Owns(d, rules[0]) {
        var ss := Specs(rules, d);
        assert ss[0] == rules[0].spec && ss[1..] == Specs(rules[1..], d);
      } else {
        assert Specs(rules, d) == Specs(rules[1..], d);
      }
    }
  }

  /** A device without rules: its removal would change nothing. */
  lemma {:induction false} NoneOwned(rules: seq<Entry>, d: string)
    requires Specs(rules, d) == []
    ensures Others(rules, d) == rules
  {
    if rules != [] { NoneOwned(rules[1..], d); }
  }

  // ---------------------------------------------------------------- what each device's rules are

  function Expected(dev: Device): seq<Spec> {
    match dev.thread
    case Creating(k, _) => if k <= 16 then Script()[..k] else Script()
    case Deleting(k, _) => if k <= 16 then Script()[k..] else []
    case _ => if dev.enabled then Script() else []
  }

  /** A call's check comes before its first command, and covers the second of a pair. */
  ghost predicate ThreadOk(dev: Device) {
    match dev.thread
    case Creating(k, checked) => !dev.enabled && k <= 16 && (SecondOfPair(k) ==> checked) && (k == 16 ==> !checked)
    case Deleting(k, checked) => dev.enabled && k <= 16 && (SecondOfPair(k) ==> checked) && (k == 16 ==> !checked)
    case _ => true
  }

  ghost predicate DeviceOk(rules: seq<Entry>, d: string, dev: Device) {
    ThreadOk(dev) && Specs(rules, d) == Expected(dev)
  }

  function DeviceOf(devices: map<string, Device>, d: string): Device {
    if d in devices then devices[d] else Device(Resting, false)
  }

  ghost predicate AllOk(rules: seq<Entry>, devices: map<string, Device>) {
    forall d :: DeviceOk(rules, d, DeviceOf(devices, d))
  }

  predicate NoTwins(ss: seq<Spec>) { forall i, j :: 0 <= i < j < |ss| ==> ss[i] != ss[j] }

  /** No device ever has a rule twice. */
  lemma NeverTwice(rules: seq<Entry>, d: string, dev: Device)
    requires DeviceOk(rules, d, dev)
    ensures NoTwins(Specs(rules, d))
  {
    ScriptDistinct();
    hide Script, Specs;
  }

  lemma OneMoves(rules: seq<Entry>, rules': seq<Entry>, devices: map<string, Device>, d: string, dev: Device)
    requires AllOk(rules, devices) && DeviceOk(rules', d, dev)
    requires forall q :: q != d ==> Specs(rules', q) == Specs(rules, q)
    ensures AllOk(rules', devices[d := dev])
  {
    var devices' := devices[d := dev];
    forall q ensures DeviceOk(rules', q, DeviceOf(devices', q)) {
      assert DeviceOk(rules, q, DeviceOf(devices, q));
    }
  }

  lemma ScriptDistinct()
    ensures |Script()| == 16
    ensures forall i, j :: 0 <= i < j < 16 ==> Script()[i] != Script()[j]
  {}

  class Kernel {
    var rules: seq<Entry>
    var devices: map<string, Device>

    ghost predicate Valid()
      reads this
    {
      AllOk(rules, devices)
    }

    function Of(d: string): Device
      reads this
    {
      DeviceOf(devices, d)
    }

    constructor ()
      ensures Valid() && rules == [] && devices == map[]
    {
      rules, devices := [], map[];
    }

    /** A thread starts on a device and takes its mutex; if there is nothing to do it returns with
        the mutex held, so no thread ever runs on the device again.  A thread that finds the mutex
        taken waits, which changes nothing. */
    method Start(d: string, create: bool)
      requires Valid()
      modifies this`devices
      ensures Valid()
      ensures old(Of(d)).thread.Resting? ==>
                Of(d) == old(Of(d)).(thread := if create == old(Of(d)).enabled then Stuck
                                               else if create then Creating(0, false) else Deleting(0, false))
      ensures !old(Of(d)).thread.Resting? ==> devices == old(devices)
    {
      var dev := Of(d);
      assert Script()[..0] == [] && Script()[0..] == Script();
      if !dev.thread.Resting? { return; }
      if create == dev.enabled {
        dev := dev.(thread := Stuck);
      } else if create {
        dev := dev.(thread := Creating(0, false));
      } else {
        dev := dev.(thread := Deleting(0, false));
      }
      OneMoves(rules, rules, devices, d, dev);
      devices := devices[d := dev];
    }

    /** The next action of the device's thread: a check, one iptables command, or the flag. */
    method Step(d: string)
      requires Valid()
      modifies this
      ensures Valid()
      ensures (rules, Of(d)) == Acted(old(rules), d, old(Of(d)))
      ensures Others(rules, d) == Others(old(rules), d)
      ensures forall q :: q != d ==> Of(q) == old(Of(q))
    {
      var dev := Of(d);
      ghost var was := dev;
      var rules' := rules;
      match dev.thread {
        case Creating(k, checked) =>
          if k >= 16 {
            dev := Device(Resting, true);
          } else if !checked {
            dev := dev.(thread := if CallInstalled(rules, d, k) then Creating(k + CallLength(k), false)
                                  else Creating(k, true));
          } else {
            rules' := Append(rules, d, Script()[k]);
            dev := dev.(thread := Creating(k + 1, SecondOfPair(k + 1)));
          }
        case Deleting(k, checked) =>
          if k >= 16 {
            dev := Device(Resting, false);
          } else if !checked {
            dev := dev.(thread := if CallInstalled(rules, d, k) then Deleting(k, true)
                                  else Deleting(k + CallLength(k), false));
          } else {
            rules' := DeleteFirst(rules, d, Script()[k]);
            dev := dev.(thread := Deleting(k + 1, SecondOfPair(k + 1)));
          }
        case _ => return;
      }
      hide Acted, DeviceOk;
      assert DeviceOk(rules, d, was);
      ActedOk(rules, d, was);
      OneMoves(rules, rules', devices, d, dev);
      rules, devices := rules', devices[d := dev];
    }

    /** A packet is counted by some rule. */
    method Traffic(i: nat, pkts: int, bytes: int)
      requires Valid() && i < |rules| && rules[i].Counter?
      modifies this`rules
      ensures Valid() && devices == old(devices)
      ensures rules
              == old(rules)[i := old(rules)[i].(pkts := old(rules)[i].pkts + pkts,
                                                bytes := old(rules)[i].bytes + bytes)]
    {
      var e := rules[i].(pkts := rules[i].pkts + pkts, bytes := rules[i].bytes + bytes);
      var before, after := rules[..i], rules[i + 1..];
      assert rules == before + [rules[i]] + after;
      assert rules[i := e] == before + [e] + after;
      SameSpecs(before, [rules[i]], [e], after);
      assert AllOk(before + [e] + after, devices) by { AllOkKept(rules, before + [e] + after, devices); }
      rules := rules[i := e];
    }

    /** Someone else's rule comes or goes, anywhere in the table. */
    method EditForeign(i: nat, e: Option<Entry>)
      requires Valid() && i <= |rules|
      requires if e.Some? then e.value.Foreign? else i < |rules| && rules[i].Foreign?
      modifies this`rules
      ensures Valid() && devices == old(devices)
      ensures rules == old(rules)[..i] + if e.Some? then [e.value] + old(rules)[i..] else old(rules)[i + 1..]
    {
      ghost var was := rules;
      if e.Some? {
        assert rules == rules[..i] + [] + rules[i..];
        SameSpecs(rules[..i], [], [e.value], rules[i..]);
        rules := rules[..i] + [e.value] + rules[i..];
      } else {
        assert rules == rules[..i] + [rules[i]] + rules[i + 1..];
        SameSpecs(rules[..i], [rules[i]], [], rules[i + 1..]);
        rules := rules[..i] + [] + rules[i + 1..];
      }
      AllOkKept(was, rules, devices);
    }

    /** Lets the device's thread run to its end with nobody in between. */
    method Finish(d: string)
      requires Valid()
      modifies this
      ensures Valid() && Others(rules, d) == Others(old(rules), d)
      ensures old(Of(d)).thread.Creating? ==> Of(d) == Device(Resting, true)
      ensures old(Of(d)).thread.Deleting? ==> Of(d) == Device(Resting, false)
    {
      while Of(d).thread.Creating? || Of(d).thread.Deleting?
        invariant Valid() && Others(rules, d) == Others(old(rules), d)
        invariant old(Of(d)).thread.Creating? ==> Of(d).thread.Creating? || Of(d) == Device(Resting, true)
        invariant old(Of(d)).thread.Deleting? ==> Of(d).thread.Deleting? || Of(d) == Device(Resting, false)
        decreases Left(Of(d))
      {
        assert DeviceOk(rules, d, Of(d));
        ActedOk(rules, d, Of(d));
        Step(d);
      }
    }

    /** Creating and deleting the rules of a device that had none leaves the tables as they were. */
    method CreateThenDelete(d: string)
      requires Valid() && Of(d) == Device(Resting, false)
      modifies this
      ensures Valid() && rules == old(rules) && Of(d) == Device(Resting, false)
    {
      assert DeviceOk(rules, d, Of(d));
      NoneOwned(rules, d);
      Start(d, true);
      Finish(d);
      assert DeviceOk(rules, d, Of(d));
      Start(d, false);
      Finish(d);
      assert DeviceOk(rules, d, Of(d));
      NoneOwned(rules, d);
    }

    /** Any interleaving of threads, traffic and other people's rules leaves every device without
        duplicates and, unless its rules are missing or being removed, with readers that are right. */
    method Run(schedule: seq<Action>)
      requires Valid()
      modifies this
      ensures Valid()
      ensures forall d :: NoTwins(Specs(rules, d))
      ensures forall d :: Of(d).enabled && !Of(d).thread.Deleting? ==> ReadersRight(rules, d)
    {
      for n := 0 to |schedule|
        invariant Valid()
      {
        match schedule[n] {
          case Launch(d, create) => Start(d, create);
          case Advance(d) => Step(d);
          case Count(i, pkts, bytes) => if i < |rules| && rules[i].Counter? { Traffic(i, pkts, bytes); }
          case Edit(i, e) =>
            if i <= |rules| && (if e.Some? then e.value.Foreign? else i < |rules| && rules[i].Foreign?) {
              EditForeign(i, e);
            }
        }
      }
      hide ReadersRight, NoTwins, DeviceOk, DeviceOf, Specs;
      forall d
        ensures NoTwins(Specs(rules, d))
        ensures Of(d).enabled && !Of(d).thread.Deleting? ==> ReadersRight(rules, d)
      {
        assert DeviceOk(rules, d, Of(d));
        NeverTwice(rules, d, Of(d));
        if Of(d).enabled && !Of(d).thread.Deleting? { SettledReadersRight(rules, d, Of(d)); }
      }
    }

    /** `netdev_sim_get_kernel_l3_stats`, which runs only when the device's flag is up. */
    method GetKernelL3Stats(d: string) returns (st: L3Stats)
      requires Valid() && Of(d).enabled
      ensures !Of(d).thread.Deleting? ==>
                && st.v4Rx == TrueStats(rules, d, V4, In) && st.v4Tx == TrueStats(rules, d, V4, Out)
                && st.v6Rx == TrueStats(rules, d, V6, In) && st.v6Tx == TrueStats(rules, d, V6, Out)
                && st.l3Rx == Added(TrueStats(rules, d, V4, In), TrueStats(rules, d, V6, In))
                && st.l3Tx == Added(TrueStats(rules, d, V4, Out), TrueStats(rules, d, V6, Out))
      // of the tables alone: each figure is one sum over the device's rules
      ensures !Of(d).thread.Deleting? ==>
                && Counts(st.v4Rx, rules, d, {V4}, In) && Counts(st.v4Tx, rules, d, {V4}, Out)
                && Counts(st.v6Rx, rules, d, {V6}, In) && Counts(st.v6Tx, rules, d, {V6}, Out)
                && Counts(st.l3Rx, rules, d, {V4, V6}, In) && Counts(st.l3Tx, rules, d, {V4, V6}, Out)
    {
      var v4Rx := ParseXtablesL3Stats(Lines(rules, d, V4, In));
      var v4Tx := ParseXtablesL3Stats(Lines(rules, d, V4, Out));
      var v6Rx := ParseXtablesL3Stats(Lines(rules, d, V6, In));
      var v6Tx := ParseXtablesL3Stats(Lines(rules, d, V6, Out));
      st := L3Stats(v4Rx, v4Tx, v6Rx, v6Tx, Added(v4Rx, v6Rx), Added(v4Tx, v6Tx));
      assert DeviceOk(rules, d, Of(d));
      hide *;
      if !Of(d).thread.Deleting? {
        SettledReadersRight(rules, d, Of(d));
        TrueCounts(rules, d, In);
        TrueCounts(rules, d, Out);
      }
    }
  }

  /** Whether the call at command `k` finds its rules there: both of a FORWARD pair. */
  predicate CallInstalled(rules: seq<Entry>, d: string, k: nat)
    requires k < 16
  {
    Installed(rules, d, Script()[k]) && (8 <= k < 15 ==> Installed(rules, d, Script()[k + 1]))
  }

  /** One action of a thread: a check, one iptables command, or the flag and the mutex. */
  function Acted(rules: seq<Entry>, d: string, dev: Device): (seq<Entry>, Device) {
    match dev.thread
    case Creating(k, checked) =>
      if k >= 16 then (rules, Device(Resting, true))
      else if checked then (Append(rules, d, Script()[k]), dev.(thread := Creating(k + 1, SecondOfPair(k + 1))))
      else if CallInstalled(rules, d, k) then (rules, dev.(thread := Creating(k + CallLength(k), false)))
      else (rules, dev.(thread := Creating(k, true)))
    case Deleting(k, checked) =>
      if k >= 16 then (rules, Device(Resting, false))
      else if checked then (DeleteFirst(rules, d, Script()[k]), dev.(thread := Deleting(k + 1, SecondOfPair(k + 1))))
      else if CallInstalled(rules, d, k) then (rules, dev.(thread := Deleting(k, true)))
      else (rules, dev.(thread := Deleting(k + CallLength(k), false)))
    case _ => (rules, dev)
  }

  /** An action keeps its own device in order and leaves every other device's rules alone. */
  ghost predicate ActsWell(rules: seq<Entry>, d: string, dev: Device) {
    var (rules', dev') := Acted(rules, d, dev);
    && DeviceOk(rules', d, dev') && Others(rules', d) == Others(rules, d)
    && (forall q :: q != d ==> Specs(rules', q) == Specs(rules, q))
    && (dev.thread.Creating? || dev.thread.Deleting? ==> Left(dev') < Left(dev))
  }

  lemma ActedOk(rules: seq<Entry>, d: string, dev: Device)
    requires DeviceOk(rules, d, dev)
    ensures ActsWell(rules, d, dev)
  {
    match dev.thread {
      case Creating(k, checked) => if checked { CreateOk(rules, d, dev, k); } else { CreateCheckOk(rules, d, dev, k); }
      case Deleting(k, checked) => if checked { DeleteOk(rules, d, dev, k); } else { DeleteCheckOk(rules, d, dev, k); }
      case _ =>
    }
  }

  lemma CreateOk(rules: seq<Entry>, d: string, dev: Device, k: nat)
    requires DeviceOk(rules, d, dev) && dev.thread == Creating(k, true)
    ensures ActsWell(rules, d, dev)
  {
    hide Script;
    AppendAll(rules, d, Script()[k]);
    assert Script()[..k] + [Script()[k]] == Script()[..k + 1];
  }

  lemma CreateCheckOk(rules: seq<Entry>, d: string, dev: Device, k: nat)
    requires DeviceOk(rules, d, dev) && dev.thread == Creating(k, false)
    ensures ActsWell(rules, d, dev)
  {
    hide Script;
    if k == 16 { assert Script()[..16] == Script(); } else { Absent(rules, d, k); }
  }

  lemma DeleteOk(rules: seq<Entry>, d: string, dev: Device, k: nat)
    requires DeviceOk(rules, d, dev) && dev.thread == Deleting(k, true)
    ensures ActsWell(rules, d, dev)
  {
    hide Script;
    DeleteAll(rules, d, Script()[k]);
    assert Script()[k..] == [Script()[k]] + Script()[k + 1..];
  }

  lemma DeleteCheckOk(rules: seq<Entry>, d: string, dev: Device, k: nat)
    requires DeviceOk(rules, d, dev) && dev.thread == Deleting(k, false)
    ensures ActsWell(rules, d, dev)
  {
    hide Script;
    if k == 16 { assert Script()[16..] == []; } else { Present(rules, d, k); }
  }

  /** While a device's rules are being created, none of the ones still to come is there. */
  lemma Absent(rules: seq<Entry>, d: string, k: nat)
    requires k < 16 && Specs(rules, d) == Script()[..k]
    ensures !Installed(rules, d, Script()[k])
  {
    ScriptDistinct();
    InstalledIff(rules, d, Script()[k]);
  }

  /** While they are being deleted, all of the ones still to go are there. */
  lemma Present(rules: seq<Entry>, d: string, k: nat)
    requires k < 16 && Specs(rules, d) == Script()[k..]
    ensures forall j :: k <= j < 16 ==> Installed(rules, d, Script()[j])
  {
    ScriptDistinct();
    forall j | k <= j < 16 ensures Installed(rules, d, Script()[j]) {
      InstalledIff(rules, d, Script()[j]);
      assert Script()[k..][j - k] == Script()[j];
    }
  }

  lemma AppendAll(rules: seq<Entry>, d: string, s: Spec)
    ensures forall q :: Specs(Append(rules, d, s), q) == Specs(rules, q) + if q == d then [s] else []
    ensures Others(Append(rules, d, s), d) == Others(rules, d)
  {
    forall q ensures Specs(Append(rules, d, s), q) == Specs(rules, q) + if q == d then [s] else [] {
      AppendViews(rules, d, s, q);
    }
    AppendViews(rules, d, s, d);
  }

  lemma DeleteAll(rules: seq<Entry>, d: string, s: Spec)
    ensures forall q :: Specs(DeleteFirst(rules, d, s), q)
                        == if q == d then WithoutFirst(Specs(rules, d), s) else Specs(rules, q)
    ensures Others(DeleteFirst(rules, d, s), d) == Others(rules, d)
  {
    forall q ensures Specs(DeleteFirst(rules, d, s), q)
                     == if q == d then WithoutFirst(Specs(rules, d), s) else Specs(rules, q) {
      DeleteViews(rules, d, s, q);
    }
    DeleteViews(rules, d, s, d);
  }

  /** The steps a thread has left. */
  function Left(dev: Device): nat {
    match dev.thread
    case Creating(k, checked) => if k <= 16 then 2 * (17 - k) - (if checked then 1 else 0) else 0
    case Deleting(k, checked) => if k <= 16 then 2 * (17 - k) - (if checked then 1 else 0) else 0
    case _ => 0
  }

  datatype Action =
    | Launch(d: string, create: bool)
    | Advance(d: string)
    | Count(i: nat, pkts: int, bytes: int)
    | Edit(i: nat, e: Option<Entry>)

  lemma {:induction false} SpecsConcat(a: seq<Entry>, b: seq<Entry>, d: string)
    ensures Specs(a + b, d) == Specs(a, d) + Specs(b, d)
  {
    if a == [] {
      assert a + b == b;
    } else {
      hide Owns;
      assert (a + b)[0] == a[0] && (a + b)[1..] == a[1..] + b;
      SpecsConcat(a[1..], b, d);
      var own := if Owns(d, a[0]) then [a[0].spec] else [];
      assert own + (Specs(a[1..], d) + Specs(b, d)) == own + Specs(a[1..], d) + Specs(b, d);
    }
  }

  lemma SameSpecs(before: seq<Entry>, x: seq<Entry>, y: seq<Entry>, after: seq<Entry>)
    requires |x| <= 1 && |y| <= 1 && forall d :: Specs(x, d) == Specs(y, d)
    ensures forall d :: Specs(before + x + after, d) == Specs(before + y + after, d)
  {
    forall d ensures Specs(before + x + after, d) == Specs(before + y + after, d) {
      SpecsConcat(before + x, after, d);
      SpecsConcat(before, x, d);
      SpecsConcat(before + y, after, d);
      SpecsConcat(before, y, d);
    }
  }

  lemma AllOkKept(rules: seq<Entry>, rules': seq<Entry>, devices: map<string, Device>)
    requires AllOk(rules, devices) && forall d :: Specs(rules', d) == Specs(rules, d)
    ensures AllOk(rules', devices)
  {
    forall d ensures DeviceOk(rules', d, DeviceOf(devices, d)) {
      assert DeviceOk(rules, d, DeviceOf(devices, d));
    }
  }

  // ---------------------------------------------------------------- a thread on its own

  /** So many actions of a thread in a row. */
  function ActedTimes(rules: seq<Entry>, d: string, dev: Device, n: nat): (seq<Entry>, Device)
    decreases n
  {
    if n == 0 then (rules, dev)
    else
      var (rules', dev') := Acted(rules, d, dev);
      ActedTimes(rules', d, dev', n - 1)
  }

  /** The actions for the calls from command `k` on: one each to look, or one more for each command. */
  function LooksFrom(k: nat): nat
    requires k <= 16
  {
    if k < 8 then 12 - k else (16 - k) / 2
  }

  function WorkFrom(k: nat): nat
    requires k <= 16
  {
    if k < 8 then 28 - 2 * k else 3 * ((16 - k) / 2)
  }

  /** Creating rules that are all there, or deleting rules of which none is, takes twelve looks, one for
      each call, and changes nothing. */
  lemma {:induction false} IdleThread(rules: seq<Entry>, d: string, dev: Device, k: nat)
    requires k <= 16 && (k <= 8 || k % 2 == 0)
    requires || (dev.thread == Creating(k, false) && forall j :: k <= j < 16 ==> Installed(rules, d, Script()[j]))
             || (dev.thread == Deleting(k, false) && forall j :: k <= j < 16 ==> !Installed(rules, d, Script()[j]))
    ensures ActedTimes(rules, d, dev, LooksFrom(k))
            == (rules, dev.(thread := if dev.thread.Creating? then Creating(16, false) else Deleting(16, false)))
    decreases 16 - k
  {
    hide Installed, Script;
    if k < 16 {
      var k' := if k < 8 then k + 1 else k + 2;
      assert LooksFrom(k) == LooksFrom(k') + 1;
      IdleThread(rules, d, dev.(thread := if dev.thread.Creating? then Creating(k', false) else Deleting(k', false)),
                 k');
    }
  }

  /** Creating rules of which none is there takes twelve looks and sixteen commands; the rules follow
      the others in the script's order. */
  lemma {:induction false} CreatingThread(rules: seq<Entry>, d: string, dev: Device, k: nat)
    requires k <= 16 && (k <= 8 || k % 2 == 0) && dev.thread == Creating(k, false)
    requires Specs(rules, d) == Script()[..k]
    ensures ActedTimes(rules, d, dev, WorkFrom(k))
            == (rules + Rules(d, Script()[k..]), dev.(thread := Creating(16, false)))
    decreases 16 - k
  {
    hide Script, Installed, Specs, Acted, ActedTimes, Append;
    if k == 16 {
      assert Script()[16..] == [] && rules + Rules(d, []) == rules;
      NoMore(rules, d, dev);
    } else {
      var one := Append(rules, d, Script()[k]);
      if k < 8 {
        CreatingOne(rules, d, dev, k);
        CreatingThread(one, d, dev.(thread := Creating(k + 1, false)), k + 1);
        ThenMore(rules, d, dev, 2, WorkFrom(k + 1));
        assert Script()[k..] == [Script()[k]] + Script()[k + 1..];
        OneMoreRule(rules, d, Script()[k], Script()[k + 1..]);
      } else {
        CreatingPair(rules, d, dev, k);
        CreatingThread(Append(one, d, Script()[k + 1]), d, dev.(thread := Creating(k + 2, false)), k + 2);
        ThenMore(rules, d, dev, 3, WorkFrom(k + 2));
        assert Script()[k..] == [Script()[k]] + ([Script()[k + 1]] + Script()[k + 2..]);
        OneMoreRule(one, d, Script()[k + 1], Script()[k + 2..]);
        OneMoreRule(rules, d, Script()[k], [Script()[k + 1]] + Script()[k + 2..]);
      }
    }
  }

  /** From the first command on: 28 actions on a device without rules, 12 when there is nothing to do. */
  lemma ThreadCosts(rules: seq<Entry>, d: string, enabled: bool)
    ensures var (start, end) := (Device(Creating(0, false), enabled), Device(Creating(16, false), enabled));
            && (Specs(rules, d) == [] ==> ActedTimes(rules, d, start, 28) == (rules + Rules(d, Script()), end))
            && (Specs(rules, d) == Script() ==> ActedTimes(rules, d, start, 12) == (rules, end))
    ensures var (start, end) := (Device(Deleting(0, false), enabled), Device(Deleting(16, false), enabled));
            Specs(rules, d) == [] ==> ActedTimes(rules, d, start, 12) == (rules, end)
  {
    hide Script, Specs, Acted, ActedTimes, Installed;
    assert Script()[..0] == [] && Script()[0..] == Script();
    forall j | 0 <= j < 16 ensures Installed(rules, d, Script()[j]) <==> Script()[j] in Specs(rules, d) {
      InstalledIff(rules, d, Script()[j]);
    }
    if Specs(rules, d) == [] {
      CreatingThread(rules, d, Device(Creating(0, false), enabled), 0);
      IdleThread(rules, d, Device(Deleting(0, false), enabled), 0);
    }
    if Specs(rules, d) == Script() { IdleThread(rules, d, Device(Creating(0, false), enabled), 0); }
  }

  /** One call's actions: a look, then a command. */
  lemma CreatingOne(rules: seq<Entry>, d: string, dev: Device, k: nat)
    requires k < 8 && dev.thread == Creating(k, false) && Specs(rules, d) == Script()[..k]
    ensures var one := Append(rules, d, Script()[k]);
            && ActedTimes(rules, d, dev, 2) == (one, dev.(thread := Creating(k + 1, false)))
            && Specs(one, d) == Script()[..k + 1]
  {
    hide Script, Installed, Specs, Append;
    Absent(rules, d, k);
    AppendViews(rules, d, Script()[k], d);
    assert Script()[..k] + [Script()[k]] == Script()[..k + 1];
    assert Acted(rules, d, dev) == (rules, dev.(thread := Creating(k, true)));
    ThreeActions(rules, d, dev);
  }

  /** Or a pair of them. */
  lemma CreatingPair(rules: seq<Entry>, d: string, dev: Device, k: nat)
    requires 8 <= k < 16 && k % 2 == 0 && dev.thread == Creating(k, false) && Specs(rules, d) == Script()[..k]
    ensures var two := Append(Append(rules, d, Script()[k]), d, Script()[k + 1]);
            && ActedTimes(rules, d, dev, 3) == (two, dev.(thread := Creating(k + 2, false)))
            && Specs(two, d) == Script()[..k + 2]
  {
    var one := Append(rules, d, Script()[k]);
    PairSpecs(rules, d, k);
    Absent(rules, d, k);
    hide Script, Installed, Specs, Append;
    var checked, second := dev.(thread := Creating(k, true)), dev.(thread := Creating(k + 1, true));
    assert Acted(rules, d, dev) == (rules, checked);
    assert Acted(rules, d, checked) == (one, second);
    assert Acted(one, d, second) == (Append(one, d, Script()[k + 1]), dev.(thread := Creating(k + 2, false)));
    hide Acted;
    ThreeActions(rules, d, dev);
  }

  lemma PairSpecs(rules: seq<Entry>, d: string, k: nat)
    requires k < 15 && Specs(rules, d) == Script()[..k]
    ensures Specs(Append(Append(rules, d, Script()[k]), d, Script()[k + 1]), d) == Script()[..k + 2]
  {
    hide Script, Specs, Append;
    AppendViews(rules, d, Script()[k], d);
    AppendViews(Append(rules, d, Script()[k]), d, Script()[k + 1], d);
    assert Script()[..k] + [Script()[k]] + [Script()[k + 1]] == Script()[..k + 2];
  }

  lemma ThreeActions(rules: seq<Entry>, d: string, dev: Device)
    ensures var (r1, d1) := Acted(rules, d, dev);
            var (r2, d2) := Acted(r1, d, d1);
            ActedTimes(rules, d, dev, 2) == (r2, d2) && ActedTimes(rules, d, dev, 3) == Acted(r2, d, d2)
  {
    hide Acted;
    var (r1, d1) := Acted(rules, d, dev);
    var (r2, d2) := Acted(r1, d, d1);
    var (r3, d3) := Acted(r2, d, d2);
    assert ActedTimes(r3, d, d3, 0) == (r3, d3) && ActedTimes(r2, d, d2, 1) == (r3, d3);
    assert ActedTimes(r2, d, d2, 0) == (r2, d2) && ActedTimes(r1, d, d1, 1) == (r2, d2);
    assert ActedTimes(r1, d, d1, 2) == (r3, d3);
  }

  lemma NoMore(rules: seq<Entry>, d: string, dev: Device)
    ensures ActedTimes(rules, d, dev, 0) == (rules, dev)
  {}

  lemma {:induction false} ThenMore(rules: seq<Entry>, d: string, dev: Device, m: nat, n: nat)
    ensures var (rules', dev') := ActedTimes(rules, d, dev, m);
            ActedTimes(rules, d, dev, m + n) == ActedTimes(rules', d, dev', n)
    decreases m
  {
    hide Acted;
    if m > 0 {
      var (rules', dev') := Acted(rules, d, dev);
      ThenMore(rules', d, dev', m - 1, n);
    }
  }

  lemma OneMoreRule(rules: seq<Entry>, d: string, s: Spec, ss: seq<Spec>)
    ensures Append(rules, d, s) + Rules(d, ss) == rules + Rules(d, [s] + ss)
  {}

  function Rules(d: string, ss: seq<Spec>): seq<Entry> {
    seq(|ss|, i requires 0 <= i < |ss| => Counter(d, ss[i], 0, 0))
  }

  // ---------------------------------------------------------------- the reader

  datatype Unit = Pkts | Bytes

  function Value(e: Entry, u: Unit): int {
    if e.Foreign? then 0 else if u.Pkts? then e.pkts else e.bytes
  }

  predicate Listed(e: Entry, d: string, f: Family, c: Chain, dir: Dir) {
    Owns(d, e) && e.spec.family == f && e.spec.chain == c && e.spec.dir == dir
  }

  function InChain(rules: seq<Entry>, d: string, f: Family, c: Chain, dir: Dir): seq<Entry> {
    if rules == [] then []
    else (if Listed(rules[0], d, f, c, dir) then [rules[0]] else []) + InChain(rules[1..], d, f, c, dir)
  }

  /** The lines the reader's `-S -v | awk` leaves: the chains in their fixed order. */
  function Lines(rules: seq<Entry>, d: string, f: Family, dir: Dir): seq<Entry> {
    InChain(rules, d, f, Input, dir) + InChain(rules, d, f, Forward, dir) + InChain(rules, d, f, Output, dir)
  }

  datatype Stats = Stats(ucPkts: int, ucBytes: int, mcPkts: int, mcBytes: int)
  datatype L3Stats = L3Stats(v4Rx: Stats, v4Tx: Stats, v6Rx: Stats, v6Tx: Stats, l3Rx: Stats, l3Tx: Stats)

  /** Line `i`, or zero when the listing is shorter. */
  function Line(lines: seq<Entry>, i: nat, u: Unit): int {
    if i < |lines| then Value(lines[i], u) else 0
  }

  function ByPosition(lines: seq<Entry>): Stats {
    Stats(Line(lines, 0, Pkts) + Line(lines, 2, Pkts), Line(lines, 0, Bytes) + Line(lines, 2, Bytes),
          Line(lines, 1, Pkts) + Line(lines, 3, Pkts), Line(lines, 1, Bytes) + Line(lines, 3, Bytes))
  }

  method ParseStatsLine(lines: seq<Entry>, pos: nat) returns (pkts: int, bytes: int, pos': nat)
    ensures pkts == Line(lines, pos, Pkts) && bytes == Line(lines, pos, Bytes) && pos' == pos + 1
  {
    pkts, bytes, pos' := 0, 0, pos + 1;
    if pos < |lines| {
      pkts, bytes := Value(lines[pos], Pkts), Value(lines[pos], Bytes);
    }
  }

  method ParseXtablesL3Stats(lines: seq<Entry>) returns (st: Stats)
    ensures st == ByPosition(lines)
  {
    var pkts, bytes, pos := ParseStatsLine(lines, 0);
    st := Stats(pkts, bytes, 0, 0);
    pkts, bytes, pos := ParseStatsLine(lines, pos);
    st := st.(mcPkts := pkts, mcBytes := bytes);
    pkts, bytes, pos := ParseStatsLine(lines, pos);
    st := st.(ucPkts := st.ucPkts + pkts, ucBytes := st.ucBytes + bytes);
    pkts, bytes, pos := ParseStatsLine(lines, pos);
    st := st.(mcPkts := st.mcPkts + pkts, mcBytes := st.mcBytes + bytes);
  }

  /** What the device really received or sent of one packet type: every rule that counts it. */
  function ByType(rules: seq<Entry>, d: string, f: Family, dir: Dir, p: Pkt, u: Unit): int {
    if rules == [] then 0
    else
      (if Owns(d, rules[0]) && rules[0].spec.family == f && rules[0].spec.dir == dir && rules[0].spec.pkt == p
       then Value(rules[0], u) else 0)
      + ByType(rules[1..], d, f, dir, p, u)
  }

  function TrueStats(rules: seq<Entry>, d: string, f: Family, dir: Dir): Stats {
    Stats(ByType(rules, d, f, dir, Unicast, Pkts), ByType(rules, d, f, dir, Unicast, Bytes),
          ByType(rules, d, f, dir, Multicast, Pkts), ByType(rules, d, f, dir, Multicast, Bytes))
  }

  /** What the reader makes of a device's lines is right, for both families and directions. */
  predicate ReadersRight(rules: seq<Entry>, d: string) {
    forall f, dir :: ByPosition(Lines(rules, d, f, dir)) == TrueStats(rules, d, f, dir)
  }

  function Added(a: Stats, b: Stats): Stats {
    Stats(a.ucPkts + b.ucPkts, a.ucBytes + b.ucBytes, a.mcPkts + b.mcPkts, a.mcBytes + b.mcBytes)
  }

  // ---------------------------------------------------------------- the same, of the tables alone

  /** The packets that a device's rules for some families, a direction and a type have counted. */
  ghost function PktsOf(rules: seq<Entry>, d: string, fs: set<Family>, dir: Dir, p: Pkt): int {
    if rules == [] then 0
    else
      var e := rules[0];
      PktsOf(rules[1..], d, fs, dir, p)
      + (if e.Counter? && e.ifName == d && e.spec.family in fs && e.spec.dir == dir && e.spec.pkt == p
         then e.pkts else 0)
  }

  /** And the bytes. */
  ghost function BytesOf(rules: seq<Entry>, d: string, fs: set<Family>, dir: Dir, p: Pkt): int {
    if rules == [] then 0
    else
      var e := rules[0];
      BytesOf(rules[1..], d, fs, dir, p)
      + (if e.Counter? && e.ifName == d && e.spec.family in fs && e.spec.dir == dir && e.spec.pkt == p
         then e.bytes else 0)
  }

  ghost predicate Counts(st: Stats, rules: seq<Entry>, d: string, fs: set<Family>, dir: Dir) {
    && st.ucPkts == PktsOf(rules, d, fs, dir, Unicast) && st.ucBytes == BytesOf(rules, d, fs, dir, Unicast)
    && st.mcPkts == PktsOf(rules, d, fs, dir, Multicast) && st.mcBytes == BytesOf(rules, d, fs, dir, Multicast)
  }

  lemma {:induction false} SumsOf(rules: seq<Entry>, d: string, dir: Dir, p: Pkt)
    ensures PktsOf(rules, d, {V4}, dir, p) == ByType(rules, d, V4, dir, p, Pkts)
    ensures PktsOf(rules, d, {V6}, dir, p) == ByType(rules, d, V6, dir, p, Pkts)
    ensures PktsOf(rules, d, {V4, V6}, dir, p)
            == ByType(rules, d, V4, dir, p, Pkts) + ByType(rules, d, V6, dir, p, Pkts)
    ensures BytesOf(rules, d, {V4}, dir, p) == ByType(rules, d, V4, dir, p, Bytes)
    ensures BytesOf(rules, d, {V6}, dir, p) == ByType(rules, d, V6, dir, p, Bytes)
    ensures BytesOf(rules, d, {V4, V6}, dir, p)
            == ByType(rules, d, V4, dir, p, Bytes) + ByType(rules, d, V6, dir, p, Bytes)
  {
    if rules != [] { SumsOf(rules[1..], d, dir, p); }
  }

  lemma TrueCounts(rules: seq<Entry>, d: string, dir: Dir)
    ensures Counts(TrueStats(rules, d, V4, dir), rules, d, {V4}, dir)
    ensures Counts(TrueStats(rules, d, V6, dir), rules, d, {V6}, dir)
    ensures Counts(Added(TrueStats(rules, d, V4, dir), TrueStats(rules, d, V6, dir)), rules, d, {V4, V6}, dir)
  {
    hide PktsOf, BytesOf, ByType;
    SumsOf(rules, d, dir, Unicast);
    SumsOf(rules, d, dir, Multicast);
  }

  // ---------------------------------------------------------------- which lines the reader sees

  /** The packet types of the rules of one chain and direction, in order. */
  function Types(ss: seq<Spec>, f: Family, c: Chain, dir: Dir): seq<Pkt> {
    if ss == [] then []
    else (if ss[0].family == f && ss[0].chain == c && ss[0].dir == dir then [ss[0].pkt] else [])
         + Types(ss[1..], f, c, dir)
  }

  /** Where the script has the rule, or -1. */
  function Place(f: Family, c: Chain, dir: Dir, p: Pkt): int {
    var m := if p.Multicast? then 1 else 0;
    var v6 := f.V6?;
    match (c, dir)
    case (Input, In) => (if v6 then 2 else 0) + m
    case (Output, Out) => (if v6 then 6 else 4) + m
    case (Forward, In) => (if v6 then 12 else 8) + 2 * m
    case (Forward, Out) => (if v6 then 13 else 9) + 2 * m
    case _ => -1
  }

  lemma ScriptPlaces(k: nat, f: Family, c: Chain, dir: Dir)
    requires k < 16
    ensures var s := Script()[k];
            if s.family == f && s.chain == c && s.dir == dir then k == Place(f, c, dir, s.pkt)
            else k != Place(f, c, dir, Unicast) && k != Place(f, c, dir, Multicast)
    ensures Place(f, c, dir, Unicast) < Place(f, c, dir, Multicast)
            || Place(f, c, dir, Unicast) == Place(f, c, dir, Multicast) == -1
    ensures Place(f, c, dir, Unicast) < 16 && Place(f, c, dir, Multicast) < 16
  {
    assert k == 0 || k == 1 || k == 2 || k == 3 || k == 4 || k == 5 || k == 6 || k == 7
           || k == 8 || k == 9 || k == 10 || k == 11 || k == 12 || k == 13 || k == 14 || k == 15;
  }

  lemma NoTypes(f: Family, c: Chain, dir: Dir)
    ensures Types([], f, c, dir) == []
  {}

  lemma OneMoreType(s: Spec, rest: seq<Spec>, f: Family, c: Chain, dir: Dir)
    ensures Types([s] + rest, f, c, dir)
            == (if s.family == f && s.chain == c && s.dir == dir then [s.pkt] else []) + Types(rest, f, c, dir)
  {
    assert ([s] + rest)[1..] == rest;
  }

  /** From command `k` on, a chain and direction has its unicast rule, then its multicast rule. */
  lemma {:induction false} SuffixTypes(k: nat, f: Family, c: Chain, dir: Dir)
    requires k <= 16
    ensures Types(Script()[k..], f, c, dir)
            == (if k <= Place(f, c, dir, Unicast) then [Unicast] else [])
               + (if k <= Place(f, c, dir, Multicast) then [Multicast] else [])
    decreases 16 - k
  {
    hide Script, Place, Types;
    NoTypes(f, c, dir);
    if k == 16 {
      ScriptPlaces(15, f, c, dir);
    } else {
      var (s, rest) := (Script()[k], Script()[k + 1..]);
      assert Script()[k..] == [s] + rest;
      OneMoreType(s, rest, f, c, dir);
      SuffixTypes(k + 1, f, c, dir);
      ScriptPlaces(k, f, c, dir);
      if !(s.family == f && s.chain == c && s.dir == dir) {
        assert Types([s] + rest, f, c, dir) == Types(rest, f, c, dir);
      } else if s.pkt.Unicast? {
        assert Types(rest, f, c, dir) == [] + [Multicast];
      } else {
        assert Types(rest, f, c, dir) == [] + [];
      }
    }
  }

  ghost predicate HaveTypes(es: seq<Entry>, ts: seq<Pkt>) {
    |es| == |ts| && forall i :: 0 <= i < |es| ==> es[i].Counter? && es[i].spec.pkt == ts[i]
  }

  lemma {:induction false} ChainTypes(rules: seq<Entry>, d: string, f: Family, c: Chain, dir: Dir)
    ensures HaveTypes(InChain(rules, d, f, c, dir), Types(Specs(rules, d), f, c, dir))
  {
    if rules != [] {
      ChainTypes(rules[1..], d, f, c, dir);
      if Owns(d, rules[0]) {
        assert Specs(rules, d)[1..] == Specs(rules[1..], d);
      } else {
        assert Specs(rules, d) == Specs(rules[1..], d);
      }
    }
  }

  function Sum(es: seq<Entry>, p: Pkt, u: Unit): int {
    if es == [] then 0
    else (if es[0].Counter? && es[0].spec.pkt == p then Value(es[0], u) else 0) + Sum(es[1..], p, u)
  }

  /** Every rule of a direction is in exactly one of the three chains. */
  lemma {:induction false} ByTypeIsByChain(rules: seq<Entry>, d: string, f: Family, dir: Dir, p: Pkt, u: Unit)
    ensures ByType(rules, d, f, dir, p, u)
            == Sum(InChain(rules, d, f, Input, dir), p, u) + Sum(InChain(rules, d, f, Forward, dir), p, u)
               + Sum(InChain(rules, d, f, Output, dir), p, u)
  {
    if rules != [] {
      ByTypeIsByChain(rules[1..], d, f, dir, p, u);
      InChainSum(rules, d, f, Input, dir, p, u);
      InChainSum(rules, d, f, Forward, dir, p, u);
      InChainSum(rules, d, f, Output, dir, p, u);
    }
  }

  lemma InChainSum(rules: seq<Entry>, d: string, f: Family, c: Chain, dir: Dir, p: Pkt, u: Unit)
    requires rules != []
    ensures Sum(InChain(rules, d, f, c, dir), p, u)
            == (if Listed(rules[0], d, f, c, dir) && rules[0].spec.pkt == p then Value(rules[0], u) else 0)
               + Sum(InChain(rules[1..], d, f, c, dir), p, u)
  {
    var rest := InChain(rules[1..], d, f, c, dir);
    if Listed(rules[0], d, f, c, dir) {
      assert ([rules[0]] + rest)[1..] == rest;
    } else {
      assert [] + rest == rest;
    }
  }

  /** Two rules at most: their sums by type are read off their types. */
  lemma SumOfTypes(es: seq<Entry>, p: Pkt, u: Unit)
    requires HaveTypes(es, [Unicast, Multicast]) || HaveTypes(es, [Multicast]) || HaveTypes(es, [])
    ensures Sum(es, p, u) == if |es| == 0 then 0
                             else if p.Multicast? then Value(es[|es| - 1], u)
                             else if |es| == 2 then Value(es[0], u) else 0
  {
    if |es| == 2 {
      assert es[1..][0] == es[1] && es[1..][1..] == [];
    }
  }

  /** For a device whose flag is up, a listing of even length is read right; one of odd length,
      which only a removal in progress leaves, is misread: on ingress unicast and multicast change
      places, on egress the last line is taken for unicast. */
  lemma ReaderAgainstTypes(rules: seq<Entry>, d: string, dev: Device, f: Family, dir: Dir, u: Unit)
    requires DeviceOk(rules, d, dev) && dev.enabled
    ensures var lines := Lines(rules, d, f, dir);
            var (uc, mc) := (Line(lines, 0, u) + Line(lines, 2, u), Line(lines, 1, u) + Line(lines, 3, u));
            var (U, M) := (ByType(rules, d, f, dir, Unicast, u), ByType(rules, d, f, dir, Multicast, u));
            if |lines| % 2 == 0 then uc == U && mc == M
            else
              && dev.thread.Deleting?
              && (dir.In? ==> uc == M && mc == U)
              && (dir.Out? ==> uc == U + Line(lines, |lines| - 1, u) && mc == M - Line(lines, |lines| - 1, u))
  {
    if dev.thread.Deleting? {
      ReaderAfter(rules, d, dev.thread.next, f, dir, u);
    } else {
      assert Script()[0..] == Script();
      ReaderAfter(rules, d, 0, f, dir, u);
    }
  }

  /** The reader when the first `k` rules of the script are gone. */
  lemma ReaderAfter(rules: seq<Entry>, d: string, k: nat, f: Family, dir: Dir, u: Unit)
    requires k <= 16 && Specs(rules, d) == Script()[k..]
    ensures var lines := Lines(rules, d, f, dir);
            var (uc, mc) := (Line(lines, 0, u) + Line(lines, 2, u), Line(lines, 1, u) + Line(lines, 3, u));
            var (U, M) := (ByType(rules, d, f, dir, Unicast, u), ByType(rules, d, f, dir, Multicast, u));
            if |lines| % 2 == 0 then uc == U && mc == M
            else
              && k > 0
              && (dir.In? ==> uc == M && mc == U)
              && (dir.Out? ==> uc == U + Line(lines, |lines| - 1, u) && mc == M - Line(lines, |lines| - 1, u))
  {
    hide Script, Specs, InChain, ByType, Sum, Line, OneOrTwo, Lines;
    var (a, b, c) := (InChain(rules, d, f, Input, dir), InChain(rules, d, f, Forward, dir),
                      InChain(rules, d, f, Output, dir));
    ChainShapes(rules, d, k, f, dir);
    assert OneOrTwo(a, k, f, Input, dir) && OneOrTwo(b, k, f, Forward, dir) && OneOrTwo(c, k, f, Output, dir);
    ByTypeIsByChain(rules, d, f, dir, Unicast, u);
    ByTypeIsByChain(rules, d, f, dir, Multicast, u);
    LinesAre(rules, d, f, dir);
    if dir.In? {
      EmptyChain(c, k, f, Output, dir);
      assert a + b + c == a + b;
      ReadIn(a, b, k, f, u);
    } else {
      EmptyChain(a, k, f, Input, dir);
      assert a + b + c == b + c;
      ReadOut(b, c, k, f, u);
    }
  }

  lemma LinesAre(rules: seq<Entry>, d: string, f: Family, dir: Dir)
    ensures Lines(rules, d, f, dir)
            == InChain(rules, d, f, Input, dir) + InChain(rules, d, f, Forward, dir) + InChain(rules, d, f, Output, dir)
  {}

  lemma ChainShapes(rules: seq<Entry>, d: string, k: nat, f: Family, dir: Dir)
    requires k <= 16 && Specs(rules, d) == Script()[k..]
    ensures forall c :: OneOrTwo(InChain(rules, d, f, c, dir), k, f, c, dir)
  {
    hide Script, Specs, InChain, Types;
    forall c ensures OneOrTwo(InChain(rules, d, f, c, dir), k, f, c, dir) {
      SuffixTypes(k, f, c, dir);
      ChainTypes(rules, d, f, c, dir);
    }
  }

  lemma EmptyChain(es: seq<Entry>, k: nat, f: Family, c: Chain, dir: Dir)
    requires OneOrTwo(es, k, f, c, dir) && Place(f, c, dir, Unicast) < 0
    ensures es == [] && Sum(es, Unicast, Pkts) == Sum(es, Unicast, Bytes) == 0
    ensures Sum(es, Multicast, Pkts) == Sum(es, Multicast, Bytes) == 0
  {}

  lemma ReadIn(a: seq<Entry>, b: seq<Entry>, k: nat, f: Family, u: Unit)
    requires OneOrTwo(a, k, f, Input, In) && OneOrTwo(b, k, f, Forward, In)
    ensures var lines := a + b;
            var (uc, mc) := (Line(lines, 0, u) + Line(lines, 2, u), Line(lines, 1, u) + Line(lines, 3, u));
            var (U, M) := (Sum(a, Unicast, u) + Sum(b, Unicast, u), Sum(a, Multicast, u) + Sum(b, Multicast, u));
            if |lines| % 2 == 0 then uc == U && mc == M else k > 0 && uc == M && mc == U
  {
    SumOfTypes(a, Unicast, u);
    SumOfTypes(a, Multicast, u);
    SumOfTypes(b, Unicast, u);
    SumOfTypes(b, Multicast, u);
  }

  lemma ReadOut(b: seq<Entry>, c: seq<Entry>, k: nat, f: Family, u: Unit)
    requires OneOrTwo(b, k, f, Forward, Out) && OneOrTwo(c, k, f, Output, Out)
    ensures var lines := b + c;
            var (uc, mc) := (Line(lines, 0, u) + Line(lines, 2, u), Line(lines, 1, u) + Line(lines, 3, u));
            var (U, M) := (Sum(b, Unicast, u) + Sum(c, Unicast, u), Sum(b, Multicast, u) + Sum(c, Multicast, u));
            if |lines| % 2 == 0 then uc == U && mc == M
            else k > 0 && uc == U + Line(lines, |lines| - 1, u) && mc == M - Line(lines, |lines| - 1, u)
  {
    SumOfTypes(b, Unicast, u);
    SumOfTypes(b, Multicast, u);
    SumOfTypes(c, Unicast, u);
    SumOfTypes(c, Multicast, u);
  }

  /** When a removal is under way with the flag still up, the reader is right in one unit if and only
      if an even number of lines is left, or, on ingress, unicast and multicast happen to be equal,
      or, on egress, the last line is zero. */
  lemma ReaderRightIff(rules: seq<Entry>, d: string, dev: Device, f: Family, dir: Dir, u: Unit)
    requires DeviceOk(rules, d, dev) && dev.enabled
    ensures var lines := Lines(rules, d, f, dir);
            var (U, M) := (ByType(rules, d, f, dir, Unicast, u), ByType(rules, d, f, dir, Multicast, u));
            Line(lines, 0, u) + Line(lines, 2, u) == U && Line(lines, 1, u) + Line(lines, 3, u) == M
            <==> |lines| % 2 == 0 || (if dir.In? then U == M else Line(lines, |lines| - 1, u) == 0)
  {
    ReaderAgainstTypes(rules, d, dev, f, dir, u);
  }

  ghost predicate OneOrTwo(es: seq<Entry>, k: nat, f: Family, c: Chain, dir: Dir) {
    HaveTypes(es, (if k <= Place(f, c, dir, Unicast) then [Unicast] else [])
                  + (if k <= Place(f, c, dir, Multicast) then [Multicast] else []))
  }

  /** A device that is enabled and not being removed is read right in all four listings. */
  lemma SettledReadersRight(rules: seq<Entry>, d: string, dev: Device)
    requires DeviceOk(rules, d, dev) && dev.enabled && !dev.thread.Deleting?
    ensures ReadersRight(rules, d)
  {
    hide DeviceOk, Lines, Line, ByType;
    forall f, dir ensures ByPosition(Lines(rules, d, f, dir)) == TrueStats(rules, d, f, dir) {
      ReaderAgainstTypes(rules, d, dev, f, dir, Pkts);
      ReaderAgainstTypes(rules, d, dev, f, dir, Bytes);
    }
  }

  // ---------------------------------------------------------------- a run that is misread

  predicate AllZero(rules: seq<Entry>) { forall e :: e in rules && e.Counter? ==> e.pkts == 0 == e.bytes }

  lemma ActedZero(rules: seq<Entry>, d: string, dev: Device)
    requires AllZero(rules) && !dev.thread.Deleting?
    ensures AllZero(Acted(rules, d, dev).0)
  {}

  lemma {:induction false} ZeroByType(rules: seq<Entry>, d: string, f: Family, dir: Dir, p: Pkt)
    requires AllZero(rules)
    ensures ByType(rules, d, f, dir, p, Pkts) == 0
  {
    if rules != [] {
      assert rules[0] in rules;
      ZeroByType(rules[1..], d, f, dir, p);
    }
  }

  /** If a device owns every rule, its view is the table. */
  lemma {:induction false} AllOwned(rules: seq<Entry>, d: string)
    requires Others(rules, d) == []
    ensures |Specs(rules, d)| == |rules|
    ensures forall i :: 0 <= i < |rules| ==> Matches(rules[i], d, Specs(rules, d)[i])
  {
    if rules != [] { AllOwned(rules[1..], d); }
  }

  /** The rules of a device are created in empty tables. */
  method CreateAlone(k: Kernel, d: string)
    requires k.Valid() && k.rules == [] && k.Of(d) == Device(Resting, false)
    modifies k
    ensures k.Valid() && k.Of(d) == Device(Resting, true) && AllZero(k.rules) && Others(k.rules, d) == []
  {
    hide Acted, Others, Specs, Script;
    assert Others([], d) == [] by { NoOthers(d); }
    k.Start(d, true);
    while k.Of(d).thread.Creating?
      invariant k.Valid() && Others(k.rules, d) == [] && AllZero(k.rules)
      invariant k.Of(d).thread.Creating? || k.Of(d) == Device(Resting, true)
      decreases Left(k.Of(d))
    {
      assert DeviceOk(k.rules, d, k.Of(d));
      ActedOk(k.rules, d, k.Of(d));
      ActedZero(k.rules, d, k.Of(d));
      CreatingMoves(k.rules, d, k.Of(d));
      k.Step(d);
    }
  }

  lemma NoOthers(d: string)
    ensures Others([], d) == []
  {}

  lemma CreatingMoves(rules: seq<Entry>, d: string, dev: Device)
    requires dev.thread.Creating? && !dev.enabled
    ensures var next := Acted(rules, d, dev).1;
            (next.thread.Creating? && !next.enabled) || next == Device(Resting, true)
  {}

  /** A multicast packet is counted on INPUT, and the device's rules are being deleted: with the first
      rule gone the reader takes the packet for a unicast one. */
  method MisreadRun() returns (k: Kernel)
    ensures k.Valid() && k.Of("1").enabled && !ReadersRight(k.rules, "1")
  {
    hide Acted, Others, Specs, ReadersRight;
    var d := "1";
    k := new Kernel();
    CreateAlone(k, d);
    assert DeviceOk(k.rules, d, k.Of(d));
    AllOwned(k.rules, d);
    k.Traffic(1, 1, 64);
    k.Start(d, false);
    ghost var rules := k.rules;
    FirstRuleGoes(rules, d);
    k.Step(d);
    k.Step(d);
    assert DeviceOk(k.rules, d, k.Of(d));
    Misread(k.rules, d);
  }

  /** The first two actions of a removal. */
  lemma FirstRuleGoes(rules: seq<Entry>, d: string)
    requires |rules| > 0 && Matches(rules[0], d, Script()[0])
    ensures Acted(rules, d, Device(Deleting(0, false), true)) == (rules, Device(Deleting(0, true), true))
    ensures Acted(rules, d, Device(Deleting(0, true), true)) == (rules[1..], Device(Deleting(1, false), true))
  {}

  lemma Misread(rules: seq<Entry>, d: string)
    requires |rules| > 0 && Matches(rules[0], d, Script()[1]) && rules[0].pkts == 1 && AllZero(rules[1..])
    requires Specs(rules, d) == Script()[1..]
    ensures !ReadersRight(rules, d)
  {
    ZeroByType(rules[1..], d, V4, In, Unicast);
    ZeroByType(rules[1..], d, V4, In, Multicast);
    assert ByType(rules, d, V4, In, Unicast, Pkts) == 0 && ByType(rules, d, V4, In, Multicast, Pkts) == 1;
    OddListing(rules, d);
    hide *;
    ReaderAfter(rules, d, 1, V4, In, Pkts);
    NotRight(rules, d);
  }

  lemma OddListing(rules: seq<Entry>, d: string)
    requires Specs(rules, d) == Script()[1..]
    ensures |Lines(rules, d, V4, In)| == 3
  {
    hide InChain, Types, Specs, Script;
    ChainTypes(rules, d, V4, Input, In);
    ChainTypes(rules, d, V4, Forward, In);
    ChainTypes(rules, d, V4, Output, In);
    SuffixTypes(1, V4, Input, In);
    SuffixTypes(1, V4, Forward, In);
    SuffixTypes(1, V4, Output, In);
  }

  lemma NotRight(rules: seq<Entry>, d: string)
    requires Line(Lines(rules, d, V4, In), 0, Pkts) + Line(Lines(rules, d, V4, In), 2, Pkts)
             != ByType(rules, d, V4, In, Unicast, Pkts)
    ensures !ReadersRight(rules, d)
  {
    hide Lines, Line, ByType;
    assert ByPosition(Lines(rules, d, V4, In)) != TrueStats(rules, d, V4, In);
  }
}
