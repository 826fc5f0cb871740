/** Port mirrors of a bridge (`mirror_set`, `mirror_destroy` and `mbridge_unregister_bundle` in
    src/ofproto-sim-provider.c): a 32-slot array with first-fit allocation, keyed by the caller's
    `aux`, whose entries point at registered bundles. */
module MirrorTable {
  import opened Wrappers

  type Aux = nat
  type BundleId = nat  // the identity of a bundle, and of its registration

  const MAX_MIRRORS: nat := 32

  datatype Config = Config(srcs: set<BundleId>, dsts: set<BundleId>, out: Option<BundleId>)

  datatype Mirror = Mirror(idx: nat, aux: Aux, config: Config)

  /** A bundle as the caller names it: a bridge and the bundle's key there. */
  datatype BundleRef = BundleRef(ofproto: nat, aux: Aux)

  datatype Settings = Settings(srcs: seq<BundleRef>, dsts: seq<BundleRef>, out: Option<BundleRef>)

  /** The return codes, and the end of the program at a null pointer. */
  datatype Rc = Ok | EfBig | EInval | EMsgSize | CommandFailed | Crashed

  type Slots = seq<Option<Mirror>>

  // ---------------------------------------------------------------- the array as a map

  ghost predicate SlotsOk(slots: Slots) {
    && |slots| == MAX_MIRRORS
    && (forall i :: 0 <= i < |slots| && slots[i].Some? ==> slots[i].value.idx == i)
    && forall i, j :: 0 <= i < j < |slots| && slots[i].Some? && slots[j].Some? ==>
      slots[i].value.aux != slots[j].value.aux
  }

  /** The mirrors by their keys. */
  ghost function Table(slots: Slots): map<Aux, Config>
    requires SlotsOk(slots)
  {
    map i | 0 <= i < |slots| && slots[i].Some? :: slots[i].value.aux := slots[i].value.config
  }

  predicate Occupied(slots: Slots) { exists i :: 0 <= i < |slots| && slots[i].Some? }

  predicate Full(slots: Slots) { forall i :: 0 <= i < |slots| ==> slots[i].Some? }

  lemma TableHas(slots: Slots, aux: Aux)
    requires SlotsOk(slots)
    ensures aux in Table(slots) <==> exists i :: 0 <= i < |slots| && slots[i].Some? && slots[i].value.aux == aux
  {}

  lemma MapDrop(m: map<Aux, Config>, k: Aux, c: Config)
    ensures m[k := c] - {k} == m - {k}
  {}

  lemma MapSame(m: map<Aux, Config>, k: Aux, c: Config)
    requires k in m && m[k] == c
    ensures m[k := c] == m
  {}

  lemma KeyOf(slots: Slots, i: nat)
    requires SlotsOk(slots) && i < |slots| && slots[i].Some?
    ensures slots[i].value.idx == i && slots[i].value.aux in Table(slots)
    ensures Table(slots)[slots[i].value.aux] == slots[i].value.config
  {}

  lemma OnlyAt(slots: Slots, i: nat, aux: Aux)
    requires SlotsOk(slots) && i < |slots| && slots[i].Some? && slots[i].value.aux == aux
    ensures forall j :: 0 <= j < |slots| && j != i && slots[j].Some? ==> slots[j].value.aux != aux
  {}

  lemma TableKeeps(slots: Slots, aux: Aux)
    requires SlotsOk(slots) && aux !in Table(slots)
    ensures Table(slots) - {aux} == Table(slots)
  {}

  lemma SlotsSize(slots: Slots)
    requires SlotsOk(slots)
    ensures |slots| == MAX_MIRRORS
  {}

  lemma SomeOccupied(slots: Slots, i: nat)
    requires i < |slots| && slots[i].Some?
    ensures Occupied(slots)
  {}

  lemma SlotsOkSet(slots: Slots, i: nat, m: Mirror)
    requires SlotsOk(slots) && i < |slots| && m.idx == i
    requires forall j :: 0 <= j < |slots| && j != i && slots[j].Some? ==> slots[j].value.aux != m.aux
    ensures SlotsOk(slots[i := Some(m)])
  {}

  lemma NotElsewhere(slots: Slots, i: nat, aux: Aux)
    requires SlotsOk(slots) && i < |slots|
    requires if slots[i].Some? then slots[i].value.aux == aux else aux !in Table(slots)
    ensures forall j :: 0 <= j < |slots| && j != i && slots[j].Some? ==> slots[j].value.aux != aux
  {
    TableHas(slots, aux);
  }

  lemma TableSet(slots: Slots, i: nat, m: Mirror)
    requires SlotsOk(slots) && i < |slots| && m.idx == i
    requires if slots[i].Some? then slots[i].value.aux == m.aux else m.aux !in Table(slots)
    ensures SlotsOk(slots[i := Some(m)]) && Table(slots[i := Some(m)]) == Table(slots)[m.aux := m.config]
  {
    hide SlotsOk, Table;
    var slots' := slots[i := Some(m)];
    SlotsSize(slots);
    NotElsewhere(slots, i, m.aux);
    SlotsOkSet(slots, i, m);
    TableSame(slots, slots', i);
    KeyOf(slots', i);
  }

  /** Two arrays that differ in one slot agree on every key of the other slots. */
  lemma TableSame(a: Slots, b: Slots, i: nat)
    requires SlotsOk(a) && SlotsOk(b) && i < MAX_MIRRORS
    requires forall j :: 0 <= j < MAX_MIRRORS && j != i ==> a[j] == b[j]
    ensures forall k :: k in Table(a) && !(a[i].Some? && a[i].value.aux == k) ==>
              k in Table(b) && Table(b)[k] == Table(a)[k]
    ensures forall k :: k in Table(b) && !(b[i].Some? && b[i].value.aux == k) ==>
              k in Table(a) && Table(b)[k] == Table(a)[k]
  {}

  lemma TableClear(slots: Slots, i: nat)
    requires SlotsOk(slots) && i < |slots| && slots[i].Some?
    ensures SlotsOk(slots[i := None]) && Table(slots[i := None]) == Table(slots) - {slots[i].value.aux}
  {
    TableSame(slots, slots[i := None], i);
  }

  // ---------------------------------------------------------------- unregistering a bundle

  /** What is left of a mirror: nothing if it outputs to the bundle; else the bundle leaves its
      sources, or its destinations if it is no source. */
  function Unregistered(m: Mirror, b: BundleId): Option<Mirror> {
    if m.config.out == Some(b) then None else Some(m.(config := LeftOf(m.config, b)))
  }

  /** A mirror that outputs to the bundle is gone; in another the bundle is taken from the sources or,
      if it is none, from the destinations, and the rest is as before. */
  ghost predicate TakenOut(was: Option<Mirror>, now: Option<Mirror>, b: BundleId) {
    && (now.None? <==> was.None? || was.value.config.out == Some(b))
    && (now.Some? ==>
          var (c, c') := (was.value.config, now.value.config);
          && now.value.aux == was.value.aux && now.value.idx == was.value.idx && c'.out == c.out
          && (forall x :: x in c'.srcs <==> x in c.srcs && x != b)
          && (forall x :: x in c'.dsts <==> x in c.dsts && (x != b || b in c.srcs)))
  }

  lemma TakesOut(s: Option<Mirror>, b: BundleId)
    ensures TakenOut(s, UnregisteredSlot(s, b), b)
  {}

  function LeftOf(c: Config, b: BundleId): Config {
    if b in c.srcs then c.(srcs := c.srcs - {b}) else c.(dsts := c.dsts - {b})
  }

  function UnregisteredSlot(s: Option<Mirror>, b: BundleId): Option<Mirror> {
    if s.None? then None else Unregistered(s.value, b)
  }

  predicate Refers(s: Option<Mirror>, b: BundleId) {
    s.Some? && (b in s.value.config.srcs || b in s.value.config.dsts || s.value.config.out == Some(b))
  }

  /** The bundle is a source and a destination of a mirror that outputs elsewhere. */
  predicate KeepsBoth(s: Option<Mirror>, b: BundleId) {
    s.Some? && s.value.config.out != Some(b) && b in s.value.config.srcs && b in s.value.config.dsts
  }

  /** A mirror still refers to an unregistered bundle if and only if the bundle was both a source
      and a destination of it and not its output. */
  lemma StillRefers(s: Option<Mirror>, b: BundleId)
    ensures Refers(UnregisteredSlot(s, b), b) <==> KeepsBoth(s, b)
    ensures !Refers(s, b) ==> UnregisteredSlot(s, b) == s
  {
    if s.Some? && !Refers(s, b) {
      assert s.value.config.dsts - {b} == s.value.config.dsts;
    }
  }

  // ---------------------------------------------------------------- calls on the map

  /** What the calls can change. */
  datatype View = View(table: map<Aux, Config>, bundles: map<Aux, BundleId>, registered: set<BundleId>, crashed: bool)

  datatype Call =
    | Set(aux: Aux, s: Option<Settings>, tooLong: bool, commandFails: bool)
    | Register(key: Aux, b: BundleId)
    | Unregister(key: Aux, b: BundleId)

  function Find(bundles: map<Aux, BundleId>, aux: Aux): Option<BundleId> {
    if aux in bundles then Some(bundles[aux]) else None
  }

  /** The registered bundles among those referred to. */
  ghost function Resolved(refs: seq<BundleRef>, bundles: map<Aux, BundleId>, registered: set<BundleId>): set<BundleId> {
    set r | r in refs && r.aux in bundles && bundles[r.aux] in registered :: bundles[r.aux]
  }

  /** What a call's settings come down to: nothing if they name another bridge's bundles or an output
      that is not registered. */
  ghost function Meant(ofproto: nat, bundles: map<Aux, BundleId>, registered: set<BundleId>,
                       s: Settings): Option<Config>
  {
    if && (s.out.Some? ==> s.out.value.ofproto == ofproto
                           && (s.out.value.aux in bundles ==> bundles[s.out.value.aux] in registered))
       && (forall r :: r in s.srcs ==> r.ofproto == ofproto)
       && (forall r :: r in s.dsts ==> r.ofproto == ofproto)
    then Some(Config(Resolved(s.srcs, bundles, registered), Resolved(s.dsts, bundles, registered),
                     if s.out.Some? then Find(bundles, s.out.value.aux) else None))
    else None
  }

  /** The references name the registered bundle. */
  ghost predicate Names(refs: seq<BundleRef>, b: BundleId, bundles: map<Aux, BundleId>, registered: set<BundleId>) {
    b in registered && exists r :: r in refs && r.aux in bundles && bundles[r.aux] == b
  }

  /** The mirror copies what its settings say, from the sources and to the destinations. */
  ghost predicate Mirrors(c: Config, s: Settings, bundles: map<Aux, BundleId>, registered: set<BundleId>) {
    && (forall b :: b in c.srcs <==> Names(s.srcs, b, bundles, registered))
    && (forall b :: b in c.dsts <==> Names(s.dsts, b, bundles, registered))
    && c.out == if s.out.Some? && s.out.value.aux in bundles then Some(bundles[s.out.value.aux]) else None
  }

  /** A reference belongs to another bridge, or the output is a bundle that is not registered. */
  ghost predicate Foreign(s: Settings, ofproto: nat, bundles: map<Aux, BundleId>, registered: set<BundleId>) {
    || (exists r :: (r in s.srcs || r in s.dsts) && r.ofproto != ofproto)
    || (s.out.Some? && s.out.value.ofproto != ofproto)
    || (s.out.Some? && s.out.value.aux in bundles && bundles[s.out.value.aux] !in registered)
  }

  /** There is no output bundle, or a source or destination is no bundle. */
  ghost predicate Nameless(s: Settings, bundles: map<Aux, BundleId>) {
    || s.out.None? || s.out.value.aux !in bundles
    || exists r :: (r in s.srcs || r in s.dsts) && r.aux !in bundles
  }

  lemma MeantMirrors(ofproto: nat, bundles: map<Aux, BundleId>, registered: set<BundleId>, s: Settings)
    ensures var c := Meant(ofproto, bundles, registered, s);
            && (c.None? <==> Foreign(s, ofproto, bundles, registered))
            && (c.Some? ==> Mirrors(c.value, s, bundles, registered))
    ensures Unprintable(bundles, s) <==> Nameless(s, bundles)
  {
    ResolvedNames(s.srcs, bundles, registered);
    ResolvedNames(s.dsts, bundles, registered);
    hide Resolved, Names;
  }

  lemma ResolvedNames(refs: seq<BundleRef>, bundles: map<Aux, BundleId>, registered: set<BundleId>)
    ensures forall b :: b in Resolved(refs, bundles, registered) <==> Names(refs, b, bundles, registered)
  {}

  /** What a call comes to, from the table's point of view, in terms of the settings. */
  lemma SetMirrors(was: map<Aux, Config>, aux: Aux, ofproto: nat, bundles: map<Aux, BundleId>,
                   registered: set<BundleId>,
                   s: Settings)
    ensures var config := Meant(ofproto, bundles, registered, s);
            var crashes := Crashes(was, aux, config, Unprintable(bundles, s));
            && (config.None? <==> Foreign(s, ofproto, bundles, registered))
            && (config.Some? ==> Mirrors(config.value, s, bundles, registered))
            && (crashes ==> Nameless(s, bundles))
            && (config.Some? && Nameless(s, bundles) && !crashes && (aux in was || |was| != MAX_MIRRORS) ==>
                  Mirrors(if aux in was then was[aux] else Config({}, {}, None), s, bundles, registered))
  {
    MeantMirrors(ofproto, bundles, registered, s);
    hide Meant, Mirrors, Foreign, Unprintable, Nameless;
  }

  /** A new mirror needs room.  Then a configuration that differs from the present one is sent to the
      ASIC, and whatever goes wrong takes the mirror away. */
  function TableAfter(table: map<Aux, Config>, aux: Aux, config: Option<Config>, fails: bool): map<Aux, Config> {
    if aux !in table && |table| == MAX_MIRRORS then table
    else if config.None? || (config.value != Present(table, aux) && fails) then table - {aux}
    else table[aux := config.value]
  }

  /** A new mirror starts out empty. */
  function Present(table: map<Aux, Config>, aux: Aux): Config {
    if aux in table then table[aux] else Config({}, {}, None)
  }

  /** The command cannot be printed: there is no output bundle, or a source or destination is none. */
  predicate Unprintable(bundles: map<Aux, BundleId>, s: Settings) {
    || (s.out.Some? ==> s.out.value.aux !in bundles)
    || (exists r :: r in s.srcs && r.aux !in bundles)
    || (exists r :: r in s.dsts && r.aux !in bundles)
  }

  /** The code follows a null pointer: the command for a changed mirror cannot be printed. */
  predicate Crashes(table: map<Aux, Config>, aux: Aux, config: Option<Config>, unprintable: bool) {
    && (aux in table || |table| != MAX_MIRRORS)
    && config.Some? && config.value != Present(table, aux) && unprintable
  }

  lemma RoomOrNot(table: map<Aux, Config>, aux: Aux, config: Option<Config>, fails: bool)
    requires aux !in table
    ensures var put := table[aux := Config({}, {}, None)];
            TableAfter(table, aux, config, fails)
            == if |table| == MAX_MIRRORS then table else TableAfter(put, aux, config, fails)
    ensures var put := table[aux := Config({}, {}, None)];
            forall u :: Crashes(table, aux, config, u) <==> |table| != MAX_MIRRORS && Crashes(put, aux, config, u)
  {
    MapDrop(table, aux, Config({}, {}, None));
    TableKeepsKey(table, aux);
    if config.Some? { assert table[aux := Config({}, {}, None)][aux := config.value] == table[aux := config.value]; }
  }

  lemma TableKeepsKey(table: map<Aux, Config>, aux: Aux)
    requires aux !in table
    ensures table - {aux} == table
  {}

  /** Mirrors that output to the bundle go, the others lose it. */
  function TableWithout(table: map<Aux, Config>, b: BundleId): map<Aux, Config> {
    map k | k in table && table[k].out != Some(b) :: LeftOf(table[k], b)
  }

  ghost function After(ofproto: nat, v: View, call: Call): View {
    if v.crashed then v
    else
      match call
      case Set(aux, s, tooLong, commandFails) =>
        if s.None? then v.(table := v.table - {aux})
        else
          var config := Meant(ofproto, v.bundles, v.registered, s.value);
          if Crashes(v.table, aux, config, Unprintable(v.bundles, s.value)) then v.(crashed := true)
          else v.(table := TableAfter(v.table, aux, config, tooLong || commandFails))
      case Register(key, b) => v.(bundles := v.bundles[key := b], registered := v.registered + {b})
      case Unregister(key, b) =>
        var left := if b in v.registered then TableWithout(v.table, b) else v.table;
        View(left, v.bundles - {key}, v.registered - {b}, false)
  }

  ghost function AfterAll(ofproto: nat, v: View, calls: seq<Call>): View
    decreases |calls|
  {
    if calls == [] then v else AfterAll(ofproto, After(ofproto, v, calls[0]), calls[1..])
  }

  lemma {:induction false} CrashedForGood(ofproto: nat, v: View, calls: seq<Call>)
    requires v.crashed
    ensures AfterAll(ofproto, v, calls) == v
    decreases |calls|
  {
    if calls != [] { CrashedForGood(ofproto, v, calls[1..]); }
  }

  predicate ConfigKnown(c: Config, registered: set<BundleId>) {
    c.srcs <= registered && c.dsts <= registered && (c.out.Some? ==> c.out.value in registered)
  }

  /** Every mirror refers to registered bundles only. */
  predicate Known(v: View) { forall k :: k in v.table ==> ConfigKnown(v.table[k], v.registered) }

  predicate BothSides(c: Config, b: BundleId) { c.out != Some(b) && b in c.srcs && b in c.dsts }

  /** The call does not unregister a bundle that a mirror with another output has on both sides. */
  predicate Tidy(v: View, call: Call) {
    !v.crashed && call.Unregister? && call.b in v.registered ==>
      forall k :: k in v.table ==> !BothSides(v.table[k], call.b)
  }

  ghost predicate AllTidy(ofproto: nat, v: View, calls: seq<Call>)
    decreases |calls|
  {
    calls == [] || (Tidy(v, calls[0]) && AllTidy(ofproto, After(ofproto, v, calls[0]), calls[1..]))
  }

  lemma KnownAfter(ofproto: nat, v: View, call: Call)
    requires Known(v)
    ensures Known(After(ofproto, v, call)) <==> Tidy(v, call)
  {
    hide Meant, Unprintable, Crashes, TableWithout;
    if !v.crashed && call.Set? && call.s.Some? { MeantKnown(ofproto, v.bundles, v.registered, call.s.value); }
    if call.Unregister? {
      assert v.registered - {call.b} == v.registered || call.b in v.registered;
      KnownWithout(v, call.b, v.bundles - {call.key});
    }
  }

  lemma KnownWithout(v: View, b: BundleId, bundles: map<Aux, BundleId>)
    requires Known(v)
    ensures Known(View(TableWithout(v.table, b), bundles, v.registered - {b}, false)) <==>
            forall k :: k in v.table ==> !BothSides(v.table[k], b)
  {
    var next := View(TableWithout(v.table, b), bundles, v.registered - {b}, false);
    forall k | k in v.table && BothSides(v.table[k], b) ensures !Known(next) {
      assert k in next.table && b in next.table[k].dsts;
    }
  }

  lemma MeantKnown(ofproto: nat, bundles: map<Aux, BundleId>, registered: set<BundleId>, s: Settings)
    ensures var c := Meant(ofproto, bundles, registered, s); c.Some? ==> ConfigKnown(c.value, registered)
  {}

  /** Over any run no reference is ever left to a bundle that is not registered, if and only if every
      bundle that is unregistered is on one side at most of each mirror that it is not the output of. */
  lemma {:induction false} KnownThroughoutIff(ofproto: nat, v: View, calls: seq<Call>)
    requires Known(v)
    ensures (forall i :: 0 <= i <= |calls| ==> Known(AfterAll(ofproto, v, calls[..i]))) <==> AllTidy(ofproto, v, calls)
    decreases |calls|
  {
    hide Known, Tidy, After;
    if calls == [] {
      assert calls[..0] == [];
    } else {
      var (next, rest) := (After(ofproto, v, calls[0]), calls[1..]);
      KnownAfter(ofproto, v, calls[0]);
      assert calls[..0] == [];
      forall i | 0 <= i <= |rest| ensures AfterAll(ofproto, v, calls[..i + 1]) == AfterAll(ofproto, next, rest[..i]) {
        assert calls[..i + 1][1..] == rest[..i] && calls[..i + 1][0] == calls[0];
      }
      assert AfterAll(ofproto, next, rest[..0]) == next;
      if Known(next) {
        KnownThroughoutIff(ofproto, next, rest);
        if AllTidy(ofproto, v, calls) {
          forall i | 0 <= i <= |calls| ensures Known(AfterAll(ofproto, v, calls[..i])) {
            if i > 0 { assert Known(AfterAll(ofproto, next, rest[..i - 1])); }
          }
        } else {
          var i :| 0 <= i <= |rest| && !Known(AfterAll(ofproto, next, rest[..i]));
          assert !Known(AfterAll(ofproto, v, calls[..i + 1]));
        }
      } else {
        assert !Known(AfterAll(ofproto, v, calls[..0 + 1]));
      }
    }
  }

  /** Unregistering slot by slot is unregistering on the map. */
  lemma TableUnregistered(was: Slots, now: Slots, b: BundleId)
    requires SlotsOk(was) && SlotsOk(now) && forall i :: 0 <= i < |was| ==> now[i] == UnregisteredSlot(was[i], b)
    ensures Table(now) == TableWithout(Table(was), b)
  {
    hide LeftOf, SlotsOk, Table;
    SlotsSize(was);
    SlotsSize(now);
    forall k ensures k in Table(was) <==> exists i :: 0 <= i < |was| && was[i].Some? && was[i].value.aux == k {
      TableHas(was, k);
    }
    forall k ensures k in Table(now) <==> exists i :: 0 <= i < |now| && now[i].Some? && now[i].value.aux == k {
      TableHas(now, k);
    }
    forall k | k in Table(was) && Table(was)[k].out != Some(b)
      ensures k in Table(now) && Table(now)[k] == LeftOf(Table(was)[k], b)
    {
      var i :| 0 <= i < |was| && was[i].Some? && was[i].value.aux == k;
      KeyOf(was, i);
      KeyOf(now, i);
    }
    forall k | k in Table(now) ensures k in Table(was) && Table(was)[k].out != Some(b) {
      var i :| 0 <= i < |now| && now[i].Some? && now[i].value.aux == k;
      KeyOf(was, i);
    }
  }

  // ---------------------------------------------------------------- the bridge's mirror state

  class MBridge {
    const ofproto: nat
    const mirrors: array<Option<Mirror>>
    var bundles: map<Aux, BundleId>   // the bridge's bundles by key
    var registered: set<BundleId>     // the bundles known to the mirror code
    var hasMirrors: bool
    var needRevalidate: bool

    ghost predicate Valid()
      reads this, mirrors
    {
      SlotsOk(mirrors[..]) && (hasMirrors ==> Occupied(mirrors[..]))
    }

    constructor (ofproto: nat)
      ensures Valid() && mirrors[..] == seq(MAX_MIRRORS, _ => None) && fresh(mirrors)
      ensures this.ofproto == ofproto && bundles == map[] && registered == {}
    {
      this.ofproto := ofproto;
      mirrors := new Option<Mirror>[MAX_MIRRORS](_ => None);
      bundles, registered, hasMirrors, needRevalidate := map[], {}, false, false;
    }

    method Lookup(aux: Aux) returns (slot: Option<nat>)
      requires Valid()
      ensures slot.None? <==> aux !in Table(mirrors[..])
      ensures slot.Some? ==>
                slot.value < mirrors.Length && mirrors[slot.value].Some? && mirrors[slot.value].value.aux == aux
    {
      TableHas(mirrors[..], aux);
      for i := 0 to mirrors.Length
        invariant forall j :: 0 <= j < i ==> !(mirrors[j].Some? && mirrors[j].value.aux == aux)
      {
        if mirrors[i].Some? && mirrors[i].value.aux == aux {
          assert mirrors[..][i] == mirrors[i];
          return Some(i);
        }
      }
      slot := None;
    }

    method Scan() returns (slot: Option<nat>)
      requires Valid()
      ensures slot.None? <==> Full(mirrors[..])
      ensures slot.Some? ==> FirstFree(mirrors[..], slot.value)
    {
      for i := 0 to mirrors.Length
        invariant forall j :: 0 <= j < i ==> mirrors[j].Some?
      {
        if mirrors[i].None? { return Some(i); }
      }
      slot := None;
    }

    method Destroy(aux: Aux)
      requires Valid()
      modifies mirrors, this`hasMirrors
      ensures Valid() && Table(mirrors[..]) == Table(old(mirrors[..])) - {aux}
      ensures forall i :: 0 <= i < mirrors.Length ==>
                mirrors[i]
                == if old(mirrors[i]).Some? && old(mirrors[i]).value.aux == aux then None else old(mirrors[i])
      ensures hasMirrors == if aux in Table(old(mirrors[..])) then Occupied(mirrors[..]) else old(hasMirrors)
    {
      var slot := Lookup(aux);
      if slot.None? {
        TableHas(mirrors[..], aux);
        return;
      }
      var i := mirrors[slot.value].value.idx;
      KeyOf(mirrors[..], slot.value);
      OnlyAt(mirrors[..], i, aux);
      TableClear(mirrors[..], i);
      mirrors[i] := None;
      assert mirrors[..] == old(mirrors[..])[i := None];
      CheckMirrors();
    }

    method CheckMirrors()
      modifies this`hasMirrors
      ensures hasMirrors <==> Occupied(mirrors[..])
    {
      hasMirrors := false;
      for j := 0 to mirrors.Length
        invariant !hasMirrors && forall k :: 0 <= k < j ==> mirrors[k].None?
      {
        if mirrors[j].Some? {
          hasMirrors := true;
          assert mirrors[..][j].Some?;
          return;
        }
      }
    }

    /** `bundle_lookup` for each reference; false when one belongs to another bridge. */
    method LookupBundles(refs: seq<BundleRef>) returns (ok: bool, found: seq<Option<BundleId>>)
      ensures ok <==> forall r :: r in refs ==> r.ofproto == ofproto
      ensures ok ==> |found| == |refs| && forall i :: 0 <= i < |refs| ==> found[i] == Find(bundles, refs[i].aux)
    {
      found := [];
      for i := 0 to |refs|
        invariant |found| == i && forall k :: 0 <= k < i ==>
                    refs[k].ofproto == ofproto && found[k] == Find(bundles, refs[k].aux)
      {
        if refs[i].ofproto != ofproto {
          assert refs[i] in refs;
          return false, [];
        }
        found := found + [Find(bundles, refs[i].aux)];
      }
      ok := true;
    }

    /** `mbundle_lookup_multiple`: the registered ones among them. */
    method LookupMultiple(found: seq<Option<BundleId>>) returns (ids: set<BundleId>)
      ensures forall b :: b in ids <==> b in registered && Some(b) in found
    {
      ids := {};
      for i := 0 to |found|
        invariant forall b :: b in ids <==> b in registered && Some(b) in found[..i]
      {
        assert found[..i + 1] == found[..i] + [found[i]];
        if found[i].Some? && found[i].value in registered {
          ids := ids + {found[i].value};
        }
      }
      assert found[..|found|] == found;
    }

    ghost function State(): View
      requires SlotsOk(mirrors[..])
      reads this`bundles, this`registered, mirrors
    {
      View(Table(mirrors[..]), bundles, registered, false)
    }

    ghost predicate Acceptable(s: Settings)
      reads this`bundles, this`registered
    {
      Meant(ofproto, bundles, registered, s).Some?
    }

    ghost function Wanted(s: Settings): Config
      requires Acceptable(s)
      reads this`bundles, this`registered
    {
      Meant(ofproto, bundles, registered, s).value
    }

    /** Resolves the settings, or says they are not acceptable. */
    method Resolve(s: Settings) returns (config: Option<Config>)
      ensures config == Meant(ofproto, bundles, registered, s)
    {
      var out := None;
      if s.out.Some? {
        if s.out.value.ofproto != ofproto { return None; }
        out := Find(bundles, s.out.value.aux);
        if out.Some? && out.value !in registered { return None; }
      }
      var ok, found := LookupBundles(s.srcs);
      if !ok { return None; }
      var srcs := LookupMultiple(found);
      assert srcs == Resolved(s.srcs, bundles, registered) by { SameIds(s.srcs, found, srcs, bundles, registered); }
      ok, found := LookupBundles(s.dsts);
      if !ok { return None; }
      var dsts := LookupMultiple(found);
      assert dsts == Resolved(s.dsts, bundles, registered) by { SameIds(s.dsts, found, dsts, bundles, registered); }
      config := Some(Config(srcs, dsts, out));
    }

    /** Gives a new mirror the first free slot, if there is one. */
    method Create(aux: Aux) returns (slot: Option<nat>)
      requires Valid() && aux !in Table(mirrors[..])
      modifies mirrors
      ensures Valid()
      ensures slot.None? <==> |Table(old(mirrors[..]))| == MAX_MIRRORS
      ensures slot.None? <==> Full(old(mirrors[..]))
      ensures slot.None? ==> mirrors[..] == old(mirrors[..])
      ensures slot.Some? ==>
                && FirstFree(old(mirrors[..]), slot.value) && slot.value < mirrors.Length
                && mirrors[..] == old(mirrors[..])[slot.value := Some(Mirror(slot.value, aux, Config({}, {}, None)))]
                && Table(mirrors[..]) == Table(old(mirrors[..]))[aux := Config({}, {}, None)]
    {
      hide Table, SlotsOk, Occupied;
      TableSize(mirrors[..]);
      slot := Scan();
      if slot.Some? {
        SlotsSize(mirrors[..]);
        Put(slot.value, Mirror(slot.value, aux, Config({}, {}, None)));
      }
    }

    /** Creates, modifies or (without settings) deletes a mirror.  `tooLong` and `commandFails` are
        how the command buffer and ovs-vsctl turn out. */
    method Set(aux: Aux, s: Option<Settings>, tooLong: bool, commandFails: bool) returns (rc: Rc)
      requires Valid()
      modifies mirrors, this`hasMirrors
      ensures Valid()
      ensures rc == EfBig <==> s.Some? && aux !in Table(old(mirrors[..])) && Full(old(mirrors[..]))
      ensures rc == EfBig <==> s.Some? && aux !in Table(old(mirrors[..])) && |Table(old(mirrors[..]))| == 32
      ensures rc == EfBig ==> mirrors[..] == old(mirrors[..])
      ensures rc == EInval <==> s.Some? && rc != EfBig && !Acceptable(s.value)
      ensures rc == Crashed <==>
                s.Some? && Crashes(Table(old(mirrors[..])), aux, Meant(ofproto, bundles, registered, s.value),
                                   Unprintable(bundles, s.value))
      ensures (rc == EMsgSize ==> tooLong) && (rc == CommandFailed ==> commandFails)
      ensures s.Some? && rc == Ok ==> Table(mirrors[..]) == Table(old(mirrors[..]))[aux := Wanted(s.value)]
      ensures s.Some? && rc != Crashed ==>
                var (was, config) := (Table(old(mirrors[..])), Meant(ofproto, bundles, registered, s.value));
                Table(mirrors[..]) == TableAfter(was, aux, config, tooLong || commandFails)
      // said of the settings alone: what the mirror has, what is turned away, and what crashes
      ensures s.Some? && rc == Ok ==>
                aux in Table(mirrors[..]) && Mirrors(Table(mirrors[..])[aux], s.value, bundles, registered)
      ensures rc == EInval <==> s.Some? && rc != EfBig && Foreign(s.value, ofproto, bundles, registered)
      ensures rc == Crashed ==> s.Some? && Nameless(s.value, bundles)
      ensures s.Some? && rc == Ok && Nameless(s.value, bundles) ==>
                if aux in Table(old(mirrors[..])) then Mirrors(Table(old(mirrors[..]))[aux], s.value, bundles,
                                                               registered)
                else Mirrors(Config({}, {}, None), s.value, bundles, registered)
      // a failed create leaves the table as it was, a failed modify takes this mirror away
      ensures s.None? || (rc != Ok && rc != EfBig && rc != Crashed) ==>
                Table(mirrors[..]) == Table(old(mirrors[..])) - {aux}
      // slots stay put, and a new mirror takes the first free one
      ensures forall i :: 0 <= i < mirrors.Length && mirrors[i] != old(mirrors[i]) ==>
                (if old(mirrors[i]).Some? then old(mirrors[i]).value.aux == aux else FirstFree(old(mirrors[..]), i))
      // settings that change nothing run no command
      ensures s.Some? && Acceptable(s.value) && aux in Table(old(mirrors[..]))
              && Table(old(mirrors[..]))[aux] == Wanted(s.value)
              ==> rc == Ok && mirrors[..] == old(mirrors[..]) && hasMirrors == old(hasMirrors)
    {
      hide Table, SlotsOk, Occupied, TableAfter, Meant, Crashes, Unprintable, Mirrors, Foreign, Nameless, Full;
      TableSize(mirrors[..]);
      if s.Some? { SetMirrors(Table(mirrors[..]), aux, ofproto, bundles, registered, s.value); }
      var slot := Lookup(aux);
      if s.None? {
        if slot.None? {
          TableKeeps(mirrors[..], aux);
          return Ok;
        }
        rc := if commandFails then CommandFailed else Ok;
        Destroy(aux);
        return;
      }
      if slot.None? {
        RoomOrNot(Table(mirrors[..]), aux, Meant(ofproto, bundles, registered, s.value), tooLong || commandFails);
        TableKeeps(mirrors[..], aux);
        slot := Create(aux);
        if slot.None? { return EfBig; }
      }
      KeyOf(mirrors[..], slot.value);
      rc := Configure(slot.value, aux, s.value, tooLong, commandFails);
    }

    /** The rest of a create or modify, once the mirror has slot `i`. */
    method Configure(i: nat, aux: Aux, s: Settings, tooLong: bool, commandFails: bool) returns (rc: Rc)
      requires Valid() && i < mirrors.Length && mirrors[i].Some? && mirrors[i].value.aux == aux
      modifies mirrors, this`hasMirrors
      ensures Valid() && rc != EfBig
      ensures rc == EInval <==> !Acceptable(s)
      ensures rc == Crashed <==>
                Crashes(Table(old(mirrors[..])), aux, Meant(ofproto, bundles, registered, s), Unprintable(bundles, s))
      ensures (rc == EMsgSize ==> tooLong) && (rc == CommandFailed ==> commandFails)
      ensures var was := Table(old(mirrors[..]));
              rc != Crashed ==>
                && Table(mirrors[..])
                  == TableAfter(was, aux, Meant(ofproto, bundles, registered, s), tooLong || commandFails)
                && Table(mirrors[..]) == if rc == Ok then was[aux := Wanted(s)] else was - {aux}
      ensures forall j :: 0 <= j < mirrors.Length && j != i ==> mirrors[j] == old(mirrors[j])
      ensures Acceptable(s) && old(mirrors[i]).value.config == Wanted(s)
              ==> rc == Ok && mirrors[..] == old(mirrors[..]) && hasMirrors == old(hasMirrors)
    {
      KeyOf(mirrors[..], i);
      OnlyAt(mirrors[..], i, aux);
      hide *;
      var config := Resolve(s);
      if config.None? {
        Destroy(aux);
        return EInval;
      }
      if mirrors[i].value.config == config.value {
        MapSame(Table(mirrors[..]), aux, config.value);
        return Ok;
      }
      var srcs := Named(s.srcs);
      var dsts := Named(s.dsts);
      if !srcs || !dsts || s.out.None? || s.out.value.aux !in bundles { return Crashed; }
      rc := Program(i, config.value, tooLong, commandFails);
    }

    /** Prints the names of the bundles; false when one is not there. */
    method Named(refs: seq<BundleRef>) returns (ok: bool)
      ensures ok <==> forall r :: r in refs ==> r.aux in bundles
    {
      for i := 0 to |refs|
        invariant forall k :: 0 <= k < i ==> refs[k].aux in bundles
      {
        if refs[i].aux !in bundles {
          assert refs[i] in refs;
          return false;
        }
      }
      ok := true;
    }

    /** A changed configuration is stored, then sent to the ASIC; a failure takes the mirror away. */
    method Program(i: nat, config: Config, tooLong: bool, commandFails: bool) returns (rc: Rc)
      requires Valid() && i < mirrors.Length && mirrors[i].Some?
      modifies mirrors, this`hasMirrors
      ensures Valid() && rc == if tooLong then EMsgSize else if commandFails then CommandFailed else Ok
      ensures var (aux, table) := (old(mirrors[i]).value.aux, Table(old(mirrors[..])));
              Table(mirrors[..]) == if rc == Ok then table[aux := config] else table - {aux}
      ensures forall j :: 0 <= j < mirrors.Length && j != i ==> mirrors[j] == old(mirrors[j])
    {
      hide Table, SlotsOk, Occupied;
      ghost var table := Table(mirrors[..]);
      var aux := mirrors[i].value.aux;
      KeyOf(mirrors[..], i);
      OnlyAt(mirrors[..], i, aux);
      Put(i, mirrors[i].value.(config := config));
      SomeOccupied(mirrors[..], i);
      hasMirrors := true;
      MapDrop(table, aux, config);
      if tooLong {
        Destroy(aux);
        return EMsgSize;
      }
      if commandFails {
        Destroy(aux);
        return CommandFailed;
      }
      rc := Ok;
    }

    method Put(i: nat, m: Mirror)
      requires Valid() && i < mirrors.Length && m.idx == i
      requires if mirrors[i].Some? then mirrors[i].value.aux == m.aux else m.aux !in Table(mirrors[..])
      modifies mirrors
      ensures Valid() && mirrors[..] == old(mirrors[..])[i := Some(m)]
      ensures Table(mirrors[..]) == Table(old(mirrors[..]))[m.aux := m.config]
    {
      TableSet(mirrors[..], i, m);
      mirrors[i] := Some(m);
      assert mirrors[..] == old(mirrors[..])[i := Some(m)];
      assert mirrors[..][i].Some?;
    }

    method Register(b: BundleId)
      requires Valid()
      modifies this`registered
      ensures Valid() && registered == old(registered) + {b}
    {
      registered := registered + {b};
    }

    method UnregisterSlot(i: nat, b: BundleId)
      requires Valid() && i < mirrors.Length
      modifies mirrors, this`hasMirrors, this`needRevalidate
      ensures Valid() && mirrors[i] == UnregisteredSlot(old(mirrors[i]), b)
      ensures forall k :: 0 <= k < mirrors.Length && k != i ==> mirrors[k] == old(mirrors[k])
    {
      if mirrors[i].Some? {
        var m := mirrors[i].value;
        KeyOf(mirrors[..], i);
        OnlyAt(mirrors[..], i, m.aux);
        hide Table, SlotsOk, Occupied;
        if m.config.out == Some(b) {
          Destroy(m.aux);
        } else if b in m.config.srcs {
          Put(i, m.(config := m.config.(srcs := m.config.srcs - {b})));
          needRevalidate := true;
        } else if b in m.config.dsts {
          Put(i, m.(config := m.config.(dsts := m.config.dsts - {b})));
          needRevalidate := true;
        } else {
          assert m.config.dsts - {b} == m.config.dsts;
        }
      }
    }

    /** Takes a bundle out of every mirror; mirrors that output to it are destroyed, the others are
        untouched unless it was a source or destination.  No reference is left if and only if no
        surviving mirror had it as both. */
    method Unregister(b: BundleId)
      requires Valid()
      modifies mirrors, this`registered, this`hasMirrors, this`needRevalidate
      ensures Valid() && registered == old(registered) - {b}
      ensures b !in old(registered) ==> mirrors[..] == old(mirrors[..])
      ensures b in old(registered) ==>
                forall i :: 0 <= i < mirrors.Length ==> mirrors[i] == UnregisteredSlot(old(mirrors[i]), b)
      // nothing but this bundle leaves a mirror, and from one side only
      ensures b in old(registered) ==>
                forall i :: 0 <= i < mirrors.Length ==> TakenOut(old(mirrors[i]), mirrors[i], b)
      ensures b in old(registered) ==>
                ((forall i :: 0 <= i < mirrors.Length ==> !Refers(mirrors[i], b)) <==>
                 (forall i :: 0 <= i < mirrors.Length ==> !KeepsBoth(old(mirrors[i]), b)))
      ensures var was := Table(old(mirrors[..]));
              Table(mirrors[..]) == if b in old(registered) then TableWithout(was, b) else was
    {
      if b !in registered {
        assert registered - {b} == registered;
        return;
      }
      for i := 0 to mirrors.Length
        invariant Valid() && registered == old(registered)
        invariant forall k :: 0 <= k < i ==> mirrors[k] == UnregisteredSlot(old(mirrors[k]), b)
        invariant forall k :: i <= k < mirrors.Length ==> mirrors[k] == old(mirrors[k])
      {
        UnregisterSlot(i, b);
      }
      registered := registered - {b};
      forall i | 0 <= i < mirrors.Length
        ensures mirrors[i] == UnregisteredSlot(old(mirrors[i]), b)
        ensures Refers(UnregisteredSlot(old(mirrors[i]), b), b) <==> KeepsBoth(old(mirrors[i]), b)
      {
        StillRefers(old(mirrors[i]), b);
      }
      forall i | 0 <= i < mirrors.Length ensures TakenOut(old(mirrors[i]), mirrors[i], b) {
        TakesOut(old(mirrors[i]), b);
      }
      TableUnregistered(old(mirrors[..]), mirrors[..], b);
    }

    /** Any sequence of calls and registrations; `ok` is false when the program crashes. */
    method Run(calls: seq<Call>) returns (ok: bool)
      requires Valid()
      modifies this, mirrors
      ensures ok <==> !AfterAll(ofproto, old(State()), calls).crashed
      ensures ok ==> Valid() && State() == AfterAll(ofproto, old(State()), calls) && |Table(mirrors[..])| <= MAX_MIRRORS
    {
      ghost var start := State();
      hide Table, SlotsOk, Occupied, FirstFree, Full, TableAfter, TableWithout, Meant, Crashes, Unprintable, Mirrors,
        Foreign, Nameless, TakenOut, UnregisteredSlot, KeepsBoth, Refers;
      assert calls[0..] == calls;
      for i := 0 to |calls|
        invariant Valid() && AfterAll(ofproto, State(), calls[i..]) == AfterAll(ofproto, start, calls)
      {
        ghost var next := After(ofproto, State(), calls[i]);
        assert calls[i..][0] == calls[i] && calls[i..][1..] == calls[i + 1..];
        match calls[i] {
          case Set(aux, s, tooLong, commandFails) =>
            var rc := Set(aux, s, tooLong, commandFails);
            if rc == Crashed {
              CrashedForGood(ofproto, next, calls[i + 1..]);
              return false;
            }
          case Register(key, b) =>
            bundles := bundles[key := b];
            Register(b);
          case Unregister(key, b) =>
            Unregister(b);
            bundles := bundles - {key};
        }
      }
      TableSize(mirrors[..]);
      ok := true;
    }
  }

  /** One bundle is both the source and the destination of a mirror; after it is unregistered the
      mirror still refers to it. */
  method DanglingRun() returns (m: MBridge)
    ensures m.Valid() && m.mirrors.Length == MAX_MIRRORS && Refers(m.mirrors[0], 1) && 1 !in m.registered
  {
    m := new MBridge(0);
    m.bundles := map[1 := 1, 2 := 2];
    m.Register(1);
    m.Register(2);
    var one, two := BundleRef(0, 1), BundleRef(0, 2);
    BothRefs(one, m.bundles, m.registered);
    SetFirst(m, 7, Settings([one], [one], Some(two)));
    m.Unregister(1);
  }

  /** A mirror of a registered bundle without an output crashes the program. */
  method NoOutputRun() returns (rc: Rc)
    ensures rc == Crashed
  {
    var m := new MBridge(0);
    m.bundles := map[1 := 1];
    m.Register(1);
    var s := Settings([BundleRef(0, 1)], [], None);
    BothRefs(s.srcs[0], m.bundles, m.registered);
    assert Resolved(s.dsts, m.bundles, m.registered) == {};
    TableEmpty(m.mirrors[..], 7);
    NotFull(m.mirrors[..]);
    TableSize(m.mirrors[..]);
    hide Table, SlotsOk, Occupied, Full, Resolved;
    rc := m.Set(7, Some(s), false, false);
  }

  /** The first mirror of a bridge. */
  method SetFirst(m: MBridge, aux: Aux, s: Settings)
    requires m.Valid() && m.Acceptable(s) && !Unprintable(m.bundles, s)
    requires forall i :: 0 <= i < m.mirrors.Length ==> m.mirrors[i].None?
    requires m.mirrors.Length == MAX_MIRRORS
    modifies m.mirrors, m`hasMirrors
    ensures m.Valid() && m.mirrors[0].Some? && m.mirrors[0].value.config == m.Wanted(s)
  {
    ghost var slots := m.mirrors[..];
    hide Table, SlotsOk, Occupied, FirstFree, Unprintable, Meant;
    NotFull(slots);
    TableSize(slots);
    TableEmpty(slots, aux);
    var rc := m.Set(aux, Some(s), false, false);
    NewInFirst(slots, m.mirrors[..], aux);
    KeyOf(m.mirrors[..], 0);
    assert m.mirrors[0] == m.mirrors[..][0];
  }

  lemma NotFull(slots: Slots)
    requires |slots| > 0 && forall i :: 0 <= i < |slots| ==> slots[i].None?
    ensures !Full(slots)
  {
    assert slots[0].None?;
  }

  lemma TableEmpty(slots: Slots, aux: Aux)
    requires SlotsOk(slots) && forall i :: 0 <= i < |slots| ==> slots[i].None?
    ensures aux !in Table(slots)
  {}

  lemma BothRefs(one: BundleRef, bundles: map<Aux, BundleId>, registered: set<BundleId>)
    requires one.aux in bundles && bundles[one.aux] in registered
    ensures Resolved([one], bundles, registered) == {bundles[one.aux]}
  {
    assert one in [one];
  }

  /** A key that is new to an empty table is in the first slot. */
  lemma NewInFirst(was: Slots, now: Slots, aux: Aux)
    requires SlotsOk(was) && SlotsOk(now) && aux in Table(now) && forall i :: 0 <= i < |was| ==> was[i].None?
    requires forall i :: 0 <= i < |was| && now[i] != was[i] ==>
               if was[i].Some? then was[i].value.aux == aux else FirstFree(was, i)
    ensures |now| > 0 && now[0].Some? && now[0].value.aux == aux
  {
    var i :| 0 <= i < |now| && now[i].Some? && now[i].value.aux == aux;
    assert FirstFree(was, i);
  }

  ghost predicate FirstFree(slots: Slots, i: nat) {
    i < |slots| && slots[i].None? && forall j :: 0 <= j < i ==> slots[j].Some?
  }

  lemma SameIds(refs: seq<BundleRef>, found: seq<Option<BundleId>>, ids: set<BundleId>, bundles: map<Aux, BundleId>,
                registered: set<BundleId>)
    requires |found| == |refs| && forall i :: 0 <= i < |refs| ==> found[i] == Find(bundles, refs[i].aux)
    requires forall b :: b in ids <==> b in registered && Some(b) in found
    ensures ids == Resolved(refs, bundles, registered)
  {
    forall b | b in ids ensures b in Resolved(refs, bundles, registered) {
      var i :| 0 <= i < |found| && found[i] == Some(b);
      assert refs[i] in refs;
    }
    forall b | b in Resolved(refs, bundles, registered) ensures b in ids {
      var r :| r in refs && r.aux in bundles && bundles[r.aux] == b;
      var i :| 0 <= i < |refs| && refs[i] == r;
      assert found[i] == Some(b);
    }
  }

  // ---------------------------------------------------------------- capacity

  ghost function KeysBelow(slots: Slots, n: nat): set<Aux>
    requires n <= |slots|
  {
    set i | 0 <= i < n && slots[i].Some? :: slots[i].value.aux
  }

  lemma KeysStep(slots: Slots, n: nat)
    requires SlotsOk(slots) && n < |slots|
    ensures if slots[n].Some? then
              && KeysBelow(slots, n + 1) == KeysBelow(slots, n) + {slots[n].value.aux}
              && slots[n].value.aux !in KeysBelow(slots, n)
            else KeysBelow(slots, n + 1) == KeysBelow(slots, n)
  {}

  lemma NoKeysYet(slots: Slots)
    ensures KeysBelow(slots, 0) == {}
  {}

  lemma {:induction false} CountKeys(slots: Slots, n: nat)
    requires SlotsOk(slots) && n <= |slots|
    ensures |KeysBelow(slots, n)| <= n
    ensures |KeysBelow(slots, n)| == n <==> forall i :: 0 <= i < n ==> slots[i].Some?
    decreases n
  {
    hide SlotsOk, KeysBelow;
    if n == 0 {
      NoKeysYet(slots);
    } else {
      CountKeys(slots, n - 1);
      KeysStep(slots, n - 1);
    }
  }

  /** There are never more than 32 mirrors, and the array is full exactly when there are 32. */
  lemma TableSize(slots: Slots)
    requires SlotsOk(slots)
    ensures |Table(slots)| <= MAX_MIRRORS
    ensures |Table(slots)| == MAX_MIRRORS <==> Full(slots)
  {
    CountKeys(slots, |slots|);
    assert Table(slots).Keys == KeysBelow(slots, |slots|);
  }
}
