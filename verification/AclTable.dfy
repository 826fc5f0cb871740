/** The ACL table and its port bindings (src/ops-classifier-sim.c).

    Bindings sit in a hash map keyed by list id, and the code scans them by bucket: it compares
    interface names (and sometimes directions) but never list ids, so lists whose ids share a bucket
    see each other's bindings.  Everything here holds for any hash function and any bucket mask,
    and the mask may grow at every insertion. */
module AclTable {
  import opened Wrappers

  type Uuid = nat

  const MAX_ACE_IN_HASHMAP: nat := 512
  const UINT16: nat := 65536
  const LAG_ROLLBACK_TEST_ACL_NAME: string := "LAGRollbackACL"

  datatype Direction = In | Out

  datatype AclList = AclList(id: Uuid, name: string, numEntries: nat)

  /** An ACL applied to one interface of a port. */
  datatype Binding = Binding(listId: Uuid, ifName: string, direction: Direction, portName: string)

  datatype Interface = Interface(ofpPort: nat, name: string)
  datatype Bundle = Bundle(name: string, ports: seq<Interface>)

  datatype Rc = Success | NullList | Full | NotFound | PortError

  // ---------------------------------------------------------------- buckets

  function Bucket(hash: Uuid -> nat, mask: nat, id: Uuid): nat { hash(id) % (mask + 1) }

  predicate SameBucket(hash: Uuid -> nat, mask: nat, a: Uuid, b: Uuid) {
    Bucket(hash, mask, a) == Bucket(hash, mask, b)
  }

  /** A table grows by multiplying its number of buckets. */
  ghost predicate GrownFrom(mask': nat, mask: nat) {
    MultipleOf(mask' + 1, mask + 1)
  }

  ghost predicate MultipleOf(m: nat, n: nat) {
    exists k: nat :: k > 0 && m == Times(k, n)
  }

  function Times(k: nat, n: nat): nat { k * n }

  lemma {:induction false} ModDrop(n: nat, q: nat, r: nat)
    requires n > 0
    ensures (n * q + r) % n == r % n
  {
    if q > 0 {
      ModDrop(n, q - 1, r);
      assert n * q + r == (n * (q - 1) + r) + n;
      ModStep(n * (q - 1) + r, n);
    }
  }

  lemma ModStep(a: nat, n: nat)
    requires n > 0
    ensures (a + n) % n == a % n
  {
    var (q, r) := (a / n, a % n);
    var (q', r') := ((a + n) / n, (a + n) % n);
    assert a == n * q + r && a + n == n * q' + r';
    var x := q' - q - 1;
    assert n * x == n * q' - n * q - n;
    if x >= 1 { ProductAtLeast(n, x); }
    if x <= -1 { ProductAtLeast(n, -x); }
  }

  lemma {:induction false} ProductAtLeast(n: int, x: int)
    requires n > 0 && x >= 1
    decreases x
    ensures n * x >= n && n * -x == -(n * x)
  {
    if x > 1 {
      ProductAtLeast(n, x - 1);
      assert n * x == n * (x - 1) + n;
    }
  }

  lemma ModOfMultiple(a: nat, n: nat, k: nat)
    requires n > 0 && k > 0
    ensures k * n > 0 && a % n == (a % (k * n)) % n
  {
    assert k * n > 0 by { MulAtLeast(k, n); }
    ModOfProduct(a, n, k, k * n);
  }

  lemma ModOfProduct(a: nat, n: nat, k: nat, m: nat)
    requires n > 0 && k > 0 && m > 0 && m == k * n
    ensures a % n == (a % m) % n
  {
    var (q, r) := (a / m, a % m);
    assert a == m * q + r;
    assert m * q == n * (k * q) by { MulRegroup(k, n, q); }
    ModDrop(n, k * q, r);
  }

  lemma MulAtLeast(k: nat, n: nat)
    requires k > 0
    ensures k * n >= n
  {
    assert k * n == (k - 1) * n + n;
  }

  lemma MulRegroup(k: nat, n: nat, q: nat)
    ensures k * n * q == n * (k * q)
  {}

  /** Growing only splits buckets. */
  lemma GrowthSplits(hash: Uuid -> nat, mask: nat, mask': nat, a: Uuid, b: Uuid)
    requires GrownFrom(mask', mask) && SameBucket(hash, mask', a, b)
    ensures SameBucket(hash, mask, a, b)
  {
    var k: nat :| k > 0 && mask' + 1 == Times(k, mask + 1);
    ModOfMultiple(hash(a), mask + 1, k);
    ModOfMultiple(hash(b), mask + 1, k);
  }

  lemma GrowthComposes(m0: nat, m1: nat, m2: nat)
    requires GrownFrom(m1, m0) && GrownFrom(m2, m1)
    ensures GrownFrom(m2, m0)
  {
    var j: nat :| j > 0 && m1 + 1 == Times(j, m0 + 1);
    var k: nat :| k > 0 && m2 + 1 == Times(k, m1 + 1);
    MulAtLeast(k, j);
    MulRegroup(k, j, m0 + 1);
    assert k * (j * (m0 + 1)) == (k * j) * (m0 + 1) by { MulRegroup(j, k, m0 + 1); }
    assert m2 + 1 == Times(k * j, m0 + 1);
  }

  // ---------------------------------------------------------------- capacity

  /** The ACEs of all lists. */
  ghost function Total(acls: map<Uuid, AclList>): nat
    decreases acls.Keys
  {
    if acls == map[] then 0
    else
      var k :| k in acls;
      acls[k].numEntries + Total(acls - {k})
  }

  lemma {:induction false} TotalSplit(acls: map<Uuid, AclList>, id: Uuid)
    requires id in acls
    ensures Total(acls) == acls[id].numEntries + Total(acls - {id})
    decreases acls.Keys
  {
    var k :| k in acls && Total(acls) == acls[k].numEntries + Total(acls - {k});
    if k != id {
      TotalSplit(acls - {k}, id);
      TotalSplit(acls - {id}, k);
      assert acls - {k} - {id} == acls - {id} - {k};
    }
  }

  lemma TotalInsert(acls: map<Uuid, AclList>, l: AclList)
    requires l.id !in acls
    ensures Total(acls[l.id := l]) == Total(acls) + l.numEntries
  {
    TotalSplit(acls[l.id := l], l.id);
    assert acls[l.id := l] - {l.id} == acls;
  }

  /** The guard for a new list, on the 16-bit count. */
  predicate Fits(count: nat, n: nat) {
    count != MAX_ACE_IN_HASHMAP && count < MAX_ACE_IN_HASHMAP && MAX_ACE_IN_HASHMAP - count >= n
  }

  /** The guard turns a list away if the count is at the limit or the list would pass it. */
  lemma GuardMeans(total: nat, n: nat)
    ensures var count := total % 65536; !Fits(total % UINT16, n) <==> count >= 512 || count + n > 512
    ensures total < UINT16 ==> total % UINT16 == total
    ensures total <= MAX_ACE_IN_HASHMAP && Fits(total % UINT16, n) ==> total + n <= MAX_ACE_IN_HASHMAP
  {}

  /** The guard keeps the promised capacity exactly as long as the 16-bit count has not wrapped. */
  lemma GuardKeepsCapacity(total: nat, n: nat)
    requires Fits(total % UINT16, n)
    ensures total + n <= MAX_ACE_IN_HASHMAP <==> total < UINT16
  {}

  // ---------------------------------------------------------------- the bucket test

  /** `hmap_first_in_bucket` finds nothing. */
  ghost predicate BucketEmpty(hash: Uuid -> nat, mask: nat, bindings: set<Binding>, id: Uuid) {
    forall b :: b in bindings ==> !SameBucket(hash, mask, b.listId, id)
  }

  ghost predicate Unreferenced(bindings: set<Binding>, id: Uuid) {
    forall b :: b in bindings ==> b.listId != id
  }

  /** The test before a list is deleted: an empty bucket means no references. */
  lemma EmptyMeansUnreferenced(hash: Uuid -> nat, mask: nat, bindings: set<Binding>, id: Uuid)
    requires BucketEmpty(hash, mask, bindings, id)
    ensures Unreferenced(bindings, id)
  {
    forall b | b in bindings ensures b.listId != id { assert !SameBucket(hash, mask, b.listId, id); }
  }

  /** What a scan of the bucket of `id` for an interface stops at. */
  predicate Scanned(hash: Uuid -> nat, mask: nat, b: Binding, id: Uuid, ifName: string) {
    SameBucket(hash, mask, b.listId, id) && b.ifName == ifName
  }

  predicate Bound(hash: Uuid -> nat, mask: nat, bindings: set<Binding>, id: Uuid, ifName: string, dir: Direction) {
    exists b :: b in bindings && Scanned(hash, mask, b, id, ifName) && b.direction == dir
  }

  predicate SameKey(a: Binding, b: Binding) {
    a.listId == b.listId && a.ifName == b.ifName && a.direction == b.direction
  }

  ghost predicate UniqueKeys(bindings: set<Binding>) {
    forall a, b :: a in bindings && b in bindings && SameKey(a, b) ==> a == b
  }

  // ---------------------------------------------------------------- the same, of the tables alone

  /** A binding that scans for the list and the interface meet: hash, interface name, nothing else. */
  ghost predicate Meets(hash: Uuid -> nat, mask: nat, b: Binding, id: Uuid, ifName: string) {
    hash(b.listId) % (mask + 1) == hash(id) % (mask + 1) && b.ifName == ifName
  }

  ghost predicate Shows(hash: Uuid -> nat, mask: nat, bindings: set<Binding>, id: Uuid, ifName: string,
                        dir: Direction)
  {
    exists b :: b in bindings && Meets(hash, mask, b, id, ifName) && b.direction == dir
  }

  /** The interface is bound: if no binding was met there is one more, for the list and the bundle. */
  ghost predicate Joins(hash: Uuid -> nat, mask: nat, before: set<Binding>, after: set<Binding>, id: Uuid,
                        bundleName: string, p: Interface, dir: Direction)
  {
    && Shows(hash, mask, after, id, p.name, dir)
    && after == if Shows(hash, mask, before, id, p.name, dir) then before
                else before + {Binding(id, p.name, dir, bundleName)}
  }

  /** One of the bindings met is gone, if there were any. */
  ghost predicate Parts(hash: Uuid -> nat, mask: nat, before: set<Binding>, after: set<Binding>, id: Uuid,
                        p: Interface)
  {
    if exists b :: b in before && Meets(hash, mask, b, id, p.name) then
      exists b :: b in before && Meets(hash, mask, b, id, p.name) && after == before - {b}
    else after == before
  }

  /** Every interface is bound, and the new bindings are for them, for the list and for the bundle. */
  ghost predicate AllJoin(hash: Uuid -> nat, mask: nat, before: set<Binding>, after: set<Binding>, id: Uuid,
                          bundle: Bundle, dir: Direction)
  {
    && before <= after
    && (forall p :: p in bundle.ports ==> Shows(hash, mask, after, id, p.name, dir))
    && (forall b :: b in after && b !in before ==>
          && b.listId == id && b.direction == dir && b.portName == bundle.name
          && exists p :: p in bundle.ports && p.name == b.ifName)
  }

  /** What goes is met on one of the interfaces, and from each interface with a binding to meet one goes. */
  ghost predicate AllPart(hash: Uuid -> nat, mask: nat, before: set<Binding>, after: set<Binding>, id: Uuid,
                          ports: seq<Interface>)
  {
    && after <= before
    && (forall b :: b in before && b !in after ==> exists p :: p in ports && Meets(hash, mask, b, id, p.name))
    && (forall p, b :: p in ports && b in before && Meets(hash, mask, b, id, p.name) ==>
          exists c :: c in before && c !in after && Meets(hash, mask, c, id, p.name))
  }

  lemma MetIsScanned(hash: Uuid -> nat, mask: nat, bindings: set<Binding>, id: Uuid, ifName: string)
    ensures forall b :: Meets(hash, mask, b, id, ifName) <==> Scanned(hash, mask, b, id, ifName)
    ensures forall dir :: Shows(hash, mask, bindings, id, ifName, dir) <==> Bound(hash, mask, bindings, id, ifName, dir)
  {
    forall b ensures Meets(hash, mask, b, id, ifName) <==> Scanned(hash, mask, b, id, ifName) {}
    hide Meets, Scanned;
  }

  lemma NewJoins(hash: Uuid -> nat, mask: nat, before: set<Binding>, l: AclList, bundle: Bundle, p: Interface,
                 dir: Direction)
    ensures var after :=
              if Bound(hash, mask, before, l.id, p.name, dir) then before else before + {New(l, bundle, p, dir)};
            Joins(hash, mask, before, after, l.id, bundle.name, p, dir)
  {
    MetIsScanned(hash, mask, before, l.id, p.name);
    hide Bound, Scanned;
    if !Bound(hash, mask, before, l.id, p.name, dir) {
      assert Meets(hash, mask, New(l, bundle, p, dir), l.id, p.name);
    }
  }

  lemma OneParts(hash: Uuid -> nat, mask: nat, before: set<Binding>, after: set<Binding>, id: Uuid, p: Interface)
    requires RemovedOne(hash, mask, before, id, p, after)
    ensures Parts(hash, mask, before, after, id, p)
  {
    MetIsScanned(hash, mask, before, id, p.name);
    hide Meets, Scanned;
    if exists b :: b in before && Meets(hash, mask, b, id, p.name) {
      var b :| b in before && Scanned(hash, mask, b, id, p.name) && after == before - {b};
      assert Meets(hash, mask, b, id, p.name);
    }
  }

  lemma BindingsJoin(hash: Uuid -> nat, mask0: nat, mask1: nat, before: set<Binding>, after: set<Binding>, l: AclList,
                     bundle: Bundle, dir: Direction)
    requires before <= after
    requires OnlyMissing(hash, mask1, before, after, l, bundle, bundle.ports, dir)
    requires AllMissing(hash, mask0, before, after, l, bundle, bundle.ports, dir)
    ensures AllJoin(hash, mask0, before, after, l.id, bundle, dir)
  {
    forall p | p in bundle.ports ensures Shows(hash, mask0, after, l.id, p.name, dir) {
      MetIsScanned(hash, mask0, before, l.id, p.name);
      if Bound(hash, mask0, before, l.id, p.name, dir) {
        var b :| b in before && Meets(hash, mask0, b, l.id, p.name) && b.direction == dir;
        assert b in after;
      } else {
        assert Meets(hash, mask0, New(l, bundle, p, dir), l.id, p.name);
      }
    }
  }

  lemma RemovalParts(hash: Uuid -> nat, mask: nat, before: set<Binding>, after: set<Binding>, id: Uuid,
                     ports: seq<Interface>)
    requires OnePerPort(hash, mask, before, after, id, ports)
    ensures AllPart(hash, mask, before, after, id, ports)
  {
    forall b | b in before && b !in after ensures exists p :: p in ports && Meets(hash, mask, b, id, p.name) {
      var p :| p in ports && p.name == b.ifName;
      assert Meets(hash, mask, b, id, p.name);
    }
    forall p, b | p in ports && b in before && Meets(hash, mask, b, id, p.name)
      ensures exists c :: c in before && c !in after && Meets(hash, mask, c, id, p.name)
    {
      assert Scanned(hash, mask, b, id, p.name) && Hit(hash, mask, before, after, id, p);
      var c :| c in before && c !in after && Scanned(hash, mask, c, id, p.name);
      assert Meets(hash, mask, c, id, p.name);
    }
  }

  // ---------------------------------------------------------------- the tables

  class Classifier {
    const hash: Uuid -> nat
    var acls: map<Uuid, AclList>
    var bindings: set<Binding>
    var mask: nat

    ghost predicate Valid()
      reads this
    {
      && (forall id :: id in acls ==> acls[id].id == id)
      && (forall b :: b in bindings ==> b.listId in acls)
      && UniqueKeys(bindings)
    }

    constructor (hash: Uuid -> nat)
      ensures Valid() && acls == map[] && bindings == {} && this.hash == hash
    {
      this.hash := hash;
      acls, bindings, mask := map[], {}, 0;
    }

    /** `uint16_t` counting in whatever order the table gives. */
    method CurrentAceCount() returns (count: nat)
      ensures count == Total(acls) % UINT16
    {
      count := 0;
      var rest := acls;
      ghost var seen: nat := 0;
      while rest != map[]
        invariant rest.Keys <= acls.Keys && forall id :: id in rest ==> rest[id] == acls[id]
        invariant seen + Total(rest) == Total(acls) && count == seen % UINT16
        decreases rest.Keys
      {
        var id :| id in rest;
        TotalSplit(rest, id);
        count := (count + rest[id].numEntries) % UINT16;
        seen := seen + rest[id].numEntries;
        rest := rest - {id};
      }
    }

    /** Inserting a binding may also enlarge the table. */
    method Insert(b: Binding)
      modifies this`bindings, this`mask
      ensures bindings == old(bindings) + {b} && GrownFrom(mask, old(mask))
    {
      bindings := bindings + {b};
      var k: int := *;
      if k < 1 { k := 1; }
      MulAtLeast(k, mask + 1);
      mask := Times(k, mask + 1) - 1;
    }

    /** The loop over a bundle's ports: binds each one the bucket scan does not find. */
    method BindPorts(l: AclList, bundle: Bundle, direction: Direction) returns (portFound: bool)
      requires Valid() && l.id in acls
      modifies this`bindings, this`mask
      ensures Valid() && GrownFrom(mask, old(mask)) && old(bindings) <= bindings
      ensures portFound <==> bindings != old(bindings)
      ensures OnlyMissing(hash, mask, old(bindings), bindings, l, bundle, bundle.ports, direction)
      ensures AllMissing(hash, old(mask), old(bindings), bindings, l, bundle, bundle.ports, direction)
    {
      GrowthReflexive(mask);
      portFound := false;
      var ports := bundle.ports;
      for i := 0 to |ports|
        invariant Valid() && GrownFrom(mask, old(mask)) && old(bindings) <= bindings
        invariant portFound <==> bindings != old(bindings)
        invariant OnlyMissing(hash, mask, old(bindings), bindings, l, bundle, ports[..i], direction)
        invariant AllMissing(hash, old(mask), old(bindings), bindings, l, bundle, ports[..i], direction)
      {
        var p := ports[i];
        assert ports[..i + 1] == ports[..i] + [p];
        ghost var mask0, seen := mask, bindings;
        if !Bound(hash, mask, bindings, l.id, p.name, direction) {
          portFound := true;
          Insert(New(l, bundle, p, direction));
          GrowthComposes(old(mask), mask0, mask);
          BindOne(hash, old(mask), mask0, mask, old(bindings), seen, l, bundle, ports[..i], p, direction);
        } else {
          SkipOne(hash, old(mask), mask, old(bindings), bindings, l, bundle, ports[..i], p, direction);
        }
      }
      assert ports[..|ports|] == ports;
    }

    method Apply(list: Option<AclList>, bundle: Option<Bundle>, direction: Direction) returns (rc: Rc)
      requires Valid()
      modifies this`acls, this`bindings, this`mask
      ensures Valid() && GrownFrom(mask, old(mask)) && old(bindings) <= bindings
      // the list is created whenever it is new and fits, whatever happens next
      ensures acls
              == (if list.None? || list.value.id in old(acls) || !Fits(Total(old(acls)) % UINT16, list.value.numEntries)
                       then old(acls) else old(acls)[list.value.id := list.value])
      ensures rc == NullList <==> list.None?
      ensures rc == Full <==> list.Some? && list.value.id !in acls
      ensures rc == NotFound <==> list.Some? && list.value.id in acls && bundle.None?
      ensures rc == Success <==> bindings != old(bindings)
      ensures Total(old(acls)) <= MAX_ACE_IN_HASHMAP ==> Total(acls) <= MAX_ACE_IN_HASHMAP
      // below 65536 ACEs a new list is turned away exactly if the table is full or the list does not fit
      ensures list.Some? && list.value.id !in old(acls) && Total(old(acls)) < UINT16 ==>
                (rc == Full <==> Total(old(acls)) >= MAX_ACE_IN_HASHMAP
                                 || Total(old(acls)) + list.value.numEntries > MAX_ACE_IN_HASHMAP)
      ensures var count := Total(old(acls)) % 65536;
              rc == Full <==>
                list.Some? && list.value.id !in old(acls) && (count >= 512 || count + list.value.numEntries > 512)
      ensures rc == Success || rc == PortError ==>
                AllJoin(hash, old(mask), old(bindings), bindings, list.value.id, bundle.value, direction)
      ensures rc == Success || rc == PortError ==>
                && OnlyMissing(hash, mask, old(bindings), bindings, list.value, bundle.value, bundle.value.ports,
                               direction)
                && AllMissing(hash, old(mask), old(bindings), bindings, list.value, bundle.value, bundle.value.ports,
                              direction)
    {
      hide OnlyMissing, AllMissing, AllJoin, UniqueKeys, GrownFrom, Fits, Total;
      ghost var (mask0, bindings0) := (mask, bindings);
      GrowthReflexive(mask);
      if list.None? { return NullList; }
      var l := list.value;
      if l.id !in acls {
        var count := CurrentAceCount();
        GuardMeans(Total(acls), l.numEntries);
        if Fits(count, l.numEntries) {
          TotalInsert(acls, l);
          acls := acls[l.id := l];
        } else {
          return Full;
        }
      }
      if bundle.None? { return NotFound; }
      var portFound := BindPorts(l, bundle.value, direction);
      BindingsJoin(hash, mask0, mask, bindings0, bindings, l, bundle.value, direction);
      rc := if portFound then Success else PortError;
    }

    /** Drops the first binding of the interface that the bucket scan meets. */
    method RemoveBinding(listId: Uuid, p: Interface)
      requires UniqueKeys(bindings)
      modifies this`bindings
      ensures RemovedOne(hash, mask, old(bindings), listId, p, bindings) && UniqueKeys(bindings)
              && bindings <= old(bindings)
    {
      if b :| b in bindings && Scanned(hash, mask, b, listId, p.name) {
        bindings := bindings - {b};
      }
    }

    /** For each port, drops one binding of that interface from the bucket (of whichever list and
        direction the scan meets first), then drops the list if the bucket has become empty. */
    method Remove(listId: Uuid, bundle: Option<Bundle>) returns (rc: Rc)
      requires Valid()
      modifies this`acls, this`bindings
      ensures Valid()
      ensures rc == if listId in old(acls) && bundle.Some? then Success else NotFound
      ensures rc == NotFound ==> acls == old(acls) && bindings == old(bindings)
      ensures rc == Success ==> Removal(hash, mask, old(bindings), listId, bundle.value.ports, bindings)
      ensures rc == Success ==> acls == ListsLeft(hash, mask, old(acls), bindings, listId, bundle.value.ports)
      // in terms of the tables alone
      ensures rc == Success ==> AllPart(hash, mask, old(bindings), bindings, listId, bundle.value.ports)
      ensures rc == Success ==>
                acls == if bundle.value.ports != []
                           && forall b :: b in bindings ==> hash(b.listId) % (mask + 1) != hash(listId) % (mask + 1)
                        then old(acls) - {listId} else old(acls)
      ensures Total(acls) <= Total(old(acls))
    {
      hide Removal, RemovedOne, Total, UniqueKeys, OnePerPort, AllPart, SameBucket;
      if listId !in acls || bundle.None? { return NotFound; }
      TotalSplit(acls, listId);
      var ports := bundle.value.ports;
      NothingRemoved(hash, mask, bindings, listId);
      for i := 0 to |ports|
        invariant Valid()
        invariant Removal(hash, mask, old(bindings), listId, ports[..i], bindings)
        invariant acls == ListsLeft(hash, mask, old(acls), bindings, listId, ports[..i])
      {
        ghost var mid := bindings;
        RemoveBinding(listId, ports[i]);
        OneMoreRemoved(hash, mask, old(bindings), listId, ports, i, mid, bindings);
        if forall b :: b in bindings ==> !SameBucket(hash, mask, b.listId, listId) {
          EmptyMeansUnreferenced(hash, mask, bindings, listId);
          acls := acls - {listId};
        }
      }
      assert ports[..|ports|] == ports;
      RemovalOnePerPort(hash, mask, old(bindings), listId, ports, bindings);
      RemovalParts(hash, mask, old(bindings), bindings, listId, ports);
      ListsLeftAlone(hash, mask, old(acls), bindings, listId, ports);
      rc := Success;
    }

    /** A bundle gains or loses one interface while a list is applied to it. */
    method LagUpdate(list: Option<AclList>, bundle: Option<Bundle>, ofpPort: nat, add: bool, direction: Direction)
      returns (ok: bool)
      requires Valid()
      modifies this`bindings, this`mask
      ensures Valid() && GrownFrom(mask, old(mask))
      ensures ok <==>
                && list.Some? && !(direction == Out && add && list.value.name == "LAGRollbackACL")
                && list.value.id in acls && bundle.Some?
                && exists p :: p in bundle.value.ports && p.ofpPort == ofpPort
      ensures !ok ==> bindings == old(bindings)
      ensures ok && add ==>
                exists p :: (&& p in bundle.value.ports && p.ofpPort == ofpPort
                             && bindings == old(bindings) + AddedFor(hash, old(mask), old(bindings), list.value,
                                                                     bundle.value, p, direction))
      // in terms of the tables alone
      ensures ok ==>
                exists p :: (&& p in bundle.value.ports && p.ofpPort == ofpPort
                             && if add then
                                  Joins(hash, old(mask), old(bindings), bindings, list.value.id, bundle.value.name, p,
                                        direction)
                                else Parts(hash, old(mask), old(bindings), bindings, list.value.id, p))
      ensures ok && !add ==>
                exists p :: (&& p in bundle.value.ports && p.ofpPort == ofpPort
                             && RemovedOne(hash, old(mask), old(bindings), list.value.id, p, bindings))
    {
      GrowthReflexive(mask);
      if list.None? { return false; }
      var l := list.value;
      if direction == Out && add && l.name == LAG_ROLLBACK_TEST_ACL_NAME { return false; }
      if l.id !in acls || bundle.None? { return false; }
      var ports := bundle.value.ports;
      var i := 0;
      while i < |ports| && ports[i].ofpPort != ofpPort
        invariant i <= |ports| && forall p :: p in ports[..i] ==> p.ofpPort != ofpPort
      {
        assert ports[..i + 1] == ports[..i] + [ports[i]];
        i := i + 1;
      }
      assert ports[..|ports|] == ports;
      if i == |ports| { return false; }
      var p := ports[i];
      assert p in ports;
      if add {
        NewJoins(hash, mask, bindings, l, bundle.value, p, direction);
        if !Bound(hash, mask, bindings, l.id, p.name, direction) {
          Insert(New(l, bundle.value, p, direction));
        }
      } else {
        RemoveBinding(l.id, p);
        OneParts(hash, mask, old(bindings), bindings, l.id, p);
      }
      hide Joins, Parts, Bound, RemovedOne;
      ok := true;
    }

    /** Remove, then apply if that succeeded. */
    method Replace(listIdOrig: Uuid, listNew: AclList, bundle: Option<Bundle>, direction: Direction) returns (rc: Rc)
      requires Valid()
      modifies this`acls, this`bindings, this`mask
      ensures Valid()
      ensures !(listIdOrig in old(acls) && bundle.Some?) ==>
                rc == NotFound && acls == old(acls) && bindings == old(bindings)
      ensures Total(old(acls)) <= MAX_ACE_IN_HASHMAP ==> Total(acls) <= MAX_ACE_IN_HASHMAP
      ensures listIdOrig in old(acls) && bundle.Some? ==> exists mid ::
                && Removal(hash, old(mask), old(bindings), listIdOrig, bundle.value.ports, mid)
                && var kept := ListsLeft(hash, old(mask), old(acls), mid, listIdOrig, bundle.value.ports);
                   if listNew.id !in kept && !Fits(Total(kept) % UINT16, listNew.numEntries) then
                     rc == Full && acls == kept && bindings == mid
                   else
                     && acls == (if listNew.id in kept then kept else kept[listNew.id := listNew])
                     && rc == (if bindings != mid then Success else PortError)
                     && OnlyMissing(hash, mask, mid, bindings, listNew, bundle.value, bundle.value.ports, direction)
                     && AllMissing(hash, old(mask), mid, bindings, listNew, bundle.value, bundle.value.ports, direction)
    {
      rc := Remove(listIdOrig, bundle);
      if rc != Success { return; }
      ghost var mid := bindings;
      rc := Apply(Some(listNew), bundle, direction);
      assert Removal(hash, old(mask), old(bindings), listIdOrig, bundle.value.ports, mid);
    }

    /** Creates or overwrites a list; the capacity is not looked at. */
    method ListUpdate(list: AclList)
      requires Valid()
      modifies this`acls
      ensures Valid() && acls == old(acls)[list.id := list]
    {
      acls := acls[list.id := list];
    }

    /** Applying a new list to a bundle and removing it again restores both tables, provided nothing
        else sits in its bucket and the bundle's interfaces have distinct names. */
    method ApplyThenRemove(list: AclList, bundle: Bundle, direction: Direction)
      requires Valid() && list.id !in acls && BucketEmpty(hash, mask, bindings, list.id)
      requires forall p, q :: p in bundle.ports && q in bundle.ports && p.name == q.name ==> p == q
      modifies this`acls, this`bindings, this`mask
      ensures Valid()
      ensures Fits(Total(old(acls)) % UINT16, list.numEntries) && bundle.ports != []
              ==> acls == old(acls) && bindings == old(bindings)
    {
      hide OnlyMissing, AllMissing, Removal, OnePerPort, Total, UniqueKeys, BucketEmpty, GrownFrom;
      ghost var (acls0, bindings0, mask0) := (acls, bindings, mask);
      var rc := Apply(Some(list), Some(bundle), direction);
      if bundle.ports != [] && rc == PortError {
        SomeBound(hash, mask0, bindings0, bindings, list, bundle, direction);
      }
      if rc != Success {
        return;
      }
      ghost var (bound, mask1) := (bindings, mask);
      rc := Remove(list.id, Some(bundle));
      RemovalOnePerPort(hash, mask1, bound, list.id, bundle.ports, bindings);
      RoundTrip(hash, mask0, mask1, bindings0, bound, bindings, list, bundle, direction);
      if bundle.ports != [] {
        assert acls0[list.id := list] - {list.id} == acls0;
      }
    }

    /** Any sequence of calls.  The bound on the ACEs survives every call but a list update. */
    method Run(calls: seq<Call>)
      requires Valid()
      modifies this`acls, this`bindings, this`mask
      ensures Valid()
      ensures (forall c :: c in calls ==> !c.ListUpdate?) && Total(old(acls)) <= MAX_ACE_IN_HASHMAP
              ==> Total(acls) <= MAX_ACE_IN_HASHMAP
    {
      for i := 0 to |calls|
        invariant Valid()
        invariant (forall c :: c in calls[..i] ==> !c.ListUpdate?) && Total(old(acls)) <= MAX_ACE_IN_HASHMAP
                  ==> Total(acls) <= MAX_ACE_IN_HASHMAP
      {
        assert calls[..i + 1] == calls[..i] + [calls[i]];
        assert calls[i] in calls[..i + 1];
        match calls[i] {
          case Apply(list, bundle, direction) => var rc := Apply(list, bundle, direction);
          case Remove(id, bundle) => var rc := Remove(id, bundle);
          case LagUpdate(list, bundle, port, add, direction) => var ok := LagUpdate(list, bundle, port, add, direction);
          case Replace(id, list, bundle, direction) => var rc := Replace(id, list, bundle, direction);
          case ListUpdate(list) => ListUpdate(list);
        }
      }
      assert calls[..|calls|] == calls;
    }
  }

  /** The binding an interface joining a LAG gets, if the bucket shows none. */
  ghost function AddedFor(hash: Uuid -> nat, mask: nat, before: set<Binding>, l: AclList, bundle: Bundle, p: Interface,
                          dir: Direction): set<Binding>
  {
    if Bound(hash, mask, before, l.id, p.name, dir) then {} else {New(l, bundle, p, dir)}
  }

  /** Every new binding is for one of these ports, and nothing in the bucket stood for it. */
  ghost predicate OnlyMissing(hash: Uuid -> nat, mask: nat, before: set<Binding>, after: set<Binding>,
                              l: AclList, bundle: Bundle, ports: seq<Interface>, dir: Direction)
  {
    forall b :: b in after && b !in before ==>
      && (exists p :: p in ports && b == New(l, bundle, p, dir))
      && !Bound(hash, mask, before, l.id, b.ifName, dir)
  }

  /** Every one of these ports for which the bucket showed nothing is bound now. */
  ghost predicate AllMissing(hash: Uuid -> nat, mask: nat, before: set<Binding>, after: set<Binding>,
                             l: AclList, bundle: Bundle, ports: seq<Interface>, dir: Direction)
  {
    forall p :: p in ports && !Bound(hash, mask, before, l.id, p.name, dir) ==> New(l, bundle, p, dir) in after
  }

  lemma BindOne(hash: Uuid -> nat, m0: nat, m1: nat, m2: nat, before: set<Binding>, seen: set<Binding>,
                l: AclList, bundle: Bundle, ports: seq<Interface>, p: Interface, dir: Direction)
    requires GrownFrom(m1, m0) && GrownFrom(m2, m1) && before <= seen
    requires OnlyMissing(hash, m1, before, seen, l, bundle, ports, dir)
    requires AllMissing(hash, m0, before, seen, l, bundle, ports, dir)
    requires !Bound(hash, m1, seen, l.id, p.name, dir)
    ensures OnlyMissing(hash, m2, before, seen + {New(l, bundle, p, dir)}, l, bundle, ports + [p], dir)
    ensures AllMissing(hash, m0, before, seen + {New(l, bundle, p, dir)}, l, bundle, ports + [p], dir)
  {
    var after := seen + {New(l, bundle, p, dir)};
    forall b | b in after && b !in before
      ensures (exists q :: q in ports + [p] && b == New(l, bundle, q, dir))
              && !Bound(hash, m2, before, l.id, b.ifName, dir)
    {
      GrowthKeeps(hash, m1, m2, before, l.id, b.ifName, dir);
      if b !in seen {
        assert p in ports + [p];
      } else {
        var q :| q in ports && b == New(l, bundle, q, dir);
        assert q in ports + [p];
      }
    }
  }

  lemma SkipOne(hash: Uuid -> nat, m0: nat, m1: nat, before: set<Binding>, seen: set<Binding>,
                l: AclList, bundle: Bundle, ports: seq<Interface>, p: Interface, dir: Direction)
    requires GrownFrom(m1, m0) && before <= seen
    requires OnlyMissing(hash, m1, before, seen, l, bundle, ports, dir)
    requires AllMissing(hash, m0, before, seen, l, bundle, ports, dir)
    requires Bound(hash, m1, seen, l.id, p.name, dir)
    ensures OnlyMissing(hash, m1, before, seen, l, bundle, ports + [p], dir)
    ensures AllMissing(hash, m0, before, seen, l, bundle, ports + [p], dir)
  {
    forall b | b in seen && b !in before
      ensures (exists q :: q in ports + [p] && b == New(l, bundle, q, dir))
              && !Bound(hash, m1, before, l.id, b.ifName, dir)
    {
      var q :| q in ports && b == New(l, bundle, q, dir);
      assert q in ports + [p];
    }
    if !Bound(hash, m0, before, l.id, p.name, dir) {
      GrowthKeeps(hash, m0, m1, before, l.id, p.name, dir);
      var b :| b in seen && Scanned(hash, m1, b, l.id, p.name) && b.direction == dir;
      assert b !in before;
      var q :| q in ports && b == New(l, bundle, q, dir);
      assert b == New(l, bundle, p, dir);
    }
  }

  function New(l: AclList, bundle: Bundle, p: Interface, direction: Direction): Binding {
    Binding(l.id, p.name, direction, bundle.name)
  }

  /** A table that has grown shows no binding it did not show before. */
  lemma GrowthKeeps(hash: Uuid -> nat, mask: nat, mask': nat, bindings: set<Binding>, id: Uuid, ifName: string,
                    dir: Direction)
    requires GrownFrom(mask', mask)
    ensures Bound(hash, mask', bindings, id, ifName, dir) ==> Bound(hash, mask, bindings, id, ifName, dir)
  {
    if Bound(hash, mask', bindings, id, ifName, dir) {
      var b :| b in bindings && Scanned(hash, mask', b, id, ifName) && b.direction == dir;
      GrowthSplits(hash, mask, mask', b.listId, id);
      assert Scanned(hash, mask, b, id, ifName);
    }
  }

  lemma GrowthReflexive(mask: nat)
    ensures GrownFrom(mask, mask)
  {
    assert mask + 1 == Times(1, mask + 1);
  }

  datatype Call =
    | Apply(list: Option<AclList>, bundle: Option<Bundle>, direction: Direction)
    | Remove(id: Uuid, bundle: Option<Bundle>)
    | LagUpdate(list: Option<AclList>, bundle: Option<Bundle>, ofpPort: nat, add: bool, direction: Direction)
    | Replace(id: Uuid, listNew: AclList, bundle: Option<Bundle>, direction: Direction)
    | ListUpdate(l: AclList)

  /** What a removal does to the bindings: it takes only bindings of the bucket on these interfaces,
      at least one for each interface that has any, and no more than one a port in all. */
  ghost predicate OnePerPort(hash: Uuid -> nat, mask: nat, before: set<Binding>, after: set<Binding>,
                             id: Uuid, ports: seq<Interface>)
  {
    && after <= before && |before| <= |after| + |ports|
    && (forall b :: b in before && b !in after ==>
          SameBucket(hash, mask, b.listId, id) && exists p :: p in ports && p.name == b.ifName)
    && (forall p :: p in ports ==> Hit(hash, mask, before, after, id, p))
  }

  ghost predicate Hit(hash: Uuid -> nat, mask: nat, before: set<Binding>, after: set<Binding>, id: Uuid, p: Interface) {
    (exists b :: b in before && Scanned(hash, mask, b, id, p.name)) ==>
      exists b :: b in before && b !in after && Scanned(hash, mask, b, id, p.name)
  }

  lemma NoneYet(hash: Uuid -> nat, mask: nat, bindings: set<Binding>, id: Uuid)
    ensures OnePerPort(hash, mask, bindings, bindings, id, [])
  {}

  lemma RemoveOne(hash: Uuid -> nat, mask: nat, before: set<Binding>, seen: set<Binding>, id: Uuid,
                  ports: seq<Interface>, p: Interface, b: Binding)
    requires OnePerPort(hash, mask, before, seen, id, ports)
    requires b in seen && Scanned(hash, mask, b, id, p.name)
    ensures OnePerPort(hash, mask, before, seen - {b}, id, ports + [p])
  {
    var after := seen - {b};
    assert |seen| == |after| + 1;
    forall c | c in before && c !in after
      ensures SameBucket(hash, mask, c.listId, id) && exists q :: q in ports + [p] && q.name == c.ifName
    {
      if c == b {
        assert p in ports + [p];
      } else {
        var q :| q in ports && q.name == c.ifName;
        assert q in ports + [p];
      }
    }
    forall q | q in ports + [p] ensures Hit(hash, mask, before, after, id, q) {
      if q in ports {
        assert Hit(hash, mask, before, seen, id, q);
      } else {
        assert b in before && b !in after;
      }
    }
  }

  lemma RemoveNone(hash: Uuid -> nat, mask: nat, before: set<Binding>, seen: set<Binding>, id: Uuid,
                   ports: seq<Interface>, p: Interface)
    requires OnePerPort(hash, mask, before, seen, id, ports)
    requires forall b :: b in seen ==> !Scanned(hash, mask, b, id, p.name)
    ensures OnePerPort(hash, mask, before, seen, id, ports + [p])
  {
    forall c | c in before && c !in seen
      ensures SameBucket(hash, mask, c.listId, id) && exists q :: q in ports + [p] && q.name == c.ifName
    {
      var q :| q in ports && q.name == c.ifName;
      assert q in ports + [p];
    }
    forall q | q in ports + [p] ensures Hit(hash, mask, before, seen, id, q) {
      if q in ports { assert Hit(hash, mask, before, seen, id, q); }
    }
  }

  lemma SomeBound(hash: Uuid -> nat, mask: nat, before: set<Binding>, bound: set<Binding>, l: AclList, bundle: Bundle,
                  dir: Direction)
    requires BucketEmpty(hash, mask, before, l.id) && bundle.ports != []
    requires AllMissing(hash, mask, before, bound, l, bundle, bundle.ports, dir)
    ensures bound != before
  {
    assert bundle.ports[0] in bundle.ports;
  }

  lemma RoundTrip(hash: Uuid -> nat, mask0: nat, mask1: nat, before: set<Binding>, bound: set<Binding>,
                  after: set<Binding>, l: AclList, bundle: Bundle, dir: Direction)
    requires BucketEmpty(hash, mask0, before, l.id) && GrownFrom(mask1, mask0) && before <= bound
    requires OnlyMissing(hash, mask1, before, bound, l, bundle, bundle.ports, dir)
    requires OnePerPort(hash, mask1, bound, after, l.id, bundle.ports)
    requires forall p, q :: p in bundle.ports && q in bundle.ports && p.name == q.name ==> p == q
    ensures after == before && BucketEmpty(hash, mask1, after, l.id)
  {
    forall b | b in before ensures b in after && !SameBucket(hash, mask1, b.listId, l.id) {
      if SameBucket(hash, mask1, b.listId, l.id) {
        GrowthSplits(hash, mask0, mask1, b.listId, l.id);
      }
    }
    forall b | b in bound && b !in before ensures b !in after {
      var p :| p in bundle.ports && b == New(l, bundle, p, dir);
      assert Scanned(hash, mask1, b, l.id, p.name);
      assert Hit(hash, mask1, bound, after, l.id, p);
      var c :| c in bound && c !in after && Scanned(hash, mask1, c, l.id, p.name);
      assert c !in before;
      var q :| q in bundle.ports && c == New(l, bundle, q, dir);
    }
  }

  // ---------------------------------------------------------------- what a removal takes

  /** The scan for one port: it takes one of the bindings it may meet, if there are any. */
  ghost predicate RemovedOne(hash: Uuid -> nat, mask: nat, before: set<Binding>, id: Uuid, p: Interface,
                             after: set<Binding>)
  {
    if exists b :: b in before && Scanned(hash, mask, b, id, p.name) then
      exists b :: b in before && Scanned(hash, mask, b, id, p.name) && after == before - {b}
    else after == before
  }

  /** Every way a removal can go, port by port. */
  ghost predicate Removal(hash: Uuid -> nat, mask: nat, before: set<Binding>, id: Uuid, ports: seq<Interface>,
                          after: set<Binding>)
    decreases |ports|
  {
    if ports == [] then after == before
    else
      var front, last := ports[..|ports| - 1], ports[|ports| - 1];
      exists mid :: Removal(hash, mask, before, id, front, mid) && RemovedOne(hash, mask, mid, id, last, after)
  }

  /** The lists once the bindings are removed: this one goes if its bucket is empty. */
  ghost function ListsLeft(hash: Uuid -> nat, mask: nat, acls: map<Uuid, AclList>, bindings: set<Binding>, id: Uuid,
                           ports: seq<Interface>): map<Uuid, AclList>
  {
    if ports != [] && BucketEmpty(hash, mask, bindings, id) then acls - {id} else acls
  }

  lemma ListsLeftAlone(hash: Uuid -> nat, mask: nat, acls: map<Uuid, AclList>, bindings: set<Binding>, id: Uuid,
                       ports: seq<Interface>)
    ensures ListsLeft(hash, mask, acls, bindings, id, ports)
            == if ports != [] && forall b :: b in bindings ==> hash(b.listId) % (mask + 1) != hash(id) % (mask + 1)
               then acls - {id} else acls
  {
    assert forall b: Binding :: SameBucket(hash, mask, b.listId, id) <==>
                                hash(b.listId) % (mask + 1) == hash(id) % (mask + 1);
    hide SameBucket;
  }

  lemma NothingRemoved(hash: Uuid -> nat, mask: nat, bindings: set<Binding>, id: Uuid)
    ensures Removal(hash, mask, bindings, id, [], bindings)
  {}

  lemma OneMoreRemoved(hash: Uuid -> nat, mask: nat, before: set<Binding>, id: Uuid, ports: seq<Interface>, i: nat,
                       mid: set<Binding>, after: set<Binding>)
    requires i < |ports| && Removal(hash, mask, before, id, ports[..i], mid)
             && RemovedOne(hash, mask, mid, id, ports[i], after)
    ensures Removal(hash, mask, before, id, ports[..i + 1], after)
    ensures after <= mid
  {
    assert ports[..i + 1][..i] == ports[..i];
  }

  lemma {:induction false} RemovalOnePerPort(hash: Uuid -> nat, mask: nat, before: set<Binding>, id: Uuid,
                                             ports: seq<Interface>,
                                             after: set<Binding>)
    requires Removal(hash, mask, before, id, ports, after)
    ensures OnePerPort(hash, mask, before, after, id, ports)
    decreases |ports|
  {
    if ports == [] {
      NoneYet(hash, mask, before, id);
    } else {
      var front, p := ports[..|ports| - 1], ports[|ports| - 1];
      var mid :| Removal(hash, mask, before, id, front, mid) && RemovedOne(hash, mask, mid, id, p, after);
      RemovalOnePerPort(hash, mask, before, id, front, mid);
      assert ports == front + [p];
      if b :| b in mid && Scanned(hash, mask, b, id, p.name) && after == mid - {b} {
        RemoveOne(hash, mask, before, mid, id, front, p, b);
      } else {
        RemoveNone(hash, mask, before, mid, id, front, p);
      }
    }
  }

  /** A removal can always go some way. */
  lemma {:induction false} SomeRemoval(hash: Uuid -> nat, mask: nat, before: set<Binding>, id: Uuid,
                                       ports: seq<Interface>)
    returns (after: set<Binding>)
    ensures Removal(hash, mask, before, id, ports, after)
    decreases |ports|
  {
    if ports == [] {
      after := before;
    } else {
      var mid := SomeRemoval(hash, mask, before, id, ports[..|ports| - 1]);
      after := SomeRemovedOne(hash, mask, mid, id, ports[|ports| - 1]);
    }
  }

  lemma SomeRemovedOne(hash: Uuid -> nat, mask: nat, before: set<Binding>, id: Uuid, p: Interface)
    returns (after: set<Binding>)
    ensures RemovedOne(hash, mask, before, id, p, after)
  {
    if b :| b in before && Scanned(hash, mask, b, id, p.name) {
      after := before - {b};
    } else {
      after := before;
    }
  }

  /** On one of these interfaces. */
  predicate OnPorts(b: Binding, ports: seq<Interface>) { exists p :: p in ports && p.name == b.ifName }

  /** A binding the scans can meet can be taken. */
  lemma {:induction false} CanBeTaken(hash: Uuid -> nat, mask: nat, before: set<Binding>, id: Uuid,
                                      ports: seq<Interface>, b: Binding)
    returns (after: set<Binding>)
    requires b in before && SameBucket(hash, mask, b.listId, id) && OnPorts(b, ports)
    ensures Removal(hash, mask, before, id, ports, after) && b !in after
    decreases |ports|
  {
    var front, p := ports[..|ports| - 1], ports[|ports| - 1];
    assert ports == front + [p];
    if OnPorts(b, front) {
      var mid := CanBeTaken(hash, mask, before, id, front, b);
      after := SomeRemovedOne(hash, mask, mid, id, p);
      assert after <= mid;
    } else {
      var mid := SomeRemoval(hash, mask, before, id, front);
      RemovalOnePerPort(hash, mask, before, id, front, mid);
      assert b in mid && p.name == b.ifName && Scanned(hash, mask, b, id, p.name);
      after := mid - {b};
      assert RemovedOne(hash, mask, mid, id, p, after);
    }
  }

  /** Every removal of a list takes only the list's own bindings if and only if no binding of another
      list in its bucket is on one of the interfaces. */
  lemma RemovesOwnIff(hash: Uuid -> nat, mask: nat, before: set<Binding>, id: Uuid, ports: seq<Interface>)
    ensures (forall after, b :: Removal(hash, mask, before, id, ports, after) && b in before && b !in after ==>
             b.listId == id) <==>
            (forall b :: b in before && b.listId != id && SameBucket(hash, mask, b.listId, id) ==> !OnPorts(b, ports))
  {
    if b :| b in before && b.listId != id && SameBucket(hash, mask, b.listId, id) && OnPorts(b, ports) {
      var after := CanBeTaken(hash, mask, before, id, ports, b);
    } else {
      forall after, b | Removal(hash, mask, before, id, ports, after) && b in before && b !in after
        ensures b.listId == id
      {
        RemovalOnePerPort(hash, mask, before, id, ports, after);
        assert OnPorts(b, ports);
      }
    }
  }

  predicate DistinctNames(ports: seq<Interface>) {
    forall i, j :: 0 <= i < j < |ports| ==> ports[i].name != ports[j].name
  }

  lemma NotInFront(ports: seq<Interface>, b: Binding)
    requires DistinctNames(ports) && ports != [] && ports[|ports| - 1].name == b.ifName
    ensures !OnPorts(b, ports[..|ports| - 1])
  {}

  lemma KeepsOffPorts(hash: Uuid -> nat, mask: nat, before: set<Binding>, id: Uuid, ports: seq<Interface>,
                      after: set<Binding>,
                      b: Binding)
    requires Removal(hash, mask, before, id, ports, after) && b in before && !OnPorts(b, ports)
    ensures b in after
  {
    RemovalOnePerPort(hash, mask, before, id, ports, after);
  }

  /** With distinct interfaces a removal takes exactly one of the bindings each scan can meet. */
  lemma {:induction false} TakesOneEach(hash: Uuid -> nat, mask: nat, before: set<Binding>, id: Uuid,
                                        ports: seq<Interface>,
                                        after: set<Binding>, b: Binding, c: Binding)
    requires Removal(hash, mask, before, id, ports, after) && DistinctNames(ports)
    requires b in before && c in before && b != c && b.ifName == c.ifName
    ensures b in after || c in after
    decreases |ports|
  {
    if ports != [] {
      var front, p := ports[..|ports| - 1], ports[|ports| - 1];
      var mid :| Removal(hash, mask, before, id, front, mid) && RemovedOne(hash, mask, mid, id, p, after);
      TakesOneEach(hash, mask, before, id, front, mid, b, c);
      if p.name == b.ifName {
        NotInFront(ports, b);
        NotInFront(ports, c);
        KeepsOffPorts(hash, mask, before, id, front, mid, b);
        KeepsOffPorts(hash, mask, before, id, front, mid, c);
      }
    }
  }

  /** When a removed list's ACL goes: exactly if every binding in its bucket, its own or another list's,
      is on one of the interfaces (and there are some) and alone there.  Otherwise the ACL stays, also
      without a reference. */
  lemma ListGoesIff(hash: Uuid -> nat, mask: nat, acls: map<Uuid, AclList>, before: set<Binding>, id: Uuid,
                    ports: seq<Interface>, after: set<Binding>)
    requires id in acls && Removal(hash, mask, before, id, ports, after) && DistinctNames(ports)
    ensures id !in ListsLeft(hash, mask, acls, after, id, ports) <==>
            ports != [] && forall b :: b in before && SameBucket(hash, mask, b.listId, id) ==>
                             OnPorts(b, ports) && AloneThere(hash, mask, before, id, b)
  {
    BucketEmptiedIff(hash, mask, before, id, ports, after);
  }

  lemma BucketEmptiedIff(hash: Uuid -> nat, mask: nat, before: set<Binding>, id: Uuid, ports: seq<Interface>,
                         after: set<Binding>)
    requires Removal(hash, mask, before, id, ports, after) && DistinctNames(ports)
    ensures BucketEmpty(hash, mask, after, id) <==>
            forall b :: b in before && SameBucket(hash, mask, b.listId, id) ==>
                          OnPorts(b, ports) && AloneThere(hash, mask, before, id, b)
  {
    RemovalOnePerPort(hash, mask, before, id, ports, after);
    if BucketEmpty(hash, mask, after, id) {
      forall b | b in before && SameBucket(hash, mask, b.listId, id)
        ensures OnPorts(b, ports) && AloneThere(hash, mask, before, id, b)
      {
        forall c | c in before && SameBucket(hash, mask, c.listId, id) && c.ifName == b.ifName ensures c == b {
          if c != b { TakesOneEach(hash, mask, before, id, ports, after, b, c); }
        }
      }
    } else {
      var b :| b in after && SameBucket(hash, mask, b.listId, id);
      if OnPorts(b, ports) {
        var p :| p in ports && p.name == b.ifName;
        assert Scanned(hash, mask, b, id, p.name) && Hit(hash, mask, before, after, id, p);
        var c :| c in before && c !in after && Scanned(hash, mask, c, id, p.name);
        assert c != b && c.ifName == b.ifName;
      }
    }
  }

  ghost predicate AloneThere(hash: Uuid -> nat, mask: nat, before: set<Binding>, id: Uuid, b: Binding) {
    forall c :: c in before && SameBucket(hash, mask, c.listId, id) && c.ifName == b.ifName ==> c == b
  }

  // ---------------------------------------------------------------- runs that go wrong

  /** Two lists that share a bucket are applied to one interface in opposite directions and the second
      is removed: whichever binding the scan meets first, either the first list has lost its binding
      or the second list's ACL is left without one. */
  method SharedBucketRun() returns (c: Classifier)
    ensures c.Valid() && c.acls.Keys == {1, 2}
    ensures Unreferenced(c.bindings, 1) || Unreferenced(c.bindings, 2)
  {
    hide OnlyMissing, AllMissing, Bound, Removal, UniqueKeys, Total, BucketEmpty;
    c := new Classifier(_ => 0);
    var p, a, b := Interface(1, "1"), AclList(1, "a", 1), AclList(2, "b", 1);
    NoLists();
    TotalInsert(map[], a);
    TotalInsert(map[1 := a], b);
    ApplyAlone(c, p, a, In);
    assert c.acls == map[1 := a];
    ApplyAlone(c, p, b, Out);
    var (ofA, ofB) := (New(a, Bundle("1", [p]), p, In), New(b, Bundle("1", [p]), p, Out));
    assert c.bindings == {ofA, ofB} && c.acls == map[1 := a, 2 := b];
    var rc := c.Remove(2, Some(Bundle("1", [p])));
    OneOfTwo(c.hash, c.mask, ofA, ofB, p, c.bindings);
  }

  /** A new list for a port of one interface that has no binding in this direction. */
  method ApplyAlone(c: Classifier, p: Interface, l: AclList, direction: Direction)
    requires c.Valid() && l.id !in c.acls && Fits(Total(c.acls) % UINT16, l.numEntries)
    requires forall b :: b in c.bindings ==> b.direction != direction
    modifies c
    ensures c.Valid() && c.acls == old(c.acls)[l.id := l]
    ensures c.bindings == old(c.bindings) + {New(l, Bundle("1", [p]), p, direction)}
  {
    hide OnlyMissing, AllMissing, Bound, UniqueKeys, Total;
    BoundBy(c.hash, c.mask, c.bindings, l.id, p, direction);
    ghost var mask0 := c.mask;
    var rc := c.Apply(Some(l), Some(Bundle("1", [p])), direction);
    BindsOne(c.hash, mask0, c.mask, old(c.bindings), c.bindings, l, Bundle("1", [p]), p, direction);
  }

  lemma BoundBy(hash: Uuid -> nat, mask: nat, bindings: set<Binding>, id: Uuid, p: Interface, dir: Direction)
    requires forall b :: b in bindings ==> b.direction != dir
    ensures !Bound(hash, mask, bindings, id, p.name, dir)
  {}

  lemma BindsOne(hash: Uuid -> nat, mask0: nat, mask1: nat, before: set<Binding>, after: set<Binding>, l: AclList,
                 bundle: Bundle,
                 p: Interface, dir: Direction)
    requires bundle.ports == [p] && before <= after && !Bound(hash, mask0, before, l.id, p.name, dir)
    requires OnlyMissing(hash, mask1, before, after, l, bundle, bundle.ports, dir)
    requires AllMissing(hash, mask0, before, after, l, bundle, bundle.ports, dir)
    ensures after == before + {New(l, bundle, p, dir)}
  {}

  /** Where all ids share a bucket, removing the second list from the one interface of two bindings. */
  lemma OneOfTwo(hash: Uuid -> nat, mask: nat, ofA: Binding, ofB: Binding, p: Interface, after: set<Binding>)
    requires ofA.listId == 1 && ofB.listId == 2 && ofA.ifName == p.name == ofB.ifName && forall id :: hash(id) == 0
    requires Removal(hash, mask, {ofA, ofB}, 2, [p], after)
    ensures after == {ofA} || after == {ofB}
    ensures !BucketEmpty(hash, mask, after, 2)
  {
    var mid :| Removal(hash, mask, {ofA, ofB}, 2, [p][..0], mid) && RemovedOne(hash, mask, mid, 2, p, after);
    assert mid == {ofA, ofB};
    assert Scanned(hash, mask, ofA, 2, p.name);
    assert SameBucket(hash, mask, 1, 2) && SameBucket(hash, mask, 2, 2);
  }

  lemma NoLists()
    ensures Total(map[]) == 0
  {}

  /** List updates bring the total to 65536, which counts as 0: one more list is let in. */
  method WrappedCountRun() returns (c: Classifier)
    ensures c.Valid() && c.acls.Keys == {1, 2, 3} && Total(c.acls) == UINT16 + 1
  {
    c := new Classifier(_ => 0);
    var (a, b, one) := (AclList(1, "a", 32768), AclList(2, "b", 32768), AclList(3, "c", 1));
    NoLists();
    TotalInsert(map[], a);
    c.ListUpdate(a);
    TotalInsert(c.acls, b);
    c.ListUpdate(b);
    TotalInsert(c.acls, one);
    var rc := c.Apply(Some(one), None, In);
  }
}
