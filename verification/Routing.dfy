/** From pipelines, sources and exporters to the address of the instance that owns them, with
    every hop cached; and the choice of any running instance in turn. */
module Routing {
  import opened Positions
  import opened Numerals
  import opened Rules

  datatype Result<T> = Ok(value: T) | Err

  datatype Instance = Instance(ip: string, port: nat, running: bool)

  /** The metadata rows. A pipeline bound to no instance holds 0. */
  datatype Db = Db(
    pipelines: map<nat, nat>,
    sources: map<nat, nat>,
    exporters: map<nat, nat>,
    instances: seq<(nat, Instance)>)

  const DEFAULT_PORT: nat := 8080
  const LOOPBACK: string := "127.0.0.1"

  function InstanceAddr(i: Instance): string {
    (if i.ip == "" then LOOPBACK else i.ip) + ":" + Digits(if i.port == 0 then DEFAULT_PORT else i.port, 10)
  }

  // ---- the chain without caches ------------------------------------------------------------

  function FindInstance(instances: seq<(nat, Instance)>, id: nat): Option<Instance> {
    if instances == [] then None
    else if instances[0].0 == id then Some(instances[0].1)
    else FindInstance(instances[1..], id)
  }

  function LoadAddr(db: Db, id: nat): Result<string> {
    var i := FindInstance(db.instances, id);
    if i.Some? then Ok(InstanceAddr(i.value)) else Err
  }

  function LoadBinding(db: Db, id: nat): Result<nat> {
    if id in db.pipelines && db.pipelines[id] != 0 then Ok(db.pipelines[id]) else Err
  }

  function LoadPipeline(owners: map<nat, nat>, id: nat): Result<nat> {
    if id in owners then Ok(owners[id]) else Err
  }

  function Addrs(db: Db): nat -> Result<string> {
    (id: nat) => LoadAddr(db, id)
  }

  function Bindings(db: Db): nat -> Result<nat> {
    (id: nat) => LoadBinding(db, id)
  }

  function Pipelines(owners: map<nat, nat>): nat -> Result<nat> {
    (id: nat) => LoadPipeline(owners, id)
  }

  /** The address of the instance bound to the pipeline. */
  function PipelineAddr(db: Db, id: nat): Result<string> {
    if id == 0 then Err
    else
      var i := LoadBinding(db, id);
      if i.Ok? then LoadAddr(db, i.value) else Err
  }

  /** The same through the pipeline of a source or exporter. */
  function OwnerAddr(db: Db, owners: map<nat, nat>, id: nat): Result<string> {
    if id == 0 || id !in owners then Err else PipelineAddr(db, owners[id])
  }

  // ---- caches ------------------------------------------------------------------------------

  /** A fresh entry, or else what the loader answers. */
  function Hop<V>(m: map<nat, (V, nat)>, key: nat, load: nat -> Result<V>, now: nat): Result<V> {
    if key in m && now < m[key].1 then Ok(m[key].0) else load(key)
  }

  class Cache<V(==)> {
    const ttl: nat
    var m: map<nat, (V, nat)>

    constructor (ttl: nat)
      ensures m == map[] && this.ttl == ttl
    {
      this.ttl, this.m := ttl, map[];
    }

    /** Whatever is cached is what the loader answers. */
    ghost predicate Agrees(load: nat -> Result<V>)
      reads this
    {
      forall k | k in m :: load(k) == Ok(m[k].0)
    }

    /** A fresh entry, or else what the loader answers, which is kept unless it is an error. */
    method GetOrLoad(key: nat, load: nat -> Result<V>, now: nat, later: nat) returns (r: Result<V>)
      requires now <= later
      modifies this
      ensures r == Hop(old(m), key, load, now)
      ensures m == if (key in old(m) && now < old(m)[key].1) || load(key).Err? then old(m)
                   else old(m)[key := (load(key).value, later + ttl)]
      ensures old(Agrees(load)) ==> r == load(key) && Agrees(load)
    {
      if key in m && now < m[key].1 {
        return Ok(m[key].0);
      }
      r := load(key);
      if r.Ok? {
        m := m[key := (r.value, later + ttl)];
      }
    }

    method Invalidate(key: nat)
      modifies this
      ensures m == old(m) - {key}
      ensures forall load | old(Agrees(load)) :: Agrees(load)
    {
      m := m - {key};
    }
  }

  /** Where the cached hops lead, fresh entries first and the rows behind them. */
  function Route(bindings: map<nat, (nat, nat)>, addrs: map<nat, (string, nat)>, db: Db, id: nat, now: nat): Result<string> {
    var i := if id == 0 then Err else Hop(bindings, id, Bindings(db), now);
    if i.Err? || i.value == 0 then Err else Hop(addrs, i.value, Addrs(db), now)
  }

  /** The same for a source or an exporter, through its pipeline. */
  function OwnerRoute(owners: map<nat, nat>, pipelines: map<nat, (nat, nat)>, bindings: map<nat, (nat, nat)>,
      addrs: map<nat, (string, nat)>, db: Db, id: nat, now: nat): Result<string> {
    var p := if id == 0 then Err else Hop(pipelines, id, Pipelines(owners), now);
    if p.Err? then Err else Route(bindings, addrs, db, p.value, now)
  }

  // ---- the resolver ------------------------------------------------------------------------

  /** Which address the counter picks. The conversion to a signed integer turns negative after
      2^63 calls, and a negative index that is not 0 does not exist. */
  datatype Pick = At(index: nat) | OutOfRange

  function PickAt(counter: nat, n: nat): Pick
    requires n >= 1 && counter < TWO64
  {
    if counter < TWO63 then At(counter % n)
    else if (TWO64 - counter) % n == 0 then At(0)
    else OutOfRange
  }

  function Addresses(instances: seq<(nat, Instance)>, all: bool): seq<string> {
    if instances == [] then []
    else
      var front, last := Addresses(instances[..|instances| - 1], all), instances[|instances| - 1].1;
      if all || last.running then front + [InstanceAddr(last)] else front
  }

  /** Running instances, or all when none is. */
  function Fleet(db: Db): seq<string> {
    if Addresses(db.instances, false) != [] then Addresses(db.instances, false) else Addresses(db.instances, true)
  }

  /** The addresses are those of the instances at these places, which are the running ones or all. */
  ghost predicate ListedAt(instances: seq<(nat, Instance)>, all: bool, addrs: seq<string>, places: seq<nat>) {
    && |places| == |addrs|
    && (forall k | 0 <= k < |places| :: places[k] < |instances| && addrs[k] == InstanceAddr(instances[places[k]].1))
    && (forall j, k | 0 <= j < k < |places| :: places[j] < places[k])
    && (forall i | 0 <= i < |instances| :: i in places <==> all || instances[i].1.running)
  }

  lemma ListedMore(instances: seq<(nat, Instance)>, all: bool, addrs: seq<string>, places: seq<nat>)
    requires instances != [] && ListedAt(instances[..|instances| - 1], all, addrs, places)
    ensures var n := |instances| - 1;
            var last := instances[n].1;
            if all || last.running then ListedAt(instances, all, addrs + [InstanceAddr(last)], places + [n])
            else ListedAt(instances, all, addrs, places)
  {
    var n := |instances| - 1;
    hide InstanceAddr;
    forall i | 0 <= i < n
      ensures i in places + [n] <==> all || instances[i].1.running
    {
      assert instances[..n][i] == instances[i];
    }
    assert n !in places;
    assert (places + [n])[|places|] == n;
  }

  lemma {:induction false} AddressesAre(instances: seq<(nat, Instance)>, all: bool) returns (places: seq<nat>)
    ensures ListedAt(instances, all, Addresses(instances, all), places)
  {
    places := [];
    if instances != [] {
      var n := |instances| - 1;
      places := AddressesAre(instances[..n], all);
      ListedMore(instances, all, Addresses(instances[..n], all), places);
      if all || instances[n].1.running {
        places := places + [n];
      }
    }
  }

  /** The fleet are the addresses of exactly the running instances, in the order of their rows; or
      of all instances, if none is running. */
  lemma FleetPrefersRunning(db: Db) returns (places: seq<nat>)
    ensures ListedAt(db.instances, forall i | 0 <= i < |db.instances| :: !db.instances[i].1.running, Fleet(db), places)
  {
    var running := AddressesAre(db.instances, false);
    if Addresses(db.instances, false) != [] {
      places := running;
      assert running[0] in running && db.instances[running[0]].1.running;
    } else {
      places := AddressesAre(db.instances, true);
      assert running == [];
    }
  }

  /** An instance without an address is taken to be on the same machine, one without a port to
      listen on the default one. */
  lemma InstanceDefaults(ip: string, port: nat, running: bool)
    requires ip != "" && port != 0
    ensures InstanceAddr(Instance("", 0, running)) == "127.0.0.1:8080"
    ensures InstanceAddr(Instance(ip, 0, running)) == ip + ":8080"
    ensures InstanceAddr(Instance("", port, running)) == "127.0.0.1:" + Digits(port, 10)
    ensures InstanceAddr(Instance(ip, port, running)) == ip + ":" + Digits(port, 10)
  {
    assert Digits(8, 10) == "8" && Digits(80, 10) == "80" && Digits(808, 10) == "808" && Digits(8080, 10) == "8080";
  }

  lemma {:induction false} InstanceFound(instances: seq<(nat, Instance)>, i: nat)
    requires i < |instances| && forall j, k | 0 <= j < k < |instances| :: instances[j].0 != instances[k].0
    ensures FindInstance(instances, instances[i].0) == Some(instances[i].1)
  {
    if i > 0 {
      InstanceFound(instances[1..], i - 1);
    }
  }

  lemma {:induction false} InstanceIsRow(instances: seq<(nat, Instance)>, id: nat) returns (i: nat)
    requires FindInstance(instances, id).Some?
    ensures i < |instances| && instances[i] == (id, FindInstance(instances, id).value)
  {
    if instances[0].0 == id {
      i := 0;
    } else {
      var k := InstanceIsRow(instances[1..], id);
      i := k + 1;
    }
  }

  /** The instance with this address is the one that the pipeline's row names. */
  ghost predicate BoundAt(db: Db, id: nat, a: string) {
    && id != 0 && id in db.pipelines && db.pipelines[id] != 0
    && exists i :: 0 <= i < |db.instances| && db.instances[i].0 == db.pipelines[id] && InstanceAddr(db.instances[i].1) == a
  }

  /** A pipeline, and a source or exporter through its pipeline, has an address if and only if it is
      bound to an instance that exists, and then that instance's. */
  lemma AddressOfOwner(db: Db, owners: map<nat, nat>, id: nat, a: string)
    requires forall j, k | 0 <= j < k < |db.instances| :: db.instances[j].0 != db.instances[k].0
    ensures PipelineAddr(db, id) == Ok(a) <==> BoundAt(db, id, a)
    ensures OwnerAddr(db, owners, id) == Ok(a) <==> id != 0 && id in owners && BoundAt(db, owners[id], a)
  {
    BoundPipeline(db, id, a);
    if id in owners {
      BoundPipeline(db, owners[id], a);
    }
  }

  lemma BoundPipeline(db: Db, id: nat, a: string)
    requires forall j, k | 0 <= j < k < |db.instances| :: db.instances[j].0 != db.instances[k].0
    ensures PipelineAddr(db, id) == Ok(a) <==> BoundAt(db, id, a)
  {
    if PipelineAddr(db, id) == Ok(a) {
      var i := InstanceIsRow(db.instances, db.pipelines[id]);
    }
    if BoundAt(db, id, a) {
      var i :| 0 <= i < |db.instances| && db.instances[i].0 == db.pipelines[id] && InstanceAddr(db.instances[i].1) == a;
      InstanceFound(db.instances, i);
    }
  }

  class Resolver {
    const pipelineToInstance: Cache<nat>
    const sourceToPipeline: Cache<nat>
    const exporterToPipeline: Cache<nat>
    const instanceToAddr: Cache<string>
    const anyTtl: nat
    var anyAddrs: seq<string>
    var anyExp: nat
    var rr: nat

    constructor (ttl: nat)
      ensures Valid() && forall db :: Agrees(db)
      ensures fresh(pipelineToInstance) && fresh(sourceToPipeline) && fresh(exporterToPipeline) && fresh(instanceToAddr)
    {
      pipelineToInstance := new Cache(ttl);
      sourceToPipeline := new Cache(ttl);
      exporterToPipeline := new Cache(ttl);
      instanceToAddr := new Cache(ttl);
      anyTtl, anyAddrs, anyExp, rr := ttl, [], 0, 0;
    }

    ghost predicate Valid()
      reads this
    {
      && pipelineToInstance != sourceToPipeline && sourceToPipeline != exporterToPipeline
      && exporterToPipeline != pipelineToInstance
      && rr < TWO64
    }

    /** Every cached hop is what the rows say. */
    ghost predicate Agrees(db: Db)
      reads this, pipelineToInstance, sourceToPipeline, exporterToPipeline, instanceToAddr
    {
      && pipelineToInstance.Agrees(Bindings(db))
      && sourceToPipeline.Agrees(Pipelines(db.sources))
      && exporterToPipeline.Agrees(Pipelines(db.exporters))
      && instanceToAddr.Agrees(Addrs(db))
      && (anyAddrs != [] ==> anyAddrs == Fleet(db))
    }

    method AddrForInstance(id: nat, db: Db, now: nat, later: nat) returns (r: Result<string>)
      requires Valid() && now <= later
      modifies instanceToAddr
      ensures r == if id == 0 then Err else Hop(old(instanceToAddr.m), id, Addrs(db), now)
      ensures old(Agrees(db)) ==> Agrees(db) && (id != 0 ==> r == LoadAddr(db, id))
    {
      if id == 0 {
        return Err;
      }
      r := instanceToAddr.GetOrLoad(id, Addrs(db), now, later);
    }

    method InstanceForPipeline(id: nat, db: Db, now: nat, later: nat) returns (r: Result<nat>)
      requires Valid() && now <= later
      modifies pipelineToInstance
      ensures r == if id == 0 then Err else Hop(old(pipelineToInstance.m), id, Bindings(db), now)
      ensures old(Agrees(db)) ==> Agrees(db) && (id != 0 ==> r == LoadBinding(db, id))
    {
      if id == 0 {
        return Err;
      }
      r := pipelineToInstance.GetOrLoad(id, Bindings(db), now, later);
    }

    method AddrForPipeline(id: nat, db: Db, now: nat, later: nat) returns (r: Result<string>)
      requires Valid() && now <= later
      modifies pipelineToInstance, instanceToAddr
      ensures r == Route(old(pipelineToInstance.m), old(instanceToAddr.m), db, id, now)
      ensures old(Agrees(db)) ==> Agrees(db) && r == PipelineAddr(db, id)
    {
      var i := InstanceForPipeline(id, db, now, later);
      if i.Err? {
        return Err;
      }
      r := AddrForInstance(i.value, db, now, later);
    }

    /** With unchanged rows the cached hops lead where the rows lead. */
    method AddrForSource(id: nat, db: Db, now: nat, later: nat) returns (r: Result<string>)
      requires Valid() && now <= later
      modifies sourceToPipeline, pipelineToInstance, instanceToAddr
      ensures r == OwnerRoute(db.sources, old(sourceToPipeline.m), old(pipelineToInstance.m), old(instanceToAddr.m), db, id, now)
      ensures old(Agrees(db)) ==> Agrees(db) && r == OwnerAddr(db, db.sources, id)
    {
      if id == 0 {
        return Err;
      }
      var p := sourceToPipeline.GetOrLoad(id, Pipelines(db.sources), now, later);
      if p.Err? {
        return Err;
      }
      r := AddrForPipeline(p.value, db, now, later);
    }

    method AddrForExporter(id: nat, db: Db, now: nat, later: nat) returns (r: Result<string>)
      requires Valid() && now <= later
      modifies exporterToPipeline, pipelineToInstance, instanceToAddr
      ensures r == OwnerRoute(db.exporters, old(exporterToPipeline.m), old(pipelineToInstance.m), old(instanceToAddr.m), db, id, now)
      ensures old(Agrees(db)) ==> Agrees(db) && r == OwnerAddr(db, db.exporters, id)
    {
      if id == 0 {
        return Err;
      }
      var p := exporterToPipeline.GetOrLoad(id, Pipelines(db.exporters), now, later);
      if p.Err? {
        return Err;
      }
      r := AddrForPipeline(p.value, db, now, later);
    }

    method RunningAddrs(db: Db, now: nat) returns (r: Result<seq<string>>)
      requires Valid()
      modifies this`anyAddrs, this`anyExp
      ensures Valid() && (r.Ok? ==> r.value != [] && r.value == anyAddrs)
      ensures r == (if old(anyAddrs) != [] && now < old(anyExp) then Ok(old(anyAddrs))
                    else if Fleet(db) != [] then Ok(Fleet(db)) else Err)
      ensures old(Agrees(db)) ==> Agrees(db)
    {
      if |anyAddrs| > 0 && now < anyExp {
        return Ok(anyAddrs);
      }
      var addrs := Addresses(db.instances, false);
      if |addrs| == 0 {
        addrs := Addresses(db.instances, true);
      }
      if |addrs| == 0 {
        return Err;
      }
      anyAddrs, anyExp := addrs, now + anyTtl;
      return Ok(addrs);
    }

    /** The next address in turn; None when there is an address but the index does not exist. */
    method AnyAddr(db: Db, now: nat) returns (r: Result<Option<string>>)
      requires Valid()
      modifies this`anyAddrs, this`anyExp, this`rr
      ensures Valid()
      ensures r.Ok? ==> rr == (old(rr) + 1) % TWO64 && anyAddrs != []
      ensures r.Ok? ==> r.value == Picked(anyAddrs, rr)
      ensures r.Err? ==> Fleet(db) == [] && rr == old(rr)
    {
      var addrs := RunningAddrs(db, now);
      if addrs.Err? {
        return Err;
      }
      rr := (rr + 1) % TWO64;
      return Ok(Picked(addrs.value, rr));
    }

    /** Forgets an instance's address and the running list. Which instance a pipeline is bound to
        stays cached, so a pipeline that moved is still looked for at its old instance. */
    method InvalidateInstance(id: nat)
      requires Valid()
      modifies this`anyExp, instanceToAddr
      ensures Valid() && anyExp == 0 && instanceToAddr.m == old(instanceToAddr.m) - {id}
      ensures forall db | old(Agrees(db)) :: Agrees(db)
      ensures pipelineToInstance.m == old(pipelineToInstance.m)
    {
      instanceToAddr.Invalidate(id);
      anyExp := 0;
    }
  }

  function Picked(addrs: seq<string>, counter: nat): Option<string>
    requires addrs != [] && counter < TWO64
  {
    match PickAt(counter, |addrs|)
    case At(k) => if k < |addrs| then Some(addrs[k]) else None
    case OutOfRange => None
  }

  // ---- taking turns ------------------------------------------------------------------------

  lemma {:induction false} ProductIsNoSmaller(k: nat, n: nat)
    requires k >= 1
    ensures k * n >= n
  {
    if k > 1 {
      ProductIsNoSmaller(k - 1, n);
      assert k * n == (k - 1) * n + n;
    }
  }

  /** Quotient and remainder are unique. */
  lemma SameQuotient(a: nat, b: nat, n: nat, r: nat, t: nat)
    requires a * n + r == b * n + t && r < n && t < n
    ensures r == t
  {
    if a < b {
      assert (b - a) * n == b * n - a * n;
      ProductIsNoSmaller(b - a, n);
    } else if b < a {
      assert (a - b) * n == a * n - b * n;
      ProductIsNoSmaller(a - b, n);
    }
  }

  lemma ModuloStep(x: nat, n: nat)
    requires n >= 1
    ensures (x + 1) % n == if x % n == n - 1 then 0 else x % n + 1
  {
    var q, m := x / n, x % n;
    var q', m' := (x + 1) / n, (x + 1) % n;
    assert q * n + m + 1 == q' * n + m';
    if m == n - 1 {
      assert (q + 1) * n == q * n + n;
      SameQuotient(q + 1, q', n, 0, m');
    } else {
      SameQuotient(q, q', n, m + 1, m');
    }
  }

  lemma {:induction false} ModuloAhead(x: nat, j: nat, n: nat)
    requires j < n
    ensures (x + j) % n == if x % n + j < n then x % n + j else x % n + j - n
  {
    if j > 0 {
      ModuloAhead(x, j - 1, n);
      ModuloStep(x + j - 1, n);
    }
  }

  /** The call j calls after the one at a counter, which goes on from 0 behind 2^64 - 1, picks k. */
  predicate Picks(counter: nat, n: nat, j: nat, k: nat)
    requires n >= 1
  {
    PickAt((counter + j) % TWO64, n) == At(k)
  }

  /** How many calls away the address k is, while the counter is below 2^63. */
  function Offset(counter: nat, n: nat, k: nat): nat
    requires n >= 1 && k < n
  {
    if k >= counter % n then k - counter % n else k + n - counter % n
  }

  lemma PicksBelow(counter: nat, n: nat, j: nat, k: nat)
    requires n >= 1 && k < n && j < n && counter + j < TWO63
    ensures Picks(counter, n, j, k) <==> j == Offset(counter, n, k)
  {
    ModuloAhead(counter, j, n);
  }

  /** From 2^63 on only the first address is ever picked. */
  lemma PicksAbove(counter: nat, n: nat, j: nat, k: nat)
    requires n >= 1 && TWO63 <= counter + j < TWO64
    ensures Picks(counter, n, j, k) <==> k == 0 && (TWO64 - (counter + j)) % n == 0
  {
  }

  lemma LastOffsets(counter: nat, n: nat, d: nat)
    requires 1 <= d <= n
    ensures (counter + n - d) % n < n && Offset(counter, n, (counter + n - d) % n) == n - d
  {
    ModuloAhead(counter, n - d, n);
  }

  ghost predicate PickedOnce(counter: nat, n: nat, k: nat)
    requires n >= 1
  {
    && (exists j :: 0 <= j < n && Picks(counter, n, j, k))
    && (forall i, j | 0 <= i < n && 0 <= j < n && Picks(counter, n, i, k) && Picks(counter, n, j, k) :: i == j)
  }

  /** As many consecutive calls as there are addresses pick each address exactly once. */
  ghost predicate TakesTurns(counter: nat, n: nat)
    requires n >= 1
  {
    forall k | 0 <= k < n :: PickedOnce(counter, n, k)
  }

  lemma PickedAtOffset(counter: nat, n: nat)
    requires n >= 1
    requires forall j, k | 0 <= j < n && 0 <= k < n :: Picks(counter, n, j, k) <==> j == Offset(counter, n, k)
    ensures TakesTurns(counter, n)
  {
    forall k | 0 <= k < n
      ensures PickedOnce(counter, n, k)
    {
      assert Picks(counter, n, Offset(counter, n, k), k);
    }
  }

  lemma TurnsBelow(counter: nat, n: nat)
    requires n >= 1 && counter + n <= TWO63
    ensures TakesTurns(counter, n)
  {
    forall j, k | 0 <= j < n && 0 <= k < n
      ensures Picks(counter, n, j, k) <==> j == Offset(counter, n, k)
    {
      PicksBelow(counter, n, j, k);
    }
    PickedAtOffset(counter, n);
  }

  lemma TurnsOfOne(counter: nat)
    requires counter < TWO64
    ensures TakesTurns(counter, 1)
  {
    assert Picks(counter, 1, 0, 0);
  }

  /** The last of the calls is the first at 2^63. */
  lemma TurnsAtTheEdge(counter: nat, n: nat)
    requires n >= 2 && counter + n == TWO63 + 1
    ensures TakesTurns(counter, n) <==> TWO63 % n == 0
  {
    LastOffsets(counter, n, 1);
    assert counter + n - 1 == TWO63 && TWO64 - TWO63 == TWO63;
    if TWO63 % n == 0 {
      forall j, k | 0 <= j < n && 0 <= k < n
        ensures Picks(counter, n, j, k) <==> j == Offset(counter, n, k)
      {
        if j < n - 1 {
          PicksBelow(counter, n, j, k);
        } else {
          PicksAbove(counter, n, j, k);
          ModuloAhead(counter, j, n);
        }
      }
      PickedAtOffset(counter, n);
    } else {
      var k := TWO63 % n;
      forall j | 0 <= j < n
        ensures !Picks(counter, n, j, k)
      {
        if j < n - 1 {
          PicksBelow(counter, n, j, k);
        } else {
          PicksAbove(counter, n, j, k);
        }
      }
      assert !PickedOnce(counter, n, k);
    }
  }

  /** Two calls or more from 2^63 on leave an address out. */
  lemma NoTurnsBeyond(counter: nat, n: nat)
    requires n >= 2 && TWO63 + 2 <= counter + n <= TWO64
    ensures !TakesTurns(counter, n)
  {
    LastOffsets(counter, n, 1);
    LastOffsets(counter, n, 2);
    var a, b := (counter + n - 1) % n, (counter + n - 2) % n;
    var k := if a != 0 then a else b;
    assert k != 0;
    forall j | 0 <= j < n
      ensures !Picks(counter, n, j, k)
    {
      if counter + j < TWO63 {
        PicksBelow(counter, n, j, k);
      } else {
        PicksAbove(counter, n, j, k);
      }
    }
    assert !PickedOnce(counter, n, k);
  }

  /** When the calls carry the counter across 2^64, none before that picks anything, and those from
      0 on pick the addresses from the first on; the last one is left out. */
  lemma PicksAcross(counter: nat, n: nat, j: nat, k: nat)
    requires counter < TWO64 < counter + n && n <= TWO63 && j < n
    ensures Picks(counter, n, j, k) <==> counter + j == TWO64 + k
  {
    if counter + j < TWO64 {
      PicksAbove(counter, n, j, k);
      SmallModulo(TWO64 - (counter + j), n);
    } else {
      WrapsOnce(counter + j);
      PickAtSmall(counter + j - TWO64, n);
    }
  }

  lemma SmallModulo(x: nat, n: nat)
    requires x < n
    ensures x % n == x
  {
  }

  lemma WrapsOnce(v: nat)
    requires TWO64 <= v < 2 * TWO64
    ensures v % TWO64 == v - TWO64
  {
  }

  lemma PickAtSmall(w: nat, n: nat)
    requires w < n <= TWO63
    ensures PickAt(w, n) == At(w)
  {
    SmallModulo(w, n);
  }

  lemma NoTurnsAcross(counter: nat, n: nat)
    requires counter < TWO64 < counter + n && n <= TWO63
    ensures !TakesTurns(counter, n)
  {
    var k := n - 1;
    forall j | 0 <= j < n
      ensures !Picks(counter, n, j, k)
    {
      PicksAcross(counter, n, j, k);
    }
    assert !PickedOnce(counter, n, k);
  }

  /** As many consecutive calls as there are addresses pick each exactly once if and only if the
      counter stays below 2^63, or there is one address, or only the last call is at 2^63 and the
      number of addresses divides it. Calls that carry the counter across 2^64 never do. */
  lemma EveryAddressGetsItsTurn(counter: nat, n: nat)
    requires 1 <= n <= TWO63 && counter < TWO64
    ensures TakesTurns(counter, n) <==>
              counter + n <= TWO63 || n == 1 || (counter + n == TWO63 + 1 && TWO63 % n == 0)
  {
    if counter + n <= TWO63 {
      TurnsBelow(counter, n);
    } else if n == 1 {
      TurnsOfOne(counter);
    } else if counter + n == TWO63 + 1 {
      TurnsAtTheEdge(counter, n);
    } else if counter + n > TWO64 {
      NoTurnsAcross(counter, n);
    } else {
      NoTurnsBeyond(counter, n);
    }
  }

  /** An address is picked if and only if the counter is below 2^63 or the number of addresses
      divides what is left to 2^64. */
  lemma PickedExactly(addrs: seq<string>, counter: nat)
    requires addrs != [] && counter < TWO64
    ensures Picked(addrs, counter).Some? <==> counter < TWO63 || (TWO64 - counter) % |addrs| == 0
    ensures counter < TWO63 ==> Picked(addrs, counter) == Some(addrs[counter % |addrs|])
  {
  }

  /** With three instances the call that takes the counter to 2^63 has no address to return. */
  lemma NothingPickedAtTwo63(a: string, b: string, c: string)
    ensures Picked([a, b, c], TWO63) == None
  {
    assert TWO63 % 3 == 2;
  }

  // ---- after an invalidation ---------------------------------------------------------------

  /** No other instance answers at the address of this one. */
  ghost predicate OwnAddr(db: Db, i: nat) {
    LoadAddr(db, i).Ok? && forall j | j != i :: LoadAddr(db, j) != LoadAddr(db, i)
  }

  /** After the address of an instance has been invalidated, a pipeline whose cached binding to that
      instance is still fresh is led to the right address if and only if the row still binds it
      there: invalidating does not reach the binding. */
  lemma RouteAfterInvalidation(bindings: map<nat, (nat, nat)>, addrs: map<nat, (string, nat)>, db: Db, id: nat, i: nat, now: nat)
    requires id != 0 && i != 0 && OwnAddr(db, i)
    requires id in bindings && bindings[id].0 == i && now < bindings[id].1
    ensures Route(bindings, addrs - {i}, db, id, now) == LoadAddr(db, i)
    ensures Route(bindings, addrs - {i}, db, id, now) == PipelineAddr(db, id) <==> LoadBinding(db, id) == Ok(i)
  {
  }

  /** Once the binding has expired the rows decide. */
  lemma RouteAfterExpiry(bindings: map<nat, (nat, nat)>, addrs: map<nat, (string, nat)>, db: Db, id: nat, now: nat)
    requires id in bindings ==> bindings[id].1 <= now
    requires forall i | LoadBinding(db, id) == Ok(i) :: i !in addrs || addrs[i].1 <= now || LoadAddr(db, i) == Ok(addrs[i].0)
    ensures Route(bindings, addrs, db, id, now) == PipelineAddr(db, id)
  {
  }

  /** A pipeline that has moved from instance 1 to instance 2 is still sent to instance 1 after
      instance 1 has been invalidated, as long as its cached binding is fresh. */
  lemma MovedPipelineGoesToOldInstance(ttl: nat)
    requires ttl >= 1
    ensures var db := Db(map[7 := 2], map[], map[], [(1, Instance("old", 1, true)), (2, Instance("new", 1, true))]);
            var bindings := map[7 := (1, ttl)];
            Route(bindings, map[1 := ("old:1", ttl)] - {1}, db, 7, 0) == Ok("old:1") != PipelineAddr(db, 7)
  {
    var instances := [(1, Instance("old", 1, true)), (2, Instance("new", 1, true))];
    assert instances[1..][0].0 == 2;
    assert Digits(1, 10) == "1";
    assert InstanceAddr(Instance("old", 1, true)) == "old:1";
    assert InstanceAddr(Instance("new", 1, true)) == "new:1";
  }
}
