/**
 * The registry of package `domain` (domain/registry.go): a map from service
 * name to the list of its instances, with a fixed lease. Time is an integer
 * clock passed in as `now`; the random pick of Fetch is an index `k`.
 */
module Domain {
  import opened Wrappers

  /** One registered instance of a service. */
  datatype Service = Service(name: string, address: string, lastRegister: int)

  datatype Error = NameAndAddressMandatory | NameMandatory | ServiceNotFound | ExpireDurationMandatory

  datatype Result<T> = Ok(value: T) | Err(error: Error)

  type Store = map<string, seq<Service>>

  /** An instance whose lease has run out at time `now`. */
  predicate Expired(s: Service, now: int, lease: int)
  {
    now > s.lastRegister + lease
  }

  /** No two instances of the list share an address. */
  ghost predicate UniqueAddresses(list: seq<Service>)
  {
    forall i, j :: 0 <= i < j < |list| ==> list[i].address != list[j].address
  }

  /** The list stored under `name`: non-empty, every record carries that
      name, and addresses are unique. */
  ghost predicate WellFormedList(name: string, list: seq<Service>)
  {
    && |list| > 0
    && (forall i :: 0 <= i < |list| ==> list[i].name == name)
    && UniqueAddresses(list)
  }

  /** The invariant of the map: no empty name, and each list well formed. */
  ghost predicate WellFormed(m: Store)
  {
    forall n :: n in m ==> n != "" && WellFormedList(n, m[n])
  }

  /** Index of the first record with `address`, as the search loops of
      Register and Unregister find it. */
  function FindAddress(list: seq<Service>, address: string): (r: Option<nat>)
    ensures r.Some? ==> r.value < |list| && list[r.value].address == address
    ensures r.Some? ==> forall j :: 0 <= j < r.value ==> list[j].address != address
    ensures r.None? ==> forall j :: 0 <= j < |list| ==> list[j].address != address
  {
    if list == [] then None
    else if list[0].address == address then Some(0)
    else match FindAddress(list[1..], address)
      case None => None
      case Some(i) => Some(i + 1)
  }

  /** remove: the last element overwrites position `i` and the list loses
      its last slot. */
  function Remove(s: seq<Service>, i: nat): (r: seq<Service>)
    requires i < |s|
    ensures |r| == |s| - 1
    ensures forall j :: 0 <= j < |r| && j != i ==> r[j] == s[j]
    ensures i < |r| ==> r[i] == s[|s| - 1]
  {
    s[i := s[|s| - 1]][..|s| - 1]
  }

  /** remove takes exactly the record at `i` out of the list. */
  lemma RemoveMultiset(s: seq<Service>, i: nat)
    requires i < |s|
    ensures multiset(Remove(s, i)) == multiset(s) - multiset{s[i]}
  {
    var r := Remove(s, i);
    assert s == s[..i] + [s[i]] + s[i + 1..];
    if i == |s| - 1 {
      assert r == s[..i];
    } else {
      assert r == s[..i] + [s[|s| - 1]] + s[i + 1..|s| - 1];
      assert s[i + 1..] == s[i + 1..|s| - 1] + [s[|s| - 1]];
    }
  }

  /** The map after a successful Register(name, address) at `now`. */
  function Registered(m: Store, name: string, address: string, now: int): Store
  {
    var list := if name in m then m[name] else [];
    if FindAddress(list, address).Some? then m
    else m[name := list + [Service(name, address, now)]]
  }

  /** The map after Unregister(name, address) for a known name. */
  function Unregistered(m: Store, name: string, address: string): Store
    requires name in m
  {
    var list := m[name];
    var list' := match FindAddress(list, address)
      case Some(i) => Remove(list, i)
      case None => list;
    if |list'| == 0 then m - {name} else m[name := list']
  }

  /** The instances of a list still alive at `now`, in order. */
  function Live(list: seq<Service>, now: int, lease: int): (r: seq<Service>)
    ensures |r| <= |list|
    ensures forall s :: s in r <==> s in list && !Expired(s, now, lease)
  {
    if list == [] then []
    else if Expired(list[0], now, lease) then Live(list[1..], now, lease)
    else [list[0]] + Live(list[1..], now, lease)
  }

  /** Register keeps the three invariants. */
  lemma RegisteredWellFormed(m: Store, name: string, address: string, now: int)
    requires WellFormed(m)
    requires name != "" && address != ""
    ensures WellFormed(Registered(m, name, address, now))
  {
    var list := if name in m then m[name] else [];
    if FindAddress(list, address).None? {
      var list' := list + [Service(name, address, now)];
      assert forall i :: 0 <= i < |list| ==> list'[i] == list[i];
      assert WellFormedList(name, list');
    }
  }

  /** A new (name, address) pair is appended as exactly one record at the
      end of that name's list; an existing pair leaves the whole map as it
      was, timestamp included. */
  lemma RegisteredEffect(m: Store, name: string, address: string, now: int)
    ensures var list := if name in m then m[name] else [];
      var m' := Registered(m, name, address, now);
      && name in m'
      && (forall n :: n != name ==> (n in m' <==> n in m) && (n in m ==> m'[n] == m[n]))
      && ((exists i :: 0 <= i < |list| && list[i].address == address) ==> m' == m)
      && ((forall i :: 0 <= i < |list| ==> list[i].address != address) ==>
            m'[name] == list + [Service(name, address, now)])
  {
    var list := if name in m then m[name] else [];
    if exists i :: 0 <= i < |list| && list[i].address == address {
      var i :| 0 <= i < |list| && list[i].address == address;
      assert FindAddress(list, address).Some?;
    }
  }

  /** Unregister of a present record removes exactly that record: the list
      shrinks by one, loses that record and nothing else, and the name goes
      when the list empties. Other names are untouched. */
  lemma UnregisteredRemovesRecord(m: Store, s: Service)
    requires WellFormed(m)
    requires s.name in m && s in m[s.name]
    ensures var m' := Unregistered(m, s.name, s.address);
      && (s.name in m' <==> |m[s.name]| > 1)
      && (s.name in m' ==>
            |m'[s.name]| == |m[s.name]| - 1 && multiset(m'[s.name]) == multiset(m[s.name]) - multiset{s})
      && (forall n :: n != s.name ==> (n in m' <==> n in m) && (n in m ==> m'[n] == m[n]))
  {
    var list := m[s.name];
    var k :| 0 <= k < |list| && list[k] == s;
    match FindAddress(list, s.address)
    case None =>
      assert false;
    case Some(i) =>
      RemoveMultiset(list, i);
      assert i == k;
  }

  /** An address missing under a known name changes nothing. */
  lemma UnregisteredUnknownAddress(m: Store, name: string, address: string)
    requires WellFormed(m)
    requires name in m
    requires forall i :: 0 <= i < |m[name]| ==> m[name][i].address != address
    ensures Unregistered(m, name, address) == m
  {
  }

  /** Unregister keeps the three invariants. */
  lemma UnregisteredWellFormed(m: Store, name: string, address: string)
    requires WellFormed(m)
    requires name in m
    ensures WellFormed(Unregistered(m, name, address))
  {
    var list := m[name];
    match FindAddress(list, address)
    case None =>
    case Some(i) =>
      var r := Remove(list, i);
      if |r| > 0 {
        forall a, b | 0 <= a < b < |r|
          ensures r[a].address != r[b].address
        {
          var a', b' := if a == i then |list| - 1 else a, if b == i then |list| - 1 else b;
          assert r[a] == list[a'] && r[b] == list[b'];
          assert a' != b';
          if a' < b' {
            assert list[a'].address != list[b'].address;
          } else {
            assert list[b'].address != list[a'].address;
          }
        }
        assert WellFormedList(name, r);
      }
  }

  /** Live of a list extended by one record. */
  lemma {:induction false} LiveSnoc(list: seq<Service>, x: Service, now: int, lease: int)
    ensures Live(list + [x], now, lease)
         == Live(list, now, lease) + (if Expired(x, now, lease) then [] else [x])
  {
    if list == [] {
      assert [] + [x] == [x];
    } else {
      assert (list + [x])[1..] == list[1..] + [x];
      LiveSnoc(list[1..], x, now, lease);
    }
  }

  /** The part of a name's list processed so far by the sweep has been
      filtered; the rest is still to come. */
  ghost function SweptPrefix(list: seq<Service>, i: nat, now: int, lease: int): seq<Service>
    requires i <= |list|
  {
    Live(list[..i], now, lease) + list[i..]
  }

  /** The list (or its absence) stored under `n`. */
  function ListOf(m: Store, n: string): seq<Service>
  {
    if n in m then m[n] else []
  }

  class ServiceRegistry {
    var services: Store
    const leaseDuration: int

    ghost predicate Valid()
      reads this
    {
      WellFormed(services)
    }

    /** initializeRegistry: an empty map and the given lease (the sweeping
        goroutine is not modelled). */
    constructor (lease: int)
      ensures Valid()
      ensures services == map[] && leaseDuration == lease
    {
      services := map[];
      leaseDuration := lease;
    }

    method Register(name: string, address: string, now: int) returns (err: Option<Error>)
      requires Valid()
      modifies this
      ensures Valid()
      ensures name == "" || address == "" ==> err == Some(NameAndAddressMandatory) && services == old(services)
      ensures name != "" && address != "" ==> err == None && services == Registered(old(services), name, address, now)
    {
      if |name| == 0 || |address| == 0 {
        return Some(NameAndAddressMandatory);
      }
      RegisteredWellFormed(services, name, address, now);
      var list := ListOf(services, name);
      if name !in services {
        services := services[name := []];
      }
      var i := 0;
      while i < |list|
        invariant 0 <= i <= |list|
        invariant list == ListOf(old(services), name)
        invariant services == old(services)[name := list]
        invariant forall j :: 0 <= j < i ==> list[j].address != address
      {
        var svc := list[i];
        if svc.address == address {
          // The refresh lands on the loop's copy, not on the stored record.
          svc := svc.(lastRegister := now);
          services := services[name := list];
          return None;
        }
        i := i + 1;
      }
      services := services[name := services[name] + [Service(name, address, now)]];
      return None;
    }

    /** Fetch picks services[k], where `k` stands for rand.Intn(len). */
    function Fetch(name: string, k: nat): (r: Result<Service>)
      reads this
      requires Valid()
      requires name in services ==> k < |services[name]|
      ensures name == "" ==> r == Err(NameMandatory)
      ensures name != "" && name !in services ==> r == Err(ServiceNotFound)
      ensures name != "" && name in services ==>
        r.Ok? && r.value in services[name] && r.value.name == name && r.value == services[name][k]
    {
      if |name| == 0 then Err(NameMandatory)
      else if name !in services then Err(ServiceNotFound)
      else Ok(services[name][k])
    }

    /** FetchAll hands out the whole map (a snapshot here). */
    function FetchAll(): (r: Store)
      reads this
      requires Valid()
      ensures WellFormed(r)
      ensures r.Keys == services.Keys && forall n :: n in r ==> r[n] == services[n]
    {
      services
    }

    method Unregister(name: string, address: string) returns (err: Option<Error>)
      requires Valid()
      modifies this
      ensures Valid()
      ensures name == "" ==> err == Some(NameMandatory) && services == old(services)
      ensures name != "" && name !in old(services) ==> err == Some(ServiceNotFound) && services == old(services)
      ensures name != "" && name in old(services) ==>
        err == None && services == Unregistered(old(services), name, address)
    {
      if |name| == 0 {
        return Some(NameMandatory);
      }
      if name !in services {
        return Some(ServiceNotFound);
      }
      UnregisteredWellFormed(services, name, address);
      var list := services[name];
      var i := 0;
      while i < |list|
        invariant 0 <= i <= |list|
        invariant services == old(services)
        invariant forall j :: 0 <= j < i ==> list[j].address != address
      {
        if list[i].address == address {
          services := services[name := Remove(services[name], i)];
          break;
        }
        i := i + 1;
      }
      if |services[name]| == 0 {
        services := services - {name};
      }
      return None;
    }

    /** unregisterExpiredServices at time `now`: every instance whose lease
        has run out is unregistered through Unregister; the others stay. */
    method UnregisterExpiredServices(now: int)
      requires Valid()
      modifies this
      ensures Valid()
      ensures forall n :: n in services <==> n in old(services) && Live(old(services)[n], now, leaseDuration) != []
      ensures forall n :: n in services ==>
        multiset(services[n]) == multiset(Live(old(services)[n], now, leaseDuration))
    {
      var snapshot := services;
      var names := snapshot.Keys;
      assert Progress(snapshot, services, names, now, leaseDuration);
      while names != {}
        invariant Valid() && WellFormed(snapshot)
        invariant names <= snapshot.Keys
        invariant Progress(snapshot, services, names, now, leaseDuration)
        decreases names
      {
        var n :| n in names;
        names := names - {n};
        SweepEnterName(snapshot, services, names, n, now, leaseDuration);
        SweepName(snapshot, names, n, now);
        SweepLeaveName(snapshot, services, names, n, now, leaseDuration);
      }
      SweepFinished(snapshot, services, now, leaseDuration);
    }

    /** The inner loop of the sweep: the records of `n` in the snapshot are
        visited in order, and the expired ones unregistered. */
    method SweepName(snapshot: Store, names: set<string>, n: string, now: int)
      requires Valid() && WellFormed(snapshot)
      requires n in snapshot && n !in names
      requires InnerProgress(snapshot, services, names, n, 0, now, leaseDuration)
      modifies this
      ensures Valid()
      ensures InnerProgress(snapshot, services, names, n, |snapshot[n]|, now, leaseDuration)
    {
      var list := snapshot[n];
      var i := 0;
      while i < |list|
        invariant 0 <= i <= |list|
        invariant Valid()
        invariant InnerProgress(snapshot, services, names, n, i, now, leaseDuration)
      {
        var instance := list[i];
        if Expired(instance, now, leaseDuration) {
          SweepExpired(snapshot, services, names, n, i, now, leaseDuration);
          var _ := Unregister(instance.name, instance.address);
        } else {
          SweepLive(snapshot, services, names, n, i, now, leaseDuration);
        }
        i := i + 1;
      }
    }
  }

  /** A name the sweep has finished with holds exactly its live records. */
  ghost predicate Done(m0: Store, m: Store, n: string, now: int, lease: int)
    requires n in m0
  {
    && (n in m <==> Live(m0[n], now, lease) != [])
    && multiset(ListOf(m, n)) == multiset(Live(m0[n], now, lease))
  }

  /** The sweep over the snapshot `m0`, between two names: the names in
      `todo` are untouched, all others are done. */
  ghost predicate Progress(m0: Store, m: Store, todo: set<string>, now: int, lease: int)
  {
    && m.Keys <= m0.Keys
    && (forall n :: n in m0 && n !in todo ==> Done(m0, m, n, now, lease))
    && (forall n :: n in m0 && n in todo ==> n in m && m[n] == m0[n])
  }

  /** The sweep inside name `cur`, whose first `i` records are processed. */
  ghost predicate InnerProgress(m0: Store, m: Store, todo: set<string>, cur: string, i: nat, now: int, lease: int)
  {
    && cur in m0 && cur !in todo && i <= |m0[cur]|
    && m.Keys <= m0.Keys
    && (forall n :: n in m0 && n !in todo && n != cur ==> Done(m0, m, n, now, lease))
    && (forall n :: n in m0 && n in todo ==> n in m && m[n] == m0[n])
    && Partly(m0[cur], m, cur, i, now, lease)
  }

  /** The name `n` holds the first `i` records of `list` filtered and the
      rest untouched, up to order. */
  ghost predicate Partly(list: seq<Service>, m: Store, n: string, i: nat, now: int, lease: int)
    requires i <= |list|
  {
    && (n in m <==> SweptPrefix(list, i, now, lease) != [])
    && multiset(ListOf(m, n)) == multiset(SweptPrefix(list, i, now, lease))
  }

  lemma SweepEnterName(m0: Store, m: Store, todo: set<string>, n: string, now: int, lease: int)
    requires n in m0 && n !in todo && |m0[n]| > 0
    requires Progress(m0, m, todo + {n}, now, lease)
    ensures InnerProgress(m0, m, todo, n, 0, now, lease)
  {
    var list := m0[n];
    assert list[..0] == [] && list[0..] == list;
    assert Live([], now, lease) == [];
    assert [] + list == list;
    assert SweptPrefix(list, 0, now, lease) == list;
    assert n in todo + {n};
    assert n in m && m[n] == list;
    assert ListOf(m, n) == list;
    assert Partly(list, m, n, 0, now, lease);
    forall n' | n' in m0 && n' !in todo && n' != n
      ensures Done(m0, m, n', now, lease)
    {
      assert n' !in todo + {n};
    }
    forall n' | n' in m0 && n' in todo
      ensures n' in m && m[n'] == m0[n']
    {
      assert n' in todo + {n};
    }
  }

  lemma SweepLeaveName(m0: Store, m: Store, todo: set<string>, n: string, now: int, lease: int)
    requires n in m0
    requires InnerProgress(m0, m, todo, n, |m0[n]|, now, lease)
    ensures Progress(m0, m, todo, now, lease)
  {
    var list := m0[n];
    assert list[..|list|] == list && list[|list|..] == [];
    assert SweptPrefix(list, |list|, now, lease) == Live(list, now, lease);
  }

  /** A live record is passed over. */
  lemma SweepLive(m0: Store, m: Store, todo: set<string>, n: string, i: nat, now: int, lease: int)
    requires n in m0 && i < |m0[n]|
    requires InnerProgress(m0, m, todo, n, i, now, lease)
    requires !Expired(m0[n][i], now, lease)
    ensures InnerProgress(m0, m, todo, n, i + 1, now, lease)
  {
    SweepStep(m0[n], i, now, lease);
  }

  /** With no name left to visit, every name holds exactly its live records. */
  lemma SweepFinished(m0: Store, m: Store, now: int, lease: int)
    requires Progress(m0, m, {}, now, lease)
    ensures forall n :: n in m <==> n in m0 && Live(m0[n], now, lease) != []
    ensures forall n :: n in m ==> multiset(m[n]) == multiset(Live(m0[n], now, lease))
  {
    forall n | n in m0
      ensures n in m <==> Live(m0[n], now, lease) != []
    {
      assert Done(m0, m, n, now, lease);
    }
  }

  /** Unregistering the expired record at position `i` of `list` advances
      the filtered view of its name by one record. */
  lemma UnregisterAdvancesName(list: seq<Service>, m: Store, n: string, i: nat, now: int, lease: int)
    requires WellFormed(m)
    requires i < |list| && list[i].name == n && Expired(list[i], now, lease)
    requires Partly(list, m, n, i, now, lease)
    ensures n in m && list[i] in m[n]
    ensures Partly(list, Unregistered(m, n, list[i].address), n, i + 1, now, lease)
  {
    var s := list[i];
    SweepStep(list, i, now, lease);
    assert s in multiset(ListOf(m, n));
    assert n in m;
    UnregisteredRemovesRecord(m, s);
    var m' := Unregistered(m, n, s.address);
    var before := SweptPrefix(list, i, now, lease);
    var after := SweptPrefix(list, i + 1, now, lease);
    assert |multiset(after)| == |multiset(before)| - 1;
    assert |after| == |m[n]| - 1;
    if n !in m' {
      assert multiset(after) == multiset{};
    }
  }

  /** Unregistering the expired record at position `i` of the current name
      advances the sweep by one record. */
  lemma SweepExpired(m0: Store, m: Store, todo: set<string>, n: string, i: nat, now: int, lease: int)
    requires WellFormed(m0) && WellFormed(m)
    requires n in m0 && i < |m0[n]|
    requires InnerProgress(m0, m, todo, n, i, now, lease)
    requires Expired(m0[n][i], now, lease)
    ensures var s := m0[n][i];
      s.name == n && s.name in m && s.name != ""
      && InnerProgress(m0, Unregistered(m, s.name, s.address), todo, n, i + 1, now, lease)
  {
    var s := m0[n][i];
    UnregisterAdvancesName(m0[n], m, n, i, now, lease);
    UnregisteredRemovesRecord(m, s);
    var m' := Unregistered(m, n, s.address);
    forall n' | n' in m0 && n' !in todo && n' != n
      ensures Done(m0, m', n', now, lease)
    {
      assert Done(m0, m, n', now, lease);
      assert ListOf(m', n') == ListOf(m, n');
    }
  }

  /** One step of the sweep over a name's list: an expired record leaves
      the filtered view, a live one stays. */
  lemma SweepStep(list: seq<Service>, i: nat, now: int, lease: int)
    requires i < |list|
    ensures Expired(list[i], now, lease) ==>
      list[i] in SweptPrefix(list, i, now, lease)
      && multiset(SweptPrefix(list, i + 1, now, lease))
         == multiset(SweptPrefix(list, i, now, lease)) - multiset{list[i]}
    ensures !Expired(list[i], now, lease) ==>
      SweptPrefix(list, i + 1, now, lease) == SweptPrefix(list, i, now, lease)
  {
    assert list[..i + 1] == list[..i] + [list[i]];
    LiveSnoc(list[..i], list[i], now, lease);
    assert list[i..] == [list[i]] + list[i + 1..];
  }

  /** CreateDiscovery: a zero lease is refused and no registry is built;
      any other lease gives an empty registry holding it. */
  method CreateDiscovery(leaseDuration: int) returns (registry: ServiceRegistry?, err: Option<Error>)
    ensures leaseDuration == 0 ==> registry == null && err == Some(ExpireDurationMandatory)
    ensures leaseDuration != 0 ==> err == None && registry != null && fresh(registry)
    ensures registry != null ==>
      registry.Valid() && registry.services == map[] && registry.leaseDuration == leaseDuration
  {
    if leaseDuration == 0 {
      return null, Some(ExpireDurationMandatory);
    }
    registry := new ServiceRegistry(leaseDuration);
    err := None;
  }

  /** Empty name and address are refused and nothing is stored. */
  method RegisterEmptyFails() returns (err: Option<Error>, all: Store)
    ensures err == Some(NameAndAddressMandatory) && all == map[]
  {
    var registry := new ServiceRegistry(1);
    err := registry.Register("", "", 0);
    all := registry.FetchAll();
  }

  /** Four addresses under one name give one service with four instances. */
  method OneServiceFourInstances() returns (all: Store)
    ensures all.Keys == {"TEST"} && |all["TEST"]| == 4
  {
    var registry := new ServiceRegistry(2);
    var _ := registry.Register("TEST", "ADDRESS1", 0);
    var _ := registry.Register("TEST", "ADDRESS2", 0);
    var _ := registry.Register("TEST", "ADDRESS3", 0);
    var _ := registry.Register("TEST", "ADDRESS4", 0);
    all := registry.FetchAll();
  }

  /** One address under each of four names gives four services. */
  method FourServicesOneInstanceEach() returns (all: Store)
    ensures all.Keys == {"TEST1", "TEST2", "TEST3", "TEST4"}
    ensures forall n :: n in all ==> |all[n]| == 1
  {
    var registry := new ServiceRegistry(2);
    var _ := registry.Register("TEST1", "ADDRESS", 0);
    var _ := registry.Register("TEST2", "ADDRESS", 0);
    var _ := registry.Register("TEST3", "ADDRESS", 0);
    var _ := registry.Register("TEST4", "ADDRESS", 0);
    all := registry.FetchAll();
  }

  /** After the lease of the only instance runs out and the sweep has run,
      both Fetch and Unregister of that name fail. */
  method ExpiredInstanceIsForgotten() returns (fetched: Result<Service>, unregistered: Option<Error>)
    ensures fetched == Err(ServiceNotFound)
    ensures unregistered == Some(ServiceNotFound)
  {
    var registry := new ServiceRegistry(1);
    var _ := registry.Register("TEST", "ADDRESS", 0);
    registry.UnregisterExpiredServices(4);
    fetched := registry.Fetch("TEST", 0);
    unregistered := registry.Unregister("TEST", "ADDRESS");
  }

  /** Registering the same pair again does not extend its lease: registered
      at 0 and again at 5 with a lease of 10, the instance is swept at 11. */
  method ReRegisterKeepsOldLease() returns (fetched: Result<Service>)
    ensures fetched == Err(ServiceNotFound)
  {
    var registry := new ServiceRegistry(10);
    var _ := registry.Register("TEST", "ADDRESS", 0);
    var _ := registry.Register("TEST", "ADDRESS", 5);
    registry.UnregisterExpiredServices(11);
    fetched := registry.Fetch("TEST", 0);
  }

  /** Unregistering the same pair twice succeeds once, then fails. */
  method UnregisterTwice() returns (first: Option<Error>, second: Option<Error>)
    ensures first == None && second == Some(ServiceNotFound)
  {
    var registry := new ServiceRegistry(1);
    var _ := registry.Register("TEST", "ADDRESS", 0);
    first := registry.Unregister("TEST", "ADDRESS");
    second := registry.Unregister("TEST", "ADDRESS");
  }
}
