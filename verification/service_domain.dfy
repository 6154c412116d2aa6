/**
 * The registry of package `serviceDomain` (serviceDomain/registry.go and
 * serviceDomain/factory.go): a map from service name to the instances of
 * that service keyed by address, with a fixed lease. Time is an integer clock
 * passed in as `now`; the random pick of Fetch is an index `k`.
 */
module ServiceDomain {
  import opened Wrappers

  /** One registered instance (serviceDomain/service.go). */
  datatype Service = Service(name: string, address: string, lastRegister: int)

  /** The zero value Go yields for a missing map entry. */
  const ZeroService: Service := Service("", "", 0)

  /** The instances of one service, keyed by address. A nil inner map and an
      empty one behave alike here. */
  datatype ServiceInstances = ServiceInstances(instances: map<string, Service>)

  datatype Error = NameAndAddressMandatory | NameMandatory | ServiceNotFound | ExpireDurationMandatory

  type Store = map<string, ServiceInstances>

  /** An instance whose lease has run out at time `now`. */
  predicate Expired(s: Service, now: int, lease: int)
  {
    now > s.lastRegister + lease
  }

  /** No name is empty, and every stored record carries its outer key as
      name and its inner key as address. */
  ghost predicate Consistent(m: Store)
  {
    && (forall n :: n in m ==> n != "")
    && (forall n, a :: n in m && a in m[n].instances ==>
          m[n].instances[a].name == n && m[n].instances[a].address == a)
  }

  /** No service is stored without instances. */
  ghost predicate NoEmptyService(m: Store)
  {
    forall n :: n in m ==> m[n].instances != map[]
  }

  /** The instances stored under `name`, none if the name is absent. */
  function InstancesOf(m: Store, name: string): map<string, Service>
  {
    if name in m then m[name].instances else map[]
  }

  /** The map after a successful Register(name, address) at `now`. */
  function Registered(m: Store, name: string, address: string, now: int): Store
  {
    m[name := ServiceInstances(InstancesOf(m, name)[address := Service(name, address, now)])]
  }

  /** The map after Unregister(name, address) for a known name: the record
      found under `address` is deleted by its own address, and when no
      instance is left the name of that record (the zero record's empty name
      if none was found) is deleted. */
  function Unregistered(m: Store, name: string, address: string): Store
    requires name in m
  {
    var inner := m[name].instances;
    var instance := if address in inner then inner[address] else ZeroService;
    var inner' := if address in inner then inner - {instance.address} else inner;
    var m1 := if address in inner then m[name := ServiceInstances(inner')] else m;
    if |inner'| == 0 then m1 - {instance.name} else m1
  }

  /** The instances still alive at `now`. */
  function LiveInstances(inner: map<string, Service>, now: int, lease: int): (r: map<string, Service>)
    ensures forall a :: a in r <==> a in inner && !Expired(inner[a], now, lease)
    ensures forall a :: a in r ==> r[a] == inner[a]
  {
    map a | a in inner && !Expired(inner[a], now, lease) :: inner[a]
  }

  /** Register keeps every record under its own name and address. */
  lemma RegisteredConsistent(m: Store, name: string, address: string, now: int)
    requires Consistent(m)
    requires name != ""
    ensures Consistent(Registered(m, name, address, now))
  {
  }

  /** Register stores the record under its address, replacing any earlier
      record for that address (so its timestamp is the new one) rather than
      adding a second; the other addresses and names are untouched. */
  lemma RegisteredEffect(m: Store, name: string, address: string, now: int)
    ensures var m' := Registered(m, name, address, now);
      && name in m'
      && m'[name].instances[address] == Service(name, address, now)
      && m'[name].instances.Keys == InstancesOf(m, name).Keys + {address}
      && (forall a :: a in InstancesOf(m, name) && a != address ==> m'[name].instances[a] == InstancesOf(m, name)[a])
      && |m'[name].instances| == |InstancesOf(m, name)| + (if address in InstancesOf(m, name) then 0 else 1)
      && (forall n :: n != name ==> (n in m' <==> n in m) && (n in m ==> m'[n] == m[n]))
  {
  }

  /** Unregister of a stored address deletes that one instance, and the name
      with it when it was the last. */
  lemma UnregisteredKnownAddress(m: Store, name: string, address: string)
    requires Consistent(m)
    requires name in m && address in m[name].instances
    ensures var rest := m[name].instances - {address};
      Unregistered(m, name, address)
        == if rest == map[] then m - {name} else m[name := ServiceInstances(rest)]
  {
    var rest := m[name].instances - {address};
    if rest == map[] {
      assert |rest| == 0;
    } else {
      assert |rest| != 0;
    }
  }

  /** Unregister of an address the name does not have changes nothing. When
      the name has no instance left, Go deletes the zero record's empty name,
      which a consistent store never holds. */
  lemma UnregisteredUnknownAddress(m: Store, name: string, address: string)
    requires Consistent(m)
    requires name in m && address !in m[name].instances
    ensures Unregistered(m, name, address) == m
  {
    if |m[name].instances| == 0 {
      assert ZeroService.name !in m;
    }
  }

  /** Unregister keeps the store consistent. */
  lemma UnregisteredConsistent(m: Store, name: string, address: string)
    requires Consistent(m)
    requires name in m
    ensures Consistent(Unregistered(m, name, address))
  {
  }

  /** Register and Unregister never leave a service without instances. */
  lemma NoEmptyServicePreserved(m: Store, name: string, address: string, now: int)
    requires Consistent(m) && NoEmptyService(m)
    ensures NoEmptyService(Registered(m, name, address, now))
    ensures name in m ==> NoEmptyService(Unregistered(m, name, address))
  {
    assert address in Registered(m, name, address, now)[name].instances;
    if name in m {
      if address in m[name].instances {
        UnregisteredKnownAddress(m, name, address);
      } else {
        UnregisteredUnknownAddress(m, name, address);
      }
    }
  }

  /** The instances of a name that remain once the addresses in `done` have
      been visited by the sweep. */
  function Kept(inner: map<string, Service>, done: set<string>, now: int, lease: int): map<string, Service>
  {
    map a | a in inner && !(a in done && Expired(inner[a], now, lease)) :: inner[a]
  }

  /** Name `n` of the snapshot `m0` once the addresses in `done` are visited. */
  ghost predicate NameSwept(m0: Store, m: Store, n: string, done: set<string>, now: int, lease: int)
    requires n in m0
  {
    var kept := Kept(m0[n].instances, done, now, lease);
    && (n in m <==> kept != map[] || m0[n].instances == map[])
    && (n in m ==> m[n].instances == kept)
  }

  /** The addresses the sweep has visited under `n`, with the names in
      `todo` still to come and `done` visited under the current name `cur`. */
  function Visited(m0: Store, todo: set<string>, cur: string, done: set<string>, n: string): set<string>
    requires n in m0
  {
    if n in todo then {} else if n == cur then done else m0[n].instances.Keys
  }

  ghost predicate Progress(m0: Store, m: Store, todo: set<string>, cur: string, done: set<string>, now: int, lease: int)
  {
    && m.Keys <= m0.Keys
    && forall n :: n in m0 ==> NameSwept(m0, m, n, Visited(m0, todo, cur, done, n), now, lease)
  }

  /** All addresses of `n` in the snapshot, none if it is absent. */
  function AllOf(m0: Store, n: string): set<string>
  {
    if n in m0 then m0[n].instances.Keys else {}
  }

  lemma KeptNothingVisited(inner: map<string, Service>, now: int, lease: int)
    ensures Kept(inner, {}, now, lease) == inner
  {
  }

  lemma KeptAllVisited(inner: map<string, Service>, now: int, lease: int)
    ensures Kept(inner, inner.Keys, now, lease) == LiveInstances(inner, now, lease)
  {
  }

  /** The sweep starts with every name still to come. */
  lemma SweepBegin(m0: Store, cur: string, now: int, lease: int)
    ensures Progress(m0, m0, m0.Keys, cur, AllOf(m0, cur), now, lease)
  {
    forall n | n in m0
      ensures NameSwept(m0, m0, n, Visited(m0, m0.Keys, cur, AllOf(m0, cur), n), now, lease)
    {
      KeptNothingVisited(m0[n].instances, now, lease);
    }
  }

  /** Entering name `n`: none of its addresses visited yet. */
  lemma SweepEnterName(m0: Store, m: Store, todo: set<string>, prev: string, n: string, now: int, lease: int)
    requires n in todo
    requires Progress(m0, m, todo, prev, AllOf(m0, prev), now, lease)
    ensures Progress(m0, m, todo - {n}, n, {}, now, lease)
  {
    forall n' | n' in m0
      ensures NameSwept(m0, m, n', Visited(m0, todo - {n}, n, {}, n'), now, lease)
    {
      assert Visited(m0, todo - {n}, n, {}, n') == Visited(m0, todo, prev, AllOf(m0, prev), n');
    }
  }

  /** Visiting address `a` of the current name: a live instance stays. */
  lemma SweepVisitLive(m0: Store, m: Store, todo: set<string>, n: string, done: set<string>, a: string, now: int, lease: int)
    requires n in m0 && n !in todo && a in m0[n].instances
    requires !Expired(m0[n].instances[a], now, lease)
    requires Progress(m0, m, todo, n, done, now, lease)
    ensures Progress(m0, m, todo, n, done + {a}, now, lease)
  {
    var inner := m0[n].instances;
    assert Kept(inner, done + {a}, now, lease) == Kept(inner, done, now, lease);
    forall n' | n' in m0
      ensures NameSwept(m0, m, n', Visited(m0, todo, n, done + {a}, n'), now, lease)
    {
      assert NameSwept(m0, m, n', Visited(m0, todo, n, done, n'), now, lease);
    }
  }

  /** Unregistering an expired, not yet visited instance of `n` moves that
      name's view on by one address. */
  lemma NameSweptExpired(m0: Store, m: Store, n: string, done: set<string>, a: string, now: int, lease: int)
    requires Consistent(m)
    requires n in m0 && a in m0[n].instances && a !in done
    requires Expired(m0[n].instances[a], now, lease)
    requires NameSwept(m0, m, n, done, now, lease)
    ensures n in m && a in m[n].instances
    ensures NameSwept(m0, Unregistered(m, n, a), n, done + {a}, now, lease)
  {
    var inner := m0[n].instances;
    var kept := Kept(inner, done, now, lease);
    assert a in kept;
    UnregisteredKnownAddress(m, n, a);
    assert Kept(inner, done + {a}, now, lease) == kept - {a};
  }

  /** Visiting address `a` of the current name: an expired instance is
      unregistered, which removes it (and the name, if it was the last). */
  lemma SweepVisitExpired(m0: Store, m: Store, todo: set<string>, n: string, done: set<string>, a: string, now: int, lease: int)
    requires Consistent(m0) && Consistent(m)
    requires n in m0 && n !in todo && a in m0[n].instances && a !in done
    requires Expired(m0[n].instances[a], now, lease)
    requires Progress(m0, m, todo, n, done, now, lease)
    ensures var s := m0[n].instances[a];
      && s.name == n && s.address == a && n != "" && n in m
      && Progress(m0, Unregistered(m, n, a), todo, n, done + {a}, now, lease)
  {
    assert Visited(m0, todo, n, done, n) == done;
    NameSweptExpired(m0, m, n, done, a, now, lease);
    UnregisteredKnownAddress(m, n, a);
    var m' := Unregistered(m, n, a);
    forall n' | n' in m0
      ensures NameSwept(m0, m', n', Visited(m0, todo, n, done + {a}, n'), now, lease)
    {
      if n' != n {
        assert Visited(m0, todo, n, done + {a}, n') == Visited(m0, todo, n, done, n');
        assert NameSwept(m0, m, n', Visited(m0, todo, n, done, n'), now, lease);
        assert (n' in m' <==> n' in m) && (n' in m ==> m'[n'] == m[n']);
      }
    }
  }

  /** With every name visited, each holds exactly its live instances. */
  lemma SweepEnd(m0: Store, m: Store, cur: string, now: int, lease: int)
    requires Progress(m0, m, {}, cur, AllOf(m0, cur), now, lease)
    ensures forall n :: n in m <==>
      n in m0 && (LiveInstances(m0[n].instances, now, lease) != map[] || m0[n].instances == map[])
    ensures forall n :: n in m ==> m[n].instances == LiveInstances(m0[n].instances, now, lease)
  {
    forall n | n in m0
      ensures (n in m <==> LiveInstances(m0[n].instances, now, lease) != map[] || m0[n].instances == map[])
      ensures n in m ==> m[n].instances == LiveInstances(m0[n].instances, now, lease)
    {
      assert Visited(m0, {}, cur, AllOf(m0, cur), n) == m0[n].instances.Keys;
      assert NameSwept(m0, m, n, m0[n].instances.Keys, now, lease);
      KeptAllVisited(m0[n].instances, now, lease);
    }
  }

  class ServiceRegistry {
    var services: Store
    const leaseDuration: int

    ghost predicate Valid()
      reads this
    {
      Consistent(services)
    }

    /** initializeRegistry: an empty map and the given lease (the sweeping
        goroutine is not modelled). */
    constructor (lease: int)
      ensures Valid()
      ensures services == map[] && leaseDuration == lease
    {
      services := map[];
      leaseDuration := lease;
    }

    method Register(name: string, address: string, now: int) returns (err: Option<Error>)
      requires Valid()
      modifies this
      ensures Valid()
      ensures name == "" || address == "" ==> err == Some(NameAndAddressMandatory) && services == old(services)
      ensures name != "" && address != "" ==> err == None && services == Registered(old(services), name, address, now)
    {
      if |name| == 0 || |address| == 0 {
        return Some(NameAndAddressMandatory);
      }
      RegisteredConsistent(services, name, address, now);
      var service: ServiceInstances;
      if name in services {
        service := services[name];
      } else {
        service := ServiceInstances(map[]);
        services := services[name := service];
      }
      var instance := Service(name, address, now);
      service := service.(instances := service.instances[address := instance]);
      services := services[name := service];
      return None;
    }

    /** Renew validates the name and then refreshes only a local copy of the
        record: it succeeds for any address under a known name and, having no
        modifies clause, provably changes nothing. */
    method Renew(name: string, address: string, now: int) returns (err: Option<Error>)
      ensures name == "" ==> err == Some(NameMandatory)
      ensures name != "" && name !in services ==> err == Some(ServiceNotFound)
      ensures name != "" && name in services ==> err == None
    {
      if |name| == 0 {
        return Some(NameMandatory);
      }
      if name !in services {
        return Some(ServiceNotFound);
      }
      var service := services[name];
      var instance := if address in service.instances then service.instances[address] else ZeroService;
      instance := instance.(lastRegister := now);
      return None;
    }

    /** Fetch walks the instances with a counter and keeps the one at
        position `k`, where `k` stands for rand.Intn(len). */
    method Fetch(name: string, k: nat) returns (instance: Service, err: Option<Error>)
      requires Valid()
      requires name in services && services[name].instances != map[] ==> k < |services[name].instances|
      ensures name == "" ==> err == Some(NameMandatory) && instance == ZeroService
      ensures name != "" && (name !in services || services[name].instances == map[]) ==>
        err == Some(ServiceNotFound) && instance == ZeroService
      ensures name != "" && name in services && services[name].instances != map[] ==>
        err == None && instance in services[name].instances.Values && instance.name == name
        && instance.address in services[name].instances && instance == services[name].instances[instance.address]
    {
      instance := ZeroService;
      if |name| == 0 {
        return instance, Some(NameMandatory);
      }
      if name !in services || |services[name].instances| == 0 {
        return instance, Some(ServiceNotFound);
      }
      var inner := services[name].instances;
      var remaining := inner.Keys;
      var index := 0;
      while remaining != {}
        invariant remaining <= inner.Keys
        invariant index + |remaining| == |inner.Keys|
        invariant index > k ==>
          instance in inner.Values && instance.name == name && instance.address in inner && inner[instance.address] == instance
        decreases remaining
      {
        var a :| a in remaining;
        var service := inner[a];
        if index == k {
          instance := service;
        }
        index := index + 1;
        remaining := remaining - {a};
      }
      err := None;
    }

    /** FetchAll hands out the whole map (a snapshot here). */
    function FetchAll(): (r: Store)
      reads this
      requires Valid()
      ensures Consistent(r)
      ensures r.Keys == services.Keys && forall n :: n in r ==> r[n] == services[n]
    {
      services
    }

    method Unregister(name: string, address: string) returns (err: Option<Error>)
      requires Valid()
      modifies this
      ensures Valid()
      ensures name == "" ==> err == Some(NameMandatory) && services == old(services)
      ensures name != "" && name !in old(services) ==> err == Some(ServiceNotFound) && services == old(services)
      ensures name != "" && name in old(services) ==>
        err == None && services == Unregistered(old(services), name, address)
    {
      if |name| == 0 {
        return Some(NameMandatory);
      }
      if name in services {
        UnregisteredConsistent(services, name, address);
        var service := services[name];
        var instance := if address in service.instances then service.instances[address] else ZeroService;
        if address in service.instances {
          service := service.(instances := service.instances - {instance.address});
          services := services[name := service];
        }
        if |service.instances| == 0 {
          services := services - {instance.name};
        }
        err := None;
      } else {
        err := Some(ServiceNotFound);
      }
    }

    /** The inner loop of the sweep: the instances of `n` in the snapshot
        `copy` are visited one by one, and the expired ones unregistered. */
    method SweepService(copy: Store, names: set<string>, n: string, now: int)
      requires Valid() && Consistent(copy)
      requires n in copy && n !in names
      requires Progress(copy, services, names, n, {}, now, leaseDuration)
      modifies this
      ensures Valid()
      ensures Progress(copy, services, names, n, AllOf(copy, n), now, leaseDuration)
    {
      var inner := copy[n].instances;
      var remaining := inner.Keys;
      ghost var done: set<string> := {};
      while remaining != {}
        invariant Valid()
        invariant remaining !! done && remaining + done == inner.Keys
        invariant Progress(copy, services, names, n, done, now, leaseDuration)
        decreases remaining
      {
        var a :| a in remaining;
        var instance := inner[a];
        if Expired(instance, now, leaseDuration) {
          SweepVisitExpired(copy, services, names, n, done, a, now, leaseDuration);
          var _ := Unregister(instance.name, instance.address);
        } else {
          SweepVisitLive(copy, services, names, n, done, a, now, leaseDuration);
        }
        done := done + {a};
        remaining := remaining - {a};
      }
    }

    /** unregisterExpiredServices at time `now`: over a copy of the outer
        map, every instance whose lease has run out is unregistered through
        Unregister; the others stay, and names left without instances go. */
    method UnregisterExpiredServices(now: int)
      requires Valid()
      modifies this
      ensures Valid()
      ensures forall n :: n in services <==>
        n in old(services) && (LiveInstances(old(services)[n].instances, now, leaseDuration) != map[]
                               || old(services)[n].instances == map[])
      ensures forall n :: n in services ==>
        services[n].instances == LiveInstances(old(services)[n].instances, now, leaseDuration)
    {
      var copy: Store := map[];
      var keys := services.Keys;
      while keys != {}
        invariant keys <= services.Keys
        invariant copy.Keys == services.Keys - keys
        invariant forall n :: n in copy ==> copy[n] == services[n]
        decreases keys
      {
        var k :| k in keys;
        copy := copy[k := services[k]];
        keys := keys - {k};
      }
      assert copy == services;
      ghost var cur := "";
      SweepBegin(copy, cur, now, leaseDuration);
      var names := copy.Keys;
      while names != {}
        invariant Valid() && Consistent(copy)
        invariant names <= copy.Keys
        invariant Progress(copy, services, names, cur, AllOf(copy, cur), now, leaseDuration)
        decreases names
      {
        var n :| n in names;
        SweepEnterName(copy, services, names, cur, n, now, leaseDuration);
        names := names - {n};
        cur := n;
        SweepService(copy, names, n, now);
      }
      SweepEnd(copy, services, cur, now, leaseDuration);
    }
  }

  /** CreateDiscovery: a zero lease is reported as an error, yet the
      registry is built all the same. */
  method CreateDiscovery(leaseDuration: int) returns (discovery: ServiceRegistry, err: Option<Error>)
    ensures fresh(discovery) && discovery.Valid()
    ensures discovery.services == map[] && discovery.leaseDuration == leaseDuration
    ensures err == (if leaseDuration == 0 then Some(ExpireDurationMandatory) else None)
  {
    err := None;
    if leaseDuration == 0 {
      err := Some(ExpireDurationMandatory);
    }
    discovery := new ServiceRegistry(leaseDuration);
  }

  /** Empty name and address are refused and nothing is stored. */
  method RegisterEmptyFails() returns (err: Option<Error>, all: Store)
    ensures err == Some(NameAndAddressMandatory) && all == map[]
  {
    var discovery, _ := CreateDiscovery(1);
    err := discovery.Register("", "", 0);
    all := discovery.FetchAll();
  }

  /** A registered service is fetched; an unknown one is not found. */
  method FetchRegistered() returns (found: Service, err: Option<Error>, missingErr: Option<Error>)
    ensures err == None && found == Service("Service_Name", "Service_Address", 0)
    ensures missingErr == Some(ServiceNotFound)
  {
    var discovery, _ := CreateDiscovery(1);
    var _ := discovery.Register("Service_Name", "Service_Address", 0);
    assert discovery.services["Service_Name"].instances == map["Service_Address" := Service("Service_Name", "Service_Address", 0)];
    assert "Service_Address" in discovery.services["Service_Name"].instances;
    found, err := discovery.Fetch("Service_Name", 0);
    var _, e := discovery.Fetch("Service Name", 0);
    missingErr := e;
  }

  /** Renew succeeds for a registered name and fails for an unknown one. */
  method RenewKnownAndUnknown() returns (known: Option<Error>, unknown: Option<Error>)
    ensures known == None && unknown == Some(ServiceNotFound)
  {
    var discovery, _ := CreateDiscovery(1);
    unknown := discovery.Renew("Service Name", "", 0);
    var _ := discovery.Register("Service Name", "Service address", 0);
    known := discovery.Renew("Service Name", "Service address", 0);
  }

  /** After the lease of the only instance has run out and the sweep has
      run, Fetch of that name fails. */
  method ExpiredServiceIsNotFetched() returns (err: Option<Error>)
    ensures err == Some(ServiceNotFound)
  {
    var discovery, _ := CreateDiscovery(1);
    var _ := discovery.Register("TEST", "ADDRESS", 0);
    discovery.UnregisterExpiredServices(4);
    var _, e := discovery.Fetch("TEST", 0);
    err := e;
  }

  /** Renew does not extend the lease: registered at 0 and renewed at 5
      with a lease of 10, the instance is swept at 11. */
  method RenewKeepsOldLease() returns (renewed: Option<Error>, err: Option<Error>)
    ensures renewed == None && err == Some(ServiceNotFound)
  {
    var discovery, _ := CreateDiscovery(10);
    var _ := discovery.Register("TEST", "ADDRESS", 0);
    renewed := discovery.Renew("TEST", "ADDRESS", 5);
    discovery.UnregisterExpiredServices(11);
    var _, e := discovery.Fetch("TEST", 0);
    err := e;
  }

  /** Registering the same pair again does extend the lease: registered at
      0 and again at 5 with a lease of 10, the instance survives a sweep at
      11. */
  method ReRegisterRefreshesLease() returns (found: Service, err: Option<Error>)
    ensures err == None && found == Service("TEST", "ADDRESS", 5)
  {
    var discovery, _ := CreateDiscovery(10);
    var _ := discovery.Register("TEST", "ADDRESS", 0);
    var _ := discovery.Register("TEST", "ADDRESS", 5);
    discovery.UnregisterExpiredServices(11);
    assert discovery.services["TEST"].instances == map["ADDRESS" := Service("TEST", "ADDRESS", 5)];
    assert "ADDRESS" in discovery.services["TEST"].instances;
    found, err := discovery.Fetch("TEST", 0);
  }

  /** Four addresses under one name give one service with four instances. */
  method OneServiceFourInstances() returns (all: Store)
    ensures all.Keys == {"TEST"} && |all["TEST"].instances| == 4
  {
    var discovery, _ := CreateDiscovery(2);
    var _ := discovery.Register("TEST", "ADDRESS1", 0);
    var _ := discovery.Register("TEST", "ADDRESS2", 0);
    var _ := discovery.Register("TEST", "ADDRESS3", 0);
    var _ := discovery.Register("TEST", "ADDRESS4", 0);
    all := discovery.FetchAll();
  }

  /** One address under each of four names gives four services. */
  method FourServicesOneInstanceEach() returns (all: Store)
    ensures all.Keys == {"TEST1", "TEST2", "TEST3", "TEST4"}
    ensures forall n :: n in all ==> |all[n].instances| == 1
  {
    var discovery, _ := CreateDiscovery(2);
    var _ := discovery.Register("TEST1", "ADDRESS", 0);
    var _ := discovery.Register("TEST2", "ADDRESS", 0);
    var _ := discovery.Register("TEST3", "ADDRESS", 0);
    var _ := discovery.Register("TEST4", "ADDRESS", 0);
    all := discovery.FetchAll();
  }
}
