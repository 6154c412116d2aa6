# discovery — a Dafny model of the registry, the router and the path handlers

The repository is a small service-discovery server written in Go. A client
registers an instance of a named service by its address. A consumer fetches
one instance of a service, picked at random. Instances whose lease has run
out are swept away by a background task. An HTTP layer maps request paths
onto these operations.

This project models the core of that server:

- `domain_registry.dfy` (module `Domain`): the registry of package `domain`
  (domain/registry.go). Each name maps to a slice of instances. Records
  are removed with the swap-with-last `remove`.
- `service_domain.dfy` (module `ServiceDomain`): the registry of package
  `serviceDomain` (serviceDomain/registry.go, serviceDomain/factory.go).
  Each name maps to a map of instances keyed by address.
- `router.dfy` (module `Router`): the path router (router/router.go). It
  holds the route table built by `Add`, the segment matching of
  `findRoute`, and the 200/405/404 decision of `ServeHTTP`.
- `domain_handlers.dfy` (module `ServiceServer`): `findPathParameters` and
  the positional reading of name and address in the handlers of
  serviceServer/domainHandlers.go, wired to the `serviceDomain` registry.
- `go_strings.dfy` (module `GoStrings`): the few functions of Go's
  `strings` package that the router and the handlers use. `Split` keeps
  empty pieces. Its round trips with `Join` are proved. `Join`,
  `HasPrefix`, `HasSuffix`, `TrimPrefix` and `TrimSuffix` are plain
  stand-ins for the standard-library functions of the same names, with no
  contracts of their own.

Time is an integer clock `now` passed to each operation. A record is expired
when `now > lastRegister + lease`. The random index of `Fetch` is a
parameter `k` below the number of instances. Both registries are classes
whose methods update a `services` map field. Each registry is proved against
value-level functions (`Registered`, `Unregistered`, `Live` /
`LiveInstances`). The invariants those functions keep are proved as lemmas.
The sweep of each registry is proved to leave exactly the live instances of
each name and to drop the names left empty.

The model follows the code as written, also where the code's own names and
messages suggest other intent: the "Updating address" log line of
domain/registry.go:58, the method name `Renew`, and the "renewed" response
of serviceServer/domainHandlers.go:89 all suggest a refreshed lease.

- In `domain`, registering a known (name, address) pair again does not
  refresh its timestamp. The loop writes to a copy of the record, so the
  first lease still counts (`Domain.ReRegisterKeepsOldLease`).
- In `serviceDomain`, `Renew` checks the name and then updates only a
  local copy, so it never extends a lease (`ServiceDomain.RenewKeepsOldLease`).
  Registering the pair again does refresh it
  (`ServiceDomain.ReRegisterRefreshesLease`).
- `serviceDomain.CreateDiscovery` reports a zero lease as an error, yet it
  still builds and returns the registry. Negative leases are accepted by
  both factories.
- `findRoute` chooses a route by segment count alone. A literal segment that
  differs only stops the binding of parameters, so `/other/abc` reaches the
  handler of `/service/{name}` (`Router.RouteIgnoresLiterals`). A later
  route with the same count is never chosen (`Router.ShadowedPath`).
- The handlers read arguments from the segments after a fixed word
  (`register`, `fetch`, `renew`, `unregister`). They do not use the
  route's `{name}` parameters. A trailing "/" yields an empty address, so
  `/register/n/` is refused (`ServiceServer.RegisterWithTrailingSlash`).

## Model

| member | source | states |
|---|---|---|
| GoStrings.Split | serviceServer/domainHandlers.go:142 | strings.Split on "/": at least one piece, no piece holds a "/" |
| GoStrings.SplitLength | serviceServer/domainHandlers.go:142 | empty pieces are kept: the number of pieces is the number of separators plus one |
| GoStrings.JoinSplit | router/router.go:123 | joining the pieces with "/" gives back the string |
| GoStrings.SplitJoin | router/router.go:125 | splitting the join of separator-free pieces gives back the pieces |
| GoStrings.SplitGlue | router/router.go:123 | a separator-free prefix is glued onto the first piece |
| GoStrings.SplitPiece | router/router.go:123 | a separator-free piece followed by "/" splits off as one piece |
| GoStrings.SplitConcat | serviceServer/domainHandlers.go:142 | splitting at a separator splits each side apart |
| GoStrings.SplitAround | serviceServer/domainHandlers.go:142-147 | a word between two separators is one piece between the pieces of either side |
| Domain.FindAddress | domain/registry.go:56-57 | the position of the first record with the address, none when no record has it |
| Domain.Remove | domain/registry.go:155-158 | one record shorter; the last record takes position i; every other position keeps its record |
| Domain.RemoveMultiset | domain/registry.go:155-158 | remove drops exactly the record at i and keeps all others, as a multiset |
| Domain.Live | domain/registry.go:145-152 | the records not expired at now, in order; a record is in the result iff it is in the list and not expired |
| Domain.RegisteredWellFormed | domain/registry.go:43-71 | register keeps names non-empty, lists non-empty, names matching keys and addresses unique per name |
| Domain.RegisteredEffect | domain/registry.go:51-68 | a new pair is appended as one record stamped now; a known pair leaves the map unchanged; other names untouched |
| Domain.UnregisteredRemovesRecord | domain/registry.go:107-123 | unregister of a stored record removes exactly it; the name goes iff it was the last; other names untouched |
| Domain.UnregisteredUnknownAddress | domain/registry.go:112-123 | unregister of an address the name does not have changes nothing |
| Domain.UnregisteredWellFormed | domain/registry.go:97-126 | unregister keeps the registry invariants |
| Domain.LiveSnoc | domain/registry.go:146-150 | filtering a list extended by one record extends the filtered list by that record iff it is live |
| Domain.SweepStep | domain/registry.go:146-150 | visiting record i removes it from the filtered view iff it is expired |
| Domain.SweepEnterName | domain/registry.go:145-146 | entering a name, its records are untouched and all names visited before are done |
| Domain.SweepLive | domain/registry.go:147-148 | a live record is passed over |
| Domain.UnregisterAdvancesName | domain/registry.go:148-150 | unregistering the expired record i of a name advances that name's filtered view by one record |
| Domain.SweepExpired | domain/registry.go:148-150 | unregistering an expired record advances the sweep and leaves other names as they were |
| Domain.SweepLeaveName | domain/registry.go:145-152 | after its last record a name holds exactly its live records |
| Domain.SweepFinished | domain/registry.go:142-153 | after all names, each name holds exactly its live records and names without live records are gone |
| Domain.ServiceRegistry.constructor | domain/registry.go:31-37 | an empty registry with the given lease |
| Domain.ServiceRegistry.Register | domain/registry.go:43-71 | empty name or address is refused with no change; otherwise the new map is Registered of the old, invariants kept |
| Domain.ServiceRegistry.Fetch | domain/registry.go:73-87 | empty name and unknown name are errors; otherwise the record at the drawn index, a record of that name |
| Domain.ServiceRegistry.FetchAll | domain/registry.go:89-95 | the whole map, with the registry invariants |
| Domain.ServiceRegistry.Unregister | domain/registry.go:97-126 | empty name and unknown name are errors with no change; otherwise the new map is Unregistered of the old |
| Domain.ServiceRegistry.UnregisterExpiredServices | domain/registry.go:142-153 | afterwards a name is present iff it had a live record, and it holds exactly its live records, as a multiset |
| Domain.ServiceRegistry.SweepName | domain/registry.go:146-151 | visiting the records of one name of the snapshot in order unregisters the expired ones, leaving that name with its live records and the other names as they were |
| Domain.CreateDiscovery | domain/registry.go:24-29 | a zero lease gives no registry and an error; any other lease gives a fresh empty registry |
| Domain.RegisterEmptyFails | domain/discovery_test.go:27-37 | registering "" and "" fails and stores nothing |
| Domain.OneServiceFourInstances | domain/discovery_test.go:104-121 | four addresses under one name give one service with four records |
| Domain.FourServicesOneInstanceEach | domain/discovery_test.go:123-140 | one address under each of four names gives four services with one record each |
| Domain.ExpiredInstanceIsForgotten | domain/discovery_test.go:63-89 | after the lease runs out and the sweep runs, fetch and unregister of the name both fail |
| Domain.ReRegisterKeepsOldLease | domain/registry.go:56-63 | registering the pair again at 5 does not save it from a sweep at 11 with lease 10 |
| Domain.UnregisterTwice | domain/registry.go:97-126 | unregistering a pair succeeds once, then fails with service not found |
| ServiceDomain.LiveInstances | serviceDomain/registry.go:178-188 | the instances not expired at now, keyed as before |
| ServiceDomain.RegisteredConsistent | serviceDomain/registry.go:31-57 | register keeps every record under its own name and address |
| ServiceDomain.RegisteredEffect | serviceDomain/registry.go:42-54 | the record for the address is replaced by one stamped now, with no duplicate; other addresses and names untouched |
| ServiceDomain.UnregisteredKnownAddress | serviceDomain/registry.go:125-140 | unregister of a stored address deletes that instance, and the name when it was the last |
| ServiceDomain.UnregisteredUnknownAddress | serviceDomain/registry.go:128-140 | in any consistent store, unregister of an address the name does not have changes nothing, even when the name has no instance left (the zero record's empty name is never a key) |
| ServiceDomain.UnregisteredConsistent | serviceDomain/registry.go:119-148 | unregister keeps every record under its own name and address |
| ServiceDomain.NoEmptyServicePreserved | serviceDomain/registry.go:31-148 | register and unregister never leave a service without instances |
| ServiceDomain.KeptNothingVisited | serviceDomain/registry.go:177 | before any address is visited all instances are kept |
| ServiceDomain.KeptAllVisited | serviceDomain/registry.go:177-188 | once every address is visited exactly the live instances are kept |
| ServiceDomain.SweepBegin | serviceDomain/registry.go:172-177 | the sweep starts from the untouched copy |
| ServiceDomain.SweepEnterName | serviceDomain/registry.go:175-177 | entering a name, none of its addresses are visited and earlier names are done |
| ServiceDomain.SweepVisitLive | serviceDomain/registry.go:179-183 | a live instance is passed over |
| ServiceDomain.NameSweptExpired | serviceDomain/registry.go:181-185 | unregistering an expired instance advances its name's view by one address |
| ServiceDomain.SweepVisitExpired | serviceDomain/registry.go:181-185 | unregistering an expired instance advances the sweep and leaves other names as they were |
| ServiceDomain.SweepEnd | serviceDomain/registry.go:167-192 | after all names each holds exactly its live instances, and names without them are gone |
| ServiceDomain.ServiceRegistry.constructor | serviceDomain/registry.go:19-25 | an empty registry with the given lease |
| ServiceDomain.ServiceRegistry.Register | serviceDomain/registry.go:31-57 | empty name or address is refused with no change; otherwise the new map is Registered of the old |
| ServiceDomain.ServiceRegistry.Renew | serviceDomain/registry.go:59-83 | empty name and unknown name are errors; any address under a known name succeeds; nothing changes |
| ServiceDomain.ServiceRegistry.Fetch | serviceDomain/registry.go:85-113 | empty name, unknown name and a service without instances are errors; otherwise a stored instance of that name |
| ServiceDomain.ServiceRegistry.FetchAll | serviceDomain/registry.go:115-117 | the whole map, consistent |
| ServiceDomain.ServiceRegistry.Unregister | serviceDomain/registry.go:119-148 | empty name and unknown name are errors with no change; otherwise the new map is Unregistered of the old |
| ServiceDomain.ServiceRegistry.SweepService | serviceDomain/registry.go:177-188 | visiting every instance of one name of the copy unregisters the expired ones |
| ServiceDomain.ServiceRegistry.UnregisterExpiredServices | serviceDomain/registry.go:167-192 | afterwards a name is present iff it has live instances (or had none), holding exactly its live instances |
| ServiceDomain.CreateDiscovery | serviceDomain/factory.go:8-19 | the registry is always built empty with the given lease; the error is set iff the lease is zero |
| ServiceDomain.RegisterEmptyFails | serviceDomain/discovery_test.go:20-30 | registering "" and "" fails and stores nothing |
| ServiceDomain.FetchRegistered | serviceDomain/discovery_test.go:32-54 | a registered service is fetched; an unknown one is not found |
| ServiceDomain.RenewKnownAndUnknown | serviceDomain/discovery_test.go:56-78 | renew of a registered name succeeds; of an unknown name fails |
| ServiceDomain.ExpiredServiceIsNotFetched | serviceDomain/discovery_test.go:94-105 | after the lease runs out and the sweep runs, fetch fails |
| ServiceDomain.RenewKeepsOldLease | serviceDomain/registry.go:77-80 | renew at 5 does not save the instance from a sweep at 11 with lease 10 |
| ServiceDomain.ReRegisterRefreshesLease | serviceDomain/registry.go:52-54 | registering again at 5 keeps the instance through a sweep at 11 with lease 10, stamped 5 |
| ServiceDomain.OneServiceFourInstances | serviceDomain/discovery_test.go:107-124 | four addresses under one name give one service with four instances |
| ServiceDomain.FourServicesOneInstanceEach | serviceDomain/discovery_test.go:126-143 | one address under each of four names gives four services with one instance each |
| Router.IsParam | router/router.go:143-145 | a segment is a parameter iff it has at least two characters, starts with "{" and ends with "}" |
| Router.GetParam | router/router.go:147-149 | a parameter segment is exactly its name wrapped in one "{" and one "}" |
| Router.GetParamOfBraced | router/router.go:143-149 | any name in braces is a parameter whose getParam is that name |
| Router.AddPanic | router/router.go:40-51 | Add goes through iff method, path and handler are given and the path does not start with a parameter; the first failed check names the panic |
| Router.FirstMismatch | router/router.go:128-131 | the first position where a literal route segment differs from the request, or the count when none does |
| Router.FirstWithCount | router/router.go:124-126 | the first registered path with the given segment count, none iff no path has it |
| Router.FirstWithVerb | router/router.go:70-74 | the first handler for the method, none iff no handler has it |
| Router.MatchRouteFirst | router/router.go:121-141 | findRoute returns the first registered path with the request's segment count and its bound parameters, or "" with none |
| Router.BindUpToKeys | router/router.go:127-135 | a name is bound iff some parameter segment before the cut carries it |
| Router.BindUpToValue | router/router.go:132-134 | a name is bound to the request segment at the last parameter position carrying it |
| Router.BindParams | router/router.go:127-136 | the returned parameters are exactly those of the segments before the first literal mismatch |
| Router.DispatchOutcome | router/router.go:66-94 | 404 iff no path has the segment count; 405 iff the first such path has no handler for the method; otherwise its first handler for it |
| Router.MatchRouteAppend | router/router.go:53-57 | adding a path never changes the route of a request that already had one |
| Router.ShadowedPath | router/router.go:124-138 | a new path whose segment count is already registered is never chosen |
| Router.Router.constructor | router/router.go:27-33 | an empty table and no middleware |
| Router.Router.Use | router/router.go:35-37 | the middleware is appended to the chain |
| Router.Router.Add | router/router.go:39-64 | a refused add changes nothing; otherwise the handler is appended to the path's list and the path registered once, in order |
| Router.Router.FindRoute | router/router.go:121-141 | the loops compute MatchRoute of the request's segments |
| Router.Router.Chain | router/router.go:80-82 | the middlewares wrap the handler with the first added outermost |
| Router.Router.ServeHTTP | router/router.go:66-94 | the loop over the handlers computes the Dispatch decision |
| Router.Router.HasRoute | router/router.go:96-101 | true iff some registered path has as many segments as the request |
| Router.RouteBindsParameter | router/router.go:121-141 | /service/abc on /service/{name} calls the handler with name bound to abc |
| Router.RouteIgnoresLiterals | router/router.go:128-137 | /other/abc on /service/{name} still calls the handler, with nothing bound |
| Router.RouteWrongMethod | router/router.go:89-91 | another method on a matched route gets 405 |
| Router.RouteTooLong | router/router.go:93 | a request with a segment count no path has gets 404 |
| Router.AddRefusesLeadingParam | router/router.go:49-51 | adding /{id} is refused |
| ServiceServer.IndexOf | serviceServer/domainHandlers.go:144-145 | the first position holding the word, none iff the list lacks it |
| ServiceServer.FindPathParameters | serviceServer/domainHandlers.go:141-150 | the search loop computes PathParameters |
| ServiceServer.PathParametersSuffix | serviceServer/domainHandlers.go:141-150 | none iff no segment is the word; otherwise the suffix after its first occurrence, of length count - index - 1 |
| ServiceServer.IndexAfter | serviceServer/domainHandlers.go:144-147 | the word after a prefix without it is found right after that prefix |
| ServiceServer.ParametersAfter | serviceServer/domainHandlers.go:141-150 | prefix/word/rest yields the segments of rest |
| ServiceServer.NameAndAddressFromPath | serviceServer/domainHandlers.go:17-27 | .../word/name/address, possibly followed by more segments, reads as that name and address |
| ServiceServer.NameFromPath | serviceServer/domainHandlers.go:50-55 | .../fetch/name reads as that name |
| ServiceServer.TrailingSlashGivesEmptyAddress | serviceServer/domainHandlers.go:17-27 | /word/name/ reads as that name and the empty address |
| ServiceServer.RegisterHandler | serviceServer/domainHandlers.go:15-41 | registers the name and address read from the path; 404 on error |
| ServiceServer.RenewHandler | serviceServer/domainHandlers.go:69-95 | renews the name read from the path; 404 on error |
| ServiceServer.FetchHandler | serviceServer/domainHandlers.go:48-67 | 404 iff the name read from the path is empty, unknown or has no instance; otherwise 200 with a stored instance of it |
| ServiceServer.UnregisterHandler | serviceServer/domainHandlers.go:113-139 | unregisters the name and address read from the path; 404 on error |
| ServiceServer.RegisterWithTrailingSlash | serviceServer/domainHandlers.go:19-31 | /register/n/ is refused for want of an address |
| ServiceServer.RegisterThenFetch | serviceServer/domainHandlers.go:15-67 | a service registered through /register/svc/host is fetched through /fetch/svc |

## Left out

- Mutexes, goroutines and channels are not modelled: `unregisterDaemon`, `Close` and the `closeDaemon` channel. Each operation is one atomic step.
- `time.Now` and `time.Duration` are not modelled. The clock is an integer `now` and the lease an integer, so there is no overflow.
- A sweep uses one `now` for every record. The code reads the clock once per record.
- `rand.Intn` is not modelled. Fetch takes the drawn index as a parameter.
- `Domain.ServiceRegistry.UnregisterExpiredServices`: the sweep's result is stated as a multiset per name. It does not say in which order the survivors end up after the swap-with-last removals.
- `ServiceDomain.ServiceRegistry.Fetch`: Go visits a map in random order. The model states that the result is some stored instance of the name, not which one.
- `FetchAll` returns the registry's own map, which callers may then change. The model returns a value, so this aliasing is not modelled.
- The domain sweep ranges over that live map and over slices whose backing arrays `remove` overwrites. The serviceDomain sweep's copied map shares its inner maps. The model visits a snapshot, so in-place aliasing is not modelled.
- Go's nil and empty maps and slices are not told apart. `findPathParameters` returning nil is `None`, and `findRoute` returning a nil map is the empty map.
- Logging is not modelled.
- The HTTP layer is not modelled: JSON encoding and `http.Error` response bodies, `FetchAllHandler` (it only encodes `FetchAll`), and the context lookups of the handlers.
- handler/handler.go is not part of this model. serviceServer/simpleserver.go, serviceServer/errorHandlers.go and serviceServer/contextHandler.go are not part of this model either.
- `Router.Start` and `wait` are not modelled: server start-up, signals and shutdown.
- Handler functions and middlewares are identifiers. `ServeHTTP` yields the chosen handler, its parameters and the middleware chain rather than running them.
- Strings are sequences of characters, not of bytes. Go's `path[1:]`, `p[1:]` and `route[1:]` drop one byte, and the model drops one character. The two agree only when the path begins with a one-byte character. Every request path from net/http, and every path the server registers, begins with "/". For a path that begins with a multi-byte character, Go keeps the trailing bytes of that character in the first segment. The model does not, so there `AddPanic` and `FindRoute` differ from Go.
- `findRoute` slices `p[1:]` and `route[1:]`, so it demands a non-empty path. `FindRoute`, `ServeHTTP` and `HasRoute` require one. Registered paths are non-empty by `Add`.
