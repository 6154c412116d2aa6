/**
 * The request handlers of package `serviceServer`
 * (serviceServer/domainHandlers.go): each reads its arguments from the
 * "/"-segments of the request path that follow a fixed word, by position,
 * and calls the registry of package `serviceDomain`. The JSON body and the
 * text of the error response are not modelled; a handler answers with the
 * HTTP status and the registry's error.
 */
module ServiceServer {
  import opened Wrappers
  import opened GoStrings
  import SD = ServiceDomain

  const StatusOK: int := 200
  const StatusNotFound: int := 404

  /** The position of the first element equal to `word`. */
  function IndexOf(list: seq<string>, word: string): (r: Option<nat>)
    ensures r == None <==> word !in list
    ensures r != None ==> r.value < |list| && list[r.value] == word && word !in list[..r.value]
  {
    if list == [] then None
    else if list[0] == word then Some(0)
    else
      match IndexOf(list[1..], word)
      case None => None
      case Some(i) =>
        assert list[1..][..i] == list[1..i + 1];
        assert list[..i + 1] == [list[0]] + list[1..i + 1];
        Some(i + 1)
  }

  /** findPathParameters(parameter, path): the segments of the whole path
      after the first segment equal to `parameter`; None (Go's nil) when no
      segment is. */
  function PathParameters(parameter: string, path: string): Option<seq<string>>
  {
    var pathList := Split(path);
    match IndexOf(pathList, parameter)
    case None => None
    case Some(i) => Some(pathList[i + 1..])
  }

  /** The loop of findPathParameters, returning at the first match. */
  method FindPathParameters(parameter: string, path: string) returns (r: Option<seq<string>>)
    ensures r == PathParameters(parameter, path)
  {
    var pathList := Split(path);
    var i := 0;
    while i < |pathList|
      invariant 0 <= i <= |pathList|
      invariant parameter !in pathList[..i]
    {
      if pathList[i] == parameter {
        return Some(pathList[i + 1..]);
      }
      assert pathList[..i + 1] == pathList[..i] + [pathList[i]];
      i := i + 1;
    }
    assert pathList[..i] == pathList;
    return None;
  }

  /** The result is None exactly when no segment equals `parameter`;
      otherwise it is the suffix after the first such segment, of length
      segment count - match index - 1, so later occurrences of `parameter`
      stay inside it. */
  lemma PathParametersSuffix(parameter: string, path: string)
    ensures var pathList := Split(path);
      match PathParameters(parameter, path)
      case None => parameter !in pathList
      case Some(p) =>
        var k := |pathList| - |p| - 1;
        0 <= k < |pathList| && pathList[k] == parameter && parameter !in pathList[..k]
        && p == pathList[k + 1..]
  {
    var pathList := Split(path);
    match IndexOf(pathList, parameter)
    case None =>
    case Some(i) =>
      assert |pathList[i + 1..]| == |pathList| - i - 1;
  }

  /** A path made of a prefix without `parameter`, then `parameter`, then
      `rest` yields the segments of `rest`. */
  lemma ParametersAfter(prefix: string, parameter: string, rest: string)
    requires Slash !in parameter
    requires parameter !in Split(prefix)
    ensures PathParameters(parameter, prefix + [Slash] + parameter + [Slash] + rest) == Some(Split(rest))
  {
    SplitAround(prefix, parameter, rest);
    IndexAfter(Split(prefix), parameter, Split(rest));
  }

  /** The first occurrence of `x` in pre + [x] + post is right after `pre`
      when `pre` does not hold it. */
  lemma IndexAfter(pre: seq<string>, x: string, post: seq<string>)
    requires x !in pre
    ensures IndexOf(pre + [x] + post, x) == Some(|pre|)
    ensures (pre + [x] + post)[|pre| + 1..] == post
  {
    var list := pre + [x] + post;
    assert list[..|pre|] == pre;
    assert list[|pre|] == x;
  }

  /** RegisterHandler, RenewHandler and UnregisterHandler: the name is the
      first parameter and the address the second, each "" when absent;
      further parameters are ignored. */
  function NameAndAddress(parameters: Option<seq<string>>): (string, string)
  {
    var list := if parameters == None then [] else parameters.value;
    (if |list| > 0 then list[0] else "", if |list| > 1 then list[1] else "")
  }

  /** FetchHandler: the name is the first parameter, "" when absent. */
  function NameOnly(parameters: Option<seq<string>>): string
  {
    var list := if parameters == None then [] else parameters.value;
    if |list| > 0 then list[0] else ""
  }

  /** "<prefix>/<word>/<name>/<address>", possibly followed by further
      segments, gives back name and address, as long as neither holds a
      "/". */
  lemma NameAndAddressFromPath(prefix: string, word: string, name: string, address: string, extra: string)
    requires Slash !in word && Slash !in name && Slash !in address
    requires word !in Split(prefix)
    requires extra == "" || extra[0] == Slash
    ensures NameAndAddress(PathParameters(word, prefix + [Slash] + word + [Slash] + (name + [Slash] + address + extra)))
      == (name, address)
  {
    var rest := name + [Slash] + address + extra;
    ParametersAfter(prefix, word, rest);
    assert rest == name + [Slash] + (address + extra);
    SplitPiece(name, address + extra);
    SplitGlue(address, extra);
    assert Split(extra)[0] == "";
    assert address + "" == address;
  }

  /** "<prefix>/<word>/<name>", possibly followed by further segments,
      gives back the name. */
  lemma NameFromPath(prefix: string, word: string, name: string, extra: string)
    requires Slash !in word && Slash !in name
    requires word !in Split(prefix)
    requires extra == "" || extra[0] == Slash
    ensures NameOnly(PathParameters(word, prefix + [Slash] + word + [Slash] + (name + extra))) == name
  {
    ParametersAfter(prefix, word, name + extra);
    SplitGlue(name, extra);
    assert Split(extra)[0] == "";
    assert name + "" == name;
  }

  /** A trailing "/" after the name gives the empty address: "/register/n/"
      reads as name "n" and address "". */
  lemma TrailingSlashGivesEmptyAddress(word: string, name: string)
    requires Slash !in word && Slash !in name && word != ""
    ensures NameAndAddress(PathParameters(word, [Slash] + word + [Slash] + name + [Slash])) == (name, "")
  {
    assert Split("") == [""];
    ParametersAfter("", word, name + [Slash]);
    assert "" + [Slash] + word + [Slash] + (name + [Slash]) == [Slash] + word + [Slash] + name + [Slash];
    SplitPiece(name, "");
    assert name + [Slash] + "" == name + [Slash];
  }

  /** The status a handler answers with: 404 on a registry error, 200
      (with a JSON body) otherwise. */
  function Status(err: Option<SD.Error>): int
  {
    if err == None then StatusOK else StatusNotFound
  }

  /** RegisterHandler: name and address after "register" in the path. */
  method RegisterHandler(discovery: SD.ServiceRegistry, path: string, now: int)
    returns (status: int, err: Option<SD.Error>)
    requires discovery.Valid()
    modifies discovery
    ensures discovery.Valid()
    ensures var (name, address) := NameAndAddress(PathParameters("register", path));
      && (name == "" || address == "" ==>
            err == Some(SD.NameAndAddressMandatory) && discovery.services == old(discovery.services))
      && (name != "" && address != "" ==>
            err == None && discovery.services == SD.Registered(old(discovery.services), name, address, now))
    ensures status == Status(err)
  {
    var parameters := FindPathParameters("register", path);
    var serviceName := "";
    if parameters != None && |parameters.value| > 0 {
      serviceName := parameters.value[0];
    }
    var serviceAddress := "";
    if parameters != None && |parameters.value| > 1 {
      serviceAddress := parameters.value[1];
    }
    err := discovery.Register(serviceName, serviceAddress, now);
    status := Status(err);
  }

  /** RenewHandler: name and address after "renew" in the path. */
  method RenewHandler(discovery: SD.ServiceRegistry, path: string, now: int)
    returns (status: int, err: Option<SD.Error>)
    ensures var (name, _) := NameAndAddress(PathParameters("renew", path));
      && (name == "" ==> err == Some(SD.NameMandatory))
      && (name != "" && name !in discovery.services ==> err == Some(SD.ServiceNotFound))
      && (name != "" && name in discovery.services ==> err == None)
    ensures status == Status(err)
  {
    var parameters := FindPathParameters("renew", path);
    var serviceName := "";
    if parameters != None && |parameters.value| > 0 {
      serviceName := parameters.value[0];
    }
    var serviceAddress := "";
    if parameters != None && |parameters.value| > 1 {
      serviceAddress := parameters.value[1];
    }
    err := discovery.Renew(serviceName, serviceAddress, now);
    status := Status(err);
  }

  /** FetchHandler: the name after "fetch" in the path; `k` stands for the
      registry's random pick. */
  method FetchHandler(discovery: SD.ServiceRegistry, path: string, k: nat)
    returns (status: int, service: SD.Service)
    requires discovery.Valid()
    requires var name := NameOnly(PathParameters("fetch", path));
      name in discovery.services && discovery.services[name].instances != map[] ==>
        k < |discovery.services[name].instances|
    ensures var name := NameOnly(PathParameters("fetch", path));
      && (name == "" || name !in discovery.services || discovery.services[name].instances == map[] ==>
            status == StatusNotFound)
      && (name != "" && name in discovery.services && discovery.services[name].instances != map[] ==>
            status == StatusOK && service.name == name && service.address in discovery.services[name].instances
            && discovery.services[name].instances[service.address] == service)
  {
    var parameters := FindPathParameters("fetch", path);
    var serviceName := "";
    if parameters != None && |parameters.value| > 0 {
      serviceName := parameters.value[0];
    }
    var err;
    service, err := discovery.Fetch(serviceName, k);
    status := Status(err);
  }

  /** UnregisterHandler: name and address after "unregister" in the path. */
  method UnregisterHandler(discovery: SD.ServiceRegistry, path: string)
    returns (status: int, err: Option<SD.Error>)
    requires discovery.Valid()
    modifies discovery
    ensures discovery.Valid()
    ensures var (name, address) := NameAndAddress(PathParameters("unregister", path));
      && (name == "" ==> err == Some(SD.NameMandatory) && discovery.services == old(discovery.services))
      && (name != "" && name !in old(discovery.services) ==>
            err == Some(SD.ServiceNotFound) && discovery.services == old(discovery.services))
      && (name != "" && name in old(discovery.services) ==>
            err == None && discovery.services == SD.Unregistered(old(discovery.services), name, address))
    ensures status == Status(err)
  {
    var parameters := FindPathParameters("unregister", path);
    var serviceName := "";
    if parameters != None && |parameters.value| > 0 {
      serviceName := parameters.value[0];
    }
    var serviceAddress := "";
    if parameters != None && |parameters.value| > 1 {
      serviceAddress := parameters.value[1];
    }
    err := discovery.Unregister(serviceName, serviceAddress);
    status := Status(err);
  }

  /** "/register/n/" carries an empty address, so the registration is
      refused with 404. */
  method RegisterWithTrailingSlash() returns (status: int, err: Option<SD.Error>)
    ensures status == StatusNotFound && err == Some(SD.NameAndAddressMandatory)
  {
    var discovery, _ := SD.CreateDiscovery(1);
    TrailingSlashGivesEmptyAddress("register", "n");
    assert "/register/n/" == [Slash] + "register" + [Slash] + "n" + [Slash];
    status, err := RegisterHandler(discovery, "/register/n/", 0);
  }

  /** A service registered through "/register/svc/host" is then fetched
      through "/fetch/svc" (the paths are spelled out piece by piece). */
  method RegisterThenFetch() returns (registered: int, fetched: int, service: SD.Service)
    ensures registered == StatusOK && fetched == StatusOK
    ensures service == SD.Service("svc", "host", 0)
  {
    var discovery, _ := SD.CreateDiscovery(1);
    assert Split("") == [""];
    NameAndAddressFromPath("", "register", "svc", "host", "");
    var registerPath := "" + [Slash] + "register" + [Slash] + ("svc" + [Slash] + "host" + "");
    var registerErr;
    registered, registerErr := RegisterHandler(discovery, registerPath, 0);
    assert discovery.services["svc"].instances == map["host" := SD.Service("svc", "host", 0)];
    assert "host" in discovery.services["svc"].instances;
    NameFromPath("", "fetch", "svc", "");
    var fetchPath := "" + [Slash] + "fetch" + [Slash] + ("svc" + "");
    fetched, service := FetchHandler(discovery, fetchPath, 0);
  }
}
