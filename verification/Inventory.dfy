/** The inventory builder as the program is written: an object whose methods update its
    configuration in place, loop by loop. */
module Inventory {
  import opened Text
  import opened Dicts
  import opened InventorySpec

  /** What `config.items(section)` lists: pairs, never bare names. */
  datatype Item = Name(name: string) | Entry(key: string, value: string)

  function Items(sec: Section): seq<Item>
    requires sec.Valid()
  {
    seq(|sec.keys|, i requires 0 <= i < |sec.keys| => Entry(sec.keys[i], sec.vals[sec.keys[i]]))
  }

  method GetIpFromOpts(optstring: string) returns (r: Result<string, Failure>)
    ensures r == IpFromOpts(optstring)
  {
    var opts := Split(optstring, ' ');
    for i := 0 to |opts|
      invariant IpFromOpts(optstring) == IpIn(opts[i..])
    {
      if '=' !in opts[i] {
        continue;
      }
      var parts := Split(opts[i], '=');
      if |parts| != 2 {
        return Err(MalformedOption);
      }
      if parts[0] == "ip" {
        return Ok(parts[1]);
      }
    }
    return Err(IpNotFound);
  }

  method ExistsIp(existing: Section, ip: string) returns (r: Result<bool, Failure>)
    requires existing.Valid()
    ensures match FindIp(existing.keys, existing.vals, ip)
            case Err(e) => r == Err(e)
            case Ok(found) => r == Ok(found.Some?)
  {
    for i := 0 to |existing.keys|
      invariant FindIp(existing.keys, existing.vals, ip) == FindIp(existing.keys[i..], existing.vals, ip)
    {
      var v := GetIpFromOpts(existing.vals[existing.keys[i]]);
      match v {
        case Err(e) => return Err(e);
        case Ok(found) => if found == ip { return Ok(true); }
      }
    }
    return Ok(false);
  }

  /** Deletes the first host with that address from the dictionary it is given. */
  method DeleteHostByIp(existing: Section, ip: string) returns (r: Result<Section, Failure>)
    requires existing.Valid()
    ensures match FindIp(existing.keys, existing.vals, ip)
            case Err(e) => r == Err(e)
            case Ok(None) => r == Err(UnknownIp)
            case Ok(Some(host)) => r == Ok(existing.Remove(host))
  {
    for i := 0 to |existing.keys|
      invariant FindIp(existing.keys, existing.vals, ip) == FindIp(existing.keys[i..], existing.vals, ip)
    {
      var v := GetIpFromOpts(existing.vals[existing.keys[i]]);
      match v {
        case Err(e) => return Err(e);
        case Ok(found) => if found == ip { return Ok(existing.Remove(existing.keys[i])); }
      }
    }
    return Err(UnknownIp);
  }

  class KubesprayInventory {
    const env: Env
    /** The contents of the configuration file. */
    var saved: Config
    /** The configuration in memory. */
    var config: Config
    var hosts: Section

    constructor (env: Env, file: Config)
      ensures this.env == env && saved == file && config == file
    {
      this.env := env;
      saved := file;
      config := file;
      hosts := Empty();
    }

    method AddHostToGroup(group: string, host: string, opts: string)
      requires group in config.vals
      modifies `config
      ensures config == AddTo(old(config), group, host, opts)
    {
      config := AddTo(config, group, host, opts);
    }

    method EnsureRequiredGroups(groups: seq<string>)
      modifies `config
      ensures config == EnsureGroups(old(config), groups)
    {
      for i := 0 to |groups|
        invariant config == EnsureGroups(old(config), groups[..i])
      {
        if groups[i] !in config.vals {
          config := config.Put(groups[i], Empty());
        }
        assert groups[..i + 1][..i] == groups[..i];
      }
      assert groups[..|groups|] == groups;
    }

    method ReadExisting() returns (existing: Section, highest: Result<nat, Failure>)
      requires ValidConfig(config)
      ensures highest == HighestId(Members(config, ALL))
      ensures highest.Ok? ==> existing == At(config, ALL)
    {
      existing := Empty();
      var high: nat := 0;
      if ALL !in config.vals {
        return existing, Ok(0);
      }
      var all := config.vals[ALL];
      for i := 0 to |all.keys|
        invariant existing == First(all, i)
        invariant HighestId(all.keys[..i]) == Ok(high)
      {
        var host := all.keys[i];
        FirstStep(all, i);
        existing := existing.Put(host, all.vals[host]);
        HighestIdStep(all.keys, i);
        var id := HostId(host);
        if id.Err? {
          HighestIdStops(all.keys, i + 1);
          return existing, Err(id.error);
        }
        if id.value > high {
          high := id.value;
        }
      }
      FirstAll(all);
      return existing, Ok(high);
    }

    /** The body of the loop over the tokens. */
    method ApplyToken(allHosts: Section, nextHostId: nat, host: string) returns (r: Result<Builder, Failure>)
      requires allHosts.Valid()
      ensures r == Token(Builder(allHosts, nextHostId), env.prefix, host)
    {
      if host == "" {
        return Err(EmptyToken);
      } else if host[0] == '-' {
        var realhost := host[1..];
        if realhost in allHosts.vals {
          return Ok(Builder(allHosts.Remove(realhost), nextHostId));
        }
        var known := ExistsIp(allHosts, realhost);
        if known.Err? {
          return Err(known.error);
        }
        if known.value {
          var rest := DeleteHostByIp(allHosts, realhost);
          return Ok(Builder(rest.value, nextHostId));
        }
      } else if IsDigit(host[0]) {
        if host in allHosts.vals {
          return Ok(Builder(allHosts, nextHostId));
        }
        var known := ExistsIp(allHosts, host);
        if known.Err? {
          return Err(known.error);
        }
        if known.value {
          return Ok(Builder(allHosts, nextHostId));
        }
        var nextHost := env.prefix + Decimal(nextHostId);
        return Ok(Builder(allHosts.Put(nextHost, HostOpts(host)), nextHostId + 1));
      } else if IsAlpha(host[0]) {
        return Err(AddByHostname);
      }
      return Ok(Builder(allHosts, nextHostId));
    }

    method BuildHostnames(changedHosts: seq<string>) returns (r: Result<Section, Failure>)
      requires ValidConfig(config)
      ensures r == InventorySpec.BuildHostnames(At(config, ALL), env.prefix, changedHosts)
    {
      var existing, highest := ReadExisting();
      if highest.Err? {
        return Err(highest.error);
      }
      ghost var start := Builder(existing, highest.value + 1);
      var nextHostId := highest.value + 1;
      var allHosts := existing;
      for i := 0 to |changedHosts|
        invariant Tokens(start, env.prefix, changedHosts[..i]) == Ok(Builder(allHosts, nextHostId))
      {
        assert changedHosts[..i + 1][..i] == changedHosts[..i];
        var step := ApplyToken(allHosts, nextHostId, changedHosts[i]);
        if step.Err? {
          TokensStop(start, env.prefix, changedHosts, i + 1);
          return Err(step.error);
        }
        allHosts, nextHostId := step.value.hosts, step.value.next;
      }
      assert changedHosts[..|changedHosts|] == changedHosts;
      return Ok(allHosts);
    }

    method RemoveOption(role: string, host: string)
      requires role in config.vals
      modifies `config
      ensures config == old(config).Put(role, old(config).vals[role].Remove(host))
    {
      config := config.Put(role, config.vals[role].Remove(host));
    }

    method PurgeRole(role: string, live: set<string>)
      requires role in config.vals && config.vals[role].Valid()
      modifies `config
      ensures config == old(config).Put(role, old(config).vals[role].Restrict(live))
    {
      ghost var before := config;
      ghost var sec := config.vals[role];
      ghost var part := sec;
      var items := config.vals[role].keys;
      PartlyRestrictedEnds(sec, live);
      PutSame(before, role);
      for i := 0 to |items|
        invariant part == PartlyRestricted(sec, live, i)
        invariant config == before.Put(role, part)
      {
        PartlyRestrictedStep(sec, live, i);
        if items[i] !in live {
          PutPut(before, role, part, part.Remove(items[i]));
          RemoveOption(role, items[i]);
          part := part.Remove(items[i]);
        }
      }
    }

    method PurgeInvalidHosts(hostnames: set<string>, protectedNames: set<string>)
      requires ValidConfig(config)
      modifies `config
      ensures config == Purged(old(config), hostnames + protectedNames)
    {
      ghost var before, live := config, hostnames + protectedNames;
      for i := 0 to |config.keys|
        invariant config == PurgedFirst(before, live, i)
      {
        PurgedStep(before, live, i);
        PurgeRole(config.keys[i], hostnames + protectedNames);
      }
      assert before.keys[..|before.keys|] == before.keys;
    }

    method SetAll(hosts: Section)
      requires ALL in config.vals && config.vals[ALL].Valid() && hosts.Valid()
      modifies `config
      ensures config == old(config).Put(ALL, Merged(old(config).vals[ALL], hosts))
    {
      ghost var before := config;
      MergedStart(before.vals[ALL], hosts);
      for i := 0 to |hosts.keys|
        invariant config == before.Put(ALL, Merged(before.vals[ALL], First(hosts, i)))
      {
        MergedStep(before.vals[ALL], hosts, i);
        PutPut(before, ALL, Merged(before.vals[ALL], First(hosts, i)), Merged(before.vals[ALL], First(hosts, i + 1)));
        AddHostToGroup(ALL, hosts.keys[i], hosts.vals[hosts.keys[i]]);
      }
      FirstAll(hosts);
    }

    /** The loop of the plain set methods. */
    method AddEach(group: string, hosts: seq<string>)
      requires group in config.vals && config.vals[group].Valid()
      modifies `config
      ensures config == AddAll(old(config), group, hosts)
    {
      ghost var before := config;
      AddAllNone(before, group);
      for i := 0 to |hosts|
        invariant group in config.vals
        invariant config == AddAll(before, group, hosts[..i])
      {
        AddAllNext(before, group, hosts, i, config);
        AddHostToGroup(group, hosts[i], "");
      }
      assert hosts[..|hosts|] == hosts;
    }

    method SetKubeMaster(hosts: seq<string>)
      requires Ready(config)
      modifies `config
      ensures config == AddAll(old(config), MASTER, hosts)
    {
      RolesAre();
      AddEach(MASTER, hosts);
    }

    method SetK8sCluster()
      requires Ready(config)
      modifies `config
      ensures config == AddAll(old(config), CLUSTER, [NODE, MASTER])
    {
      RolesAre();
      AddEach(CLUSTER, [NODE, MASTER]);
    }

    method SetEtcd(hosts: seq<string>)
      requires Ready(config)
      modifies `config
      ensures config == InventorySpec.SetEtcd(old(config), hosts)
    {
      ghost var before := config;
      RolesAre();
      SetEtcdStart(before);
      for i := 0 to |hosts|
        invariant config == InventorySpec.SetEtcd(before, hosts[..i])
      {
        SetEtcdNext(before, hosts, i, config);
        AddHostToGroup(ETCD, hosts[i], "");
        AddHostToGroup(VAULT, hosts[i], "");
      }
      assert hosts[..|hosts|] == hosts;
    }

    /** Whether set_kube_node passes over a host, with the sections as they are now. */
    method PassedOver(host: string) returns (skip: bool)
      requires Ready(config)
      ensures skip <==> host in NotWorkers(config, env)
    {
      RolesAre();
      if |config.vals[ALL].keys| >= env.Scale() && host in config.vals[ETCD].vals {
        return true;
      }
      if |config.vals[ALL].keys| >= env.Massive() && host in config.vals[MASTER].vals {
        return true;
      }
      return false;
    }

    method SetKubeNode(hosts: seq<string>)
      requires Ready(config)
      modifies `config
      ensures config == AddAll(old(config), NODE, Workers(old(config), env, hosts))
    {
      ghost var before := config;
      ghost var chosen := SetOf(hosts) - NotWorkers(before, env);
      RolesAre();
      AddAllNone(before, NODE);
      for i := 0 to |hosts|
        invariant Ready(config)
        invariant config == AddAll(before, NODE, Keep(hosts[..i], chosen))
      {
        SameNotWorkers(before, env, Keep(hosts[..i], chosen));
        var skip := PassedOver(hosts[i]);
        AddKeptNext(before, NODE, hosts, chosen, i, config);
        if !skip {
          AddHostToGroup(NODE, hosts[i], "");
        }
      }
      assert hosts[..|hosts|] == hosts;
    }

    /** The two guards compare a bare name with (name, value) pairs, so they never fire. */
    method Conflicts(host: string) returns (conflict: bool)
      requires Ready(config)
      ensures !conflict
    {
      RolesAre();
      conflict := Name(host) in Items(config.vals[MASTER]) || Name(host) in Items(config.vals[NODE]);
    }

    method SetCalicoRr(hosts: seq<string>)
      requires Ready(config)
      modifies `config
      ensures config == AddAll(old(config), REFLECTOR, hosts)
    {
      ghost var before := config;
      RolesAre();
      AddAllNone(before, REFLECTOR);
      for i := 0 to |hosts|
        invariant Ready(config)
        invariant config == AddAll(before, REFLECTOR, hosts[..i])
      {
        AddAllNext(before, REFLECTOR, hosts, i, config);
        AddAllReady(before, REFLECTOR, hosts[..i + 1]);
        var conflict := Conflicts(hosts[i]);
        if !conflict {
          AddHostToGroup(REFLECTOR, hosts[i], "");
        }
      }
      assert hosts[..|hosts|] == hosts;
    }

    /** The option string of one host of a loaded file. */
    method LoadedOptstring(attrs: Attrs) returns (r: Result<string, Failure>)
      requires attrs.Valid()
      ensures r ==
        if "ip" in attrs.vals then Ok(HostOpts(attrs.vals["ip"]) + Extras(attrs.keys, attrs.vals)) else Err(MissingIp)
    {
      if "ip" !in attrs.vals {
        return Err(MissingIp);
      }
      var optstring := "ansible_host=" + attrs.vals["ip"] + " ip=" + attrs.vals["ip"];
      for i := 0 to |attrs.keys|
        invariant optstring == HostOpts(attrs.vals["ip"]) + Extras(attrs.keys[..i], attrs.vals)
      {
        var key := attrs.keys[i];
        assert attrs.keys[..i + 1][..i] == attrs.keys[..i];
        if key == "ip" {
          continue;
        }
        optstring := optstring + (" " + key + "=" + attrs.vals[key]);
      }
      assert attrs.keys[..|attrs.keys|] == attrs.keys;
      return Ok(optstring);
    }

    /** The body of the loop over the hosts of a group. */
    method LoadHost(group: string, host: string, attrs: Attrs) returns (r: Option<Failure>)
      requires attrs.Valid() && ALL in config.vals && group in config.vals
      modifies `config
      ensures match LoadEvent(old(config), Met(group, host, attrs))
              case Ok(c) => r == None && config == c
              case Err(e) => r == Some(e)
      ensures r.None? ==> ALL in config.vals && group in config.vals
    {
      var optstring := LoadedOptstring(attrs);
      if optstring.Err? {
        return Some(optstring.error);
      }
      AddHostToGroup(ALL, host, optstring.value);
      AddHostToGroup(group, host, "");
      return None;
    }

    method LoadHosts(group: string, hosts: Dict<Attrs>) returns (r: Option<Failure>)
      requires ValidHosts(hosts) && ALL in config.vals && group in config.vals
      modifies `config
      ensures match Load(old(config), HostEvents(group, hosts))
              case Ok(c) => r == None && config == c
              case Err(e) => r == Some(e)
      ensures r.None? ==> ALL in config.vals
    {
      ghost var before, events := config, HostEvents(group, hosts);
      for i := 0 to |hosts.keys|
        invariant ALL in config.vals && group in config.vals
        invariant Load(before, events[..i]) == Ok(config)
      {
        var host := hosts.keys[i];
        LoadNext(before, events, i, config);
        r := LoadHost(group, host, hosts.vals[host]);
        if r.Some? {
          LoadStop(before, events, i + 1);
          return;
        }
      }
      assert events[..|events|] == events;
      return None;
    }

    method LoadGroup(group: string, hosts: Dict<Attrs>) returns (r: Option<Failure>)
      requires ValidHosts(hosts) && ALL in config.vals
      modifies `config
      ensures match Load(old(config), GroupEvents(group, hosts))
              case Ok(c) => r == None && config == c
              case Err(e) => r == Some(e)
      ensures r.None? ==> ALL in config.vals
    {
      GroupOpened(config, group);
      LoadConcat(config, [Grouped(group)], HostEvents(group, hosts));
      EnsureRequiredGroups([group]);
      r := LoadHosts(group, hosts);
    }

    method LoadGroups(data: Data) returns (r: Option<Failure>)
      requires ValidData(data) && ALL in config.vals
      modifies `config
      ensures match Load(old(config), FileEvents(data, |data.keys|))
              case Ok(c) => r == None && config == c
              case Err(e) => r == Some(e)
    {
      ghost var before := config;
      for i := 0 to |data.keys|
        invariant ALL in config.vals
        invariant Load(before, FileEvents(data, i)) == Ok(config)
      {
        var group := data.keys[i];
        LoadConcat(before, FileEvents(data, i), GroupEvents(group, data.vals[group]));
        r := LoadGroup(group, data.vals[group]);
        if r.Some? {
          LoadGroupsStop(before, data, i + 1, |data.keys|);
          return;
        }
      }
      return None;
    }

    method LoadOne(data: Data) returns (r: Option<Failure>)
      requires ValidData(data) && ValidConfig(config)
      modifies `config
      ensures match InventorySpec.LoadFile(old(config), data)
              case Ok(c) => r == None && config == c
              case Err(e) => r == Some(e)
    {
      EnsuredIsReady(config);
      RolesAre();
      EnsureRequiredGroups(ROLES);
      SetK8sCluster();
      r := LoadGroups(data);
    }

    /** The body of the loop over the files: a file that was loaded is saved at once. */
    method LoadAndSave(data: Data) returns (r: Option<Failure>)
      requires ValidData(data) && ValidConfig(config)
      modifies `config, `saved
      ensures match InventorySpec.LoadFile(old(config), data)
              case Ok(c) => r == None && config == c && saved == c && ValidConfig(c)
              case Err(e) => r == Some(e) && saved == old(saved)
    {
      LoadFileValid(config, data);
      r := LoadOne(data);
      if r.None? {
        saved := config;
      }
    }

    method LoadFile(files: seq<Data>) returns (r: Option<Failure>)
      requires ValidFiles(files) && ValidConfig(config) && saved == config
      modifies `config, `saved
      ensures saved == LoadFiles(old(config), files).0
      ensures r == if files == [] then Some(NoInputFile) else LoadFiles(old(config), files).1
    {
      if files == [] {
        return Some(NoInputFile);
      }
      ghost var result := LoadFiles(config, files);
      for i := 0 to |files|
        invariant ValidConfig(config) && saved == config
        invariant result == LoadFiles(config, files[i..])
      {
        LoadFilesNext(config, files, i);
        r := LoadAndSave(files[i]);
        if r.Some? {
          return;
        }
      }
      return None;
    }

    method PrintIps() returns (r: Result<seq<string>, Failure>)
      requires ValidConfig(config)
      ensures r == InventorySpec.PrintIps(config)
    {
      if ALL !in config.vals {
        return Err(NoSuchSection);
      }
      var all := config.vals[ALL];
      var ips := [];
      for i := 0 to |all.keys|
        invariant IpList(all.keys[..i], all.vals) == Ok(ips)
      {
        assert all.keys[..i + 1][..i] == all.keys[..i];
        var ip := GetIpFromOpts(all.vals[all.keys[i]]);
        if ip.Err? {
          IpListStop(all.keys, all.vals, i + 1);
          return Err(ip.error);
        }
        ips := ips + [ip.value];
      }
      assert all.keys[..|all.keys|] == all.keys;
      return Ok(ips);
    }

    /** The members of the sections that do not depend on who else serves. */
    method AssignServers()
      requires Ready(config)
      modifies `config
      ensures config == AddServers(old(config), env, hosts.keys) && Ready(config)
    {
      AddAllReady(config, CLUSTER, [NODE, MASTER]);
      SetK8sCluster();
      AddAllReady(config, ETCD, Take(hosts.keys, 3));
      AddAllReady(AddAll(config, ETCD, Take(hosts.keys, 3)), VAULT, Take(hosts.keys, 3));
      SetEtcd(Take(hosts.keys, 3));
      AddAllReady(config, MASTER, FirstMasters(env, hosts.keys));
      if |hosts.keys| >= env.Scale() {
        SetKubeMaster(Slice(hosts.keys, 3, 5));
      } else {
        SetKubeMaster(Take(hosts.keys, 2));
      }
    }

    /** Reassigns every role from the order of `hosts`. */
    method AssignRoles()
      requires Ready(config) && hosts.Valid()
      modifies `config
      ensures config == InventorySpec.AssignRoles(old(config), env, hosts)
    {
      RolesAre();
      PurgedReady(config, SetOf(hosts.keys) + SetOf(ROLES));
      PurgeInvalidHosts(SetOf(hosts.keys), SetOf(ROLES));
      MergedReady(config, hosts);
      SetAll(hosts);
      AssignServers();
      AddAllReady(config, NODE, Workers(config, env, hosts.keys));
      SetKubeNode(hosts.keys);
      if |hosts.keys| >= env.Scale() {
        SetCalicoRr(Take(hosts.keys, 3));
      }
    }

    /** One invocation: a command, an update, or (without arguments) the help text. */
    method Start(args: seq<string>, files: seq<Data>) returns (failure: Option<Failure>)
      requires ValidConfig(saved) && config == saved && ValidFiles(files)
      modifies this
      ensures saved == Saved(old(saved), Run(env, args, files))
      ensures failure == Raised(old(saved), Run(env, args, files))
    {
      if args == [] {
        EnsureRequiredGroups(ROLES);
        return None;
      }
      if args[0] in COMMANDS {
        failure := None;
        if args[0] == "load" {
          failure := LoadFile(files);
        } else if args[0] == "print_ips" {
          var ips := PrintIps();
          failure := if ips.Err? then Some(ips.error) else None;
        }
        return;
      }
      EnsuredIsReady(config);
      EnsureRequiredGroups(ROLES);
      var built := BuildHostnames(args);
      if built.Err? {
        return Some(built.error);
      }
      hosts := built.value;
      AssignRoles();
      saved := config;
      return None;
    }
  }
}
