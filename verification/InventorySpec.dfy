/** What one run of the inventory builder does to the saved inventory, as functions on
    values. The class in Inventory.dfy is proved to compute exactly these. */
module InventorySpec {
  import opened Text
  import opened Dicts

  /** The exceptions that end a run before the inventory is written. */
  datatype Failure =
    | EmptyToken
    | HostNameWithoutId
    | MalformedOption
    | IpNotFound
    | AddByHostname
    | UnknownIp
    | NoSuchSection
    | MissingIp
    | NoInputFile

  type Section = Dict<string>
  type Config = Dict<Section>

  const ALL := "all"
  const MASTER := "kube-master"
  const NODE := "kube-node"
  const ETCD := "etcd"
  const CLUSTER := "k8s-cluster:children"
  const REFLECTOR := "calico-rr"
  const VAULT := "vault"

  const ROLES: seq<string> := [ALL, MASTER, NODE, ETCD, CLUSTER, REFLECTOR, VAULT]
  const COMMANDS: seq<string> := ["help", "print_cfg", "print_ips", "load"]

  /** The shell variables: both thresholds are read from SCALE_THRESHOLD. */
  datatype Env = Env(scaleThreshold: Option<int>, prefix: string) {
    function Scale(): int {
      match scaleThreshold case Some(n) => n case None => 50
    }

    function Massive(): int {
      match scaleThreshold case Some(n) => n case None => 200
    }
  }

  /** The section called `s`, empty when there is none. */
  function At(cfg: Config, s: string): Section {
    if s in cfg.vals then cfg.vals[s] else Empty()
  }

  function Members(cfg: Config, s: string): seq<string> {
    At(cfg, s).keys
  }

  ghost predicate ValidConfig(cfg: Config) {
    cfg.Valid() && forall s :: s in cfg.vals ==> cfg.vals[s].Valid()
  }

  /***** Host names and option strings *****/

  /** The integer a host name ends in, before its first dot. */
  function HostId(host: string): Result<nat, Failure> {
    var digits := TrailingDigits(Split(host, '.')[0]);
    if digits == "" then Err(HostNameWithoutId) else Ok(Value(digits))
  }

  function IpIn(opts: seq<string>): Result<string, Failure> {
    if opts == [] then Err(IpNotFound)
    else if '=' !in opts[0] then IpIn(opts[1..])
    else
      var parts := Split(opts[0], '=');
      if |parts| != 2 then Err(MalformedOption)
      else if parts[0] == "ip" then Ok(parts[1])
      else IpIn(opts[1..])
  }

  function IpFromOpts(optstring: string): Result<string, Failure> {
    IpIn(Split(optstring, ' '))
  }

  function HostOpts(ip: string): string {
    "ansible_host=" + ip + " ip=" + ip
  }

  /** The first of the listed hosts whose options carry `ip`. An unreadable option
      string met on the way is an error. */
  function FindIp(keys: seq<string>, vals: map<string, string>, ip: string): Result<Option<string>, Failure>
    requires forall k :: k in keys ==> k in vals
  {
    if keys == [] then Ok(None)
    else match IpFromOpts(vals[keys[0]])
      case Err(e) => Err(e)
      case Ok(v) => if v == ip then Ok(Some(keys[0])) else FindIp(keys[1..], vals, ip)
  }

  /***** Host list: build_hostnames *****/

  function HighestId(keys: seq<string>): Result<nat, Failure> {
    if keys == [] then Ok(0)
    else match HighestId(keys[..|keys| - 1])
      case Err(e) => Err(e)
      case Ok(high) =>
        match HostId(keys[|keys| - 1])
        case Err(e) => Err(e)
        case Ok(id) => Ok(if id > high then id else high)
  }

  lemma HighestIdStep(keys: seq<string>, i: nat)
    requires i < |keys| && HighestId(keys[..i]).Ok?
    ensures HostId(keys[i]).Err? ==> HighestId(keys[..i + 1]) == Err(HostId(keys[i]).error)
    ensures HostId(keys[i]).Ok? ==>
      var high, id := HighestId(keys[..i]).value, HostId(keys[i]).value;
      HighestId(keys[..i + 1]) == Ok(if id > high then id else high)
  {
    assert keys[..i + 1][..i] == keys[..i];
  }

  /** The first unreadable name decides. */
  lemma {:induction false} HighestIdStops(keys: seq<string>, n: nat)
    requires n <= |keys| && HighestId(keys[..n]).Err?
    ensures HighestId(keys) == HighestId(keys[..n])
  {
    if n < |keys| {
      var init := keys[..|keys| - 1];
      assert init[..n] == keys[..n];
      HighestIdStops(init, n);
    } else {
      assert keys[..n] == keys;
    }
  }

  /** The growing host list and the next id to hand out. */
  datatype Builder = Builder(hosts: Section, next: nat)

  function HostName(prefix: string, id: nat): string {
    prefix + Decimal(id)
  }

  function Token(b: Builder, prefix: string, token: string): Result<Builder, Failure>
    requires forall k :: k in b.hosts.keys ==> k in b.hosts.vals
  {
    if token == "" then Err(EmptyToken)
    else if token[0] == '-' then
      var target := token[1..];
      if target in b.hosts.vals then Ok(b.(hosts := b.hosts.Remove(target)))
      else match FindIp(b.hosts.keys, b.hosts.vals, target)
        case Err(e) => Err(e)
        case Ok(None) => Ok(b)
        case Ok(Some(host)) => Ok(b.(hosts := b.hosts.Remove(host)))
    else if IsDigit(token[0]) then
      if token in b.hosts.vals then Ok(b)
      else match FindIp(b.hosts.keys, b.hosts.vals, token)
        case Err(e) => Err(e)
        case Ok(Some(_)) => Ok(b)
        case Ok(None) => Ok(Builder(b.hosts.Put(HostName(prefix, b.next), HostOpts(token)), b.next + 1))
    else if IsAlpha(token[0]) then Err(AddByHostname)
    else Ok(b)
  }

  function Tokens(b: Builder, prefix: string, tokens: seq<string>): (r: Result<Builder, Failure>)
    requires b.hosts.Valid()
    ensures r.Ok? ==> r.value.hosts.Valid()
  {
    if tokens == [] then Ok(b)
    else match Tokens(b, prefix, tokens[..|tokens| - 1])
      case Err(e) => Err(e)
      case Ok(b') =>
        TokenValid(b', prefix, tokens[|tokens| - 1]);
        Token(b', prefix, tokens[|tokens| - 1])
  }

  lemma {:induction false} TokensStop(b: Builder, prefix: string, tokens: seq<string>, n: nat)
    requires b.hosts.Valid() && n <= |tokens| && Tokens(b, prefix, tokens[..n]).Err?
    ensures Tokens(b, prefix, tokens) == Tokens(b, prefix, tokens[..n])
  {
    if n < |tokens| {
      var init := tokens[..|tokens| - 1];
      assert init[..n] == tokens[..n];
      TokensStop(b, prefix, init, n);
    } else {
      assert tokens[..n] == tokens;
    }
  }

  lemma TokenValid(b: Builder, prefix: string, token: string)
    requires b.hosts.Valid()
    ensures Token(b, prefix, token).Ok? ==> Token(b, prefix, token).value.hosts.Valid()
  {
    forall k ensures b.hosts.Remove(k).Valid() {
      RemoveValid(b.hosts, k);
    }
    PutValid(b.hosts, HostName(prefix, b.next), HostOpts(token));
  }

  /** The host list and the next free id after all tokens. */
  function RunTokens(existing: Section, prefix: string, tokens: seq<string>): (r: Result<Builder, Failure>)
    requires existing.Valid()
    ensures r.Ok? ==> r.value.hosts.Valid()
  {
    match HighestId(existing.keys)
    case Err(e) => Err(e)
    case Ok(high) => Tokens(Builder(existing, high + 1), prefix, tokens)
  }

  function BuildHostnames(existing: Section, prefix: string, tokens: seq<string>): (r: Result<Section, Failure>)
    requires existing.Valid()
    ensures r.Ok? ==> r.value.Valid()
  {
    match RunTokens(existing, prefix, tokens)
    case Err(e) => Err(e)
    case Ok(b) => Ok(b.hosts)
  }

  /***** Sections: purge and role assignment *****/

  function AddSection(cfg: Config, s: string): Config {
    if s in cfg.vals then cfg else cfg.Put(s, Empty())
  }

  function EnsureGroups(cfg: Config, groups: seq<string>): Config {
    if groups == [] then cfg
    else AddSection(EnsureGroups(cfg, groups[..|groups| - 1]), groups[|groups| - 1])
  }

  /** The sections asked for exist; no section changes. */
  lemma {:induction false} EnsureGroupsIs(cfg: Config, groups: seq<string>)
    ensures forall s :: s in EnsureGroups(cfg, groups).vals <==> s in cfg.vals || s in groups
    ensures forall s :: At(EnsureGroups(cfg, groups), s) == At(cfg, s)
    ensures ValidConfig(cfg) ==> ValidConfig(EnsureGroups(cfg, groups))
  {
    if groups == [] {
    } else {
      var init, last := groups[..|groups| - 1], groups[|groups| - 1];
      assert groups == init + [last];
      EnsureGroupsIs(cfg, init);
      AddSectionValid(EnsureGroups(cfg, init), last);
    }
  }

  lemma AddSectionValid(cfg: Config, s: string)
    ensures ValidConfig(cfg) ==> ValidConfig(AddSection(cfg, s))
  {
    if ValidConfig(cfg) {
      PutValid(cfg, s, Empty());
    }
  }

  function AddTo(cfg: Config, group: string, host: string, opts: string): Config {
    cfg.Put(group, At(cfg, group).Put(host, opts))
  }

  /** Setting one option: it reads back, the other options of the section and their order stay,
      a new option comes last, and neither the sections nor their order change. */
  lemma AddToMeans(cfg: Config, group: string, host: string, opts: string)
    requires group in cfg.vals
    ensures var after := AddTo(cfg, group, host, opts);
      && after.keys == cfg.keys && after.vals.Keys == cfg.vals.Keys
      && (forall s :: s != group ==> At(after, s) == At(cfg, s))
      && Members(after, group) == Members(cfg, group) + (if host in cfg.vals[group].vals then [] else [host])
      && host in At(after, group).vals && At(after, group).vals[host] == opts
      && forall h :: h in cfg.vals[group].vals && h != host ==>
           h in At(after, group).vals && At(after, group).vals[h] == cfg.vals[group].vals[h]
  {
    assert Members(cfg, group) + [] == Members(cfg, group);
  }

  function Purged(cfg: Config, live: set<string>): Config {
    Dict(cfg.keys, map s | s in cfg.vals :: cfg.vals[s].Restrict(live))
  }

  /** `sec` with every listed host set to an empty option string. */
  function Joined(sec: Section, hosts: seq<string>): Section {
    Dict(Extend(sec.keys, hosts), sec.vals + map h | h in hosts :: "")
  }

  /** `sec` with every entry of `hosts` set. */
  function Merged(sec: Section, hosts: Section): Section {
    Dict(Extend(sec.keys, hosts.keys), sec.vals + hosts.vals)
  }

  function AddAll(cfg: Config, group: string, hosts: seq<string>): Config {
    cfg.Put(group, Joined(At(cfg, group), hosts))
  }

  function SetEtcd(cfg: Config, hosts: seq<string>): Config {
    AddAll(AddAll(cfg, ETCD, hosts), VAULT, hosts)
  }

  /** The hosts that set_kube_node passes over. */
  function NotWorkers(cfg: Config, env: Env): set<string> {
    (if |Members(cfg, ALL)| >= env.Scale() then SetOf(Members(cfg, ETCD)) else {}) +
    (if |Members(cfg, ALL)| >= env.Massive() then SetOf(Members(cfg, MASTER)) else {})
  }

  function Workers(cfg: Config, env: Env, hosts: seq<string>): seq<string> {
    Keep(hosts, SetOf(hosts) - NotWorkers(cfg, env))
  }

  function FirstMasters(env: Env, hosts: seq<string>): seq<string> {
    if |hosts| >= env.Scale() then Slice(hosts, 3, 5) else Take(hosts, 2)
  }

  /** The sections after everything but kube-node and calico-rr is assigned. */
  function AddServers(cfg: Config, env: Env, hosts: seq<string>): Config {
    AddAll(SetEtcd(AddAll(cfg, CLUSTER, [NODE, MASTER]), Take(hosts, 3)), MASTER, FirstMasters(env, hosts))
  }

  function AddRoles(cfg: Config, env: Env, hosts: seq<string>): Config {
    var c5 := AddServers(cfg, env, hosts);
    var c6 := AddAll(c5, NODE, Workers(c5, env, hosts));
    if |hosts| >= env.Scale() then AddAll(c6, REFLECTOR, Take(hosts, 3)) else c6
  }

  function AssignRoles(cfg: Config, env: Env, hosts: Section): Config {
    var c1 := Purged(cfg, SetOf(hosts.keys) + SetOf(ROLES));
    AddRoles(c1.Put(ALL, Merged(At(c1, ALL), hosts)), env, hosts.keys)
  }

  /** A run with add and delete tokens. */
  function Update(cfg: Config, env: Env, tokens: seq<string>): Result<Config, Failure>
    requires ValidConfig(cfg)
  {
    match BuildHostnames(At(cfg, ALL), env.prefix, tokens)
    case Err(e) => Err(e)
    case Ok(hosts) => Ok(AssignRoles(EnsureGroups(cfg, ROLES), env, hosts))
  }

  lemma {:induction false} AddAllNone(cfg: Config, group: string)
    requires group in cfg.vals
    ensures AddAll(cfg, group, []) == cfg
  {
    var sec := cfg.vals[group];
    assert sec.vals + (map h | h in [] :: "") == sec.vals;
    PutSame(cfg, group);
  }

  lemma {:induction false} JoinedPut(sec: Section, xs: seq<string>, h: string)
    requires sec.Valid()
    ensures Joined(sec, xs).Put(h, "") == Joined(sec, xs + [h])
  {
    var next := xs + [h];
    assert next[..|xs|] == xs && next[|xs|] == h;
    var m, m' := map k | k in xs :: "", map k | k in next :: "";
    assert m' == m[h := ""];
    assert sec.vals + m' == (sec.vals + m)[h := ""];
    assert h in sec.vals + m <==> h in Extend(sec.keys, xs);
  }

  lemma AddAllStep(cfg: Config, group: string, xs: seq<string>, h: string)
    requires group in cfg.vals && cfg.vals[group].Valid()
    ensures AddTo(AddAll(cfg, group, xs), group, h, "") == AddAll(cfg, group, xs + [h])
  {
    JoinedPut(cfg.vals[group], xs, h);
    PutPut(cfg, group, Joined(cfg.vals[group], xs), Joined(cfg.vals[group], xs + [h]));
  }

  /** The same step, as a loop over `hosts` takes it. */
  lemma AddAllNext(before: Config, group: string, hosts: seq<string>, i: nat, cfg: Config)
    requires group in before.vals && before.vals[group].Valid() && i < |hosts|
    requires cfg == AddAll(before, group, hosts[..i])
    ensures group in cfg.vals
    ensures AddTo(cfg, group, hosts[i], "") == AddAll(before, group, hosts[..i + 1])
  {
    NextSlice(hosts, i);
    AddAllStep(before, group, hosts[..i], hosts[i]);
  }

  /** Adding to one group commutes with adding to another. */
  lemma AddToAddAll(cfg: Config, group: string, other: string, xs: seq<string>, h: string)
    requires group in cfg.vals && other in cfg.vals && group != other
    ensures AddTo(AddAll(cfg, other, xs), group, h, "") == AddAll(AddTo(cfg, group, h, ""), other, xs)
  {
    var a, b := cfg.vals[group].Put(h, ""), Joined(cfg.vals[other], xs);
    assert cfg.vals[other := b][group := a] == cfg.vals[group := a][other := b];
  }

  /** One host added to two groups in turn. */
  lemma AddAllBoth(cfg: Config, group: string, other: string, xs: seq<string>, h: string)
    requires group in cfg.vals && other in cfg.vals && group != other
    requires cfg.vals[group].Valid() && cfg.vals[other].Valid()
    ensures AddTo(AddTo(AddAll(AddAll(cfg, group, xs), other, xs), group, h, ""), other, h, "")
         == AddAll(AddAll(cfg, group, xs + [h]), other, xs + [h])
  {
    AddAllStep(cfg, group, xs, h);
    AddToAddAll(AddAll(cfg, group, xs), group, other, xs, h);
    var c := AddAll(cfg, group, xs + [h]);
    assert c.vals[other] == cfg.vals[other];
    AddAllStep(c, other, xs, h);
  }

  /** Whom set_kube_node passes over does not depend on the workers. */
  lemma SameNotWorkers(cfg: Config, env: Env, hosts: seq<string>)
    ensures NotWorkers(AddAll(cfg, NODE, hosts), env) == NotWorkers(cfg, env)
  {
    var c := AddAll(cfg, NODE, hosts);
    assert NODE != ALL && NODE != ETCD && NODE != MASTER by {
      assert |NODE| != |ALL| && |NODE| != |ETCD| && |NODE| != |MASTER|;
    }
    assert Members(c, ALL) == Members(cfg, ALL);
    assert Members(c, ETCD) == Members(cfg, ETCD);
    assert Members(c, MASTER) == Members(cfg, MASTER);
  }

  lemma SetEtcdStart(cfg: Config)
    requires ETCD in cfg.vals && VAULT in cfg.vals
    ensures SetEtcd(cfg, []) == cfg
  {
    AddAllNone(cfg, ETCD);
    AddAllNone(cfg, VAULT);
  }

  lemma SetEtcdStep(cfg: Config, xs: seq<string>, h: string)
    requires ETCD in cfg.vals && cfg.vals[ETCD].Valid()
    requires VAULT in cfg.vals && cfg.vals[VAULT].Valid()
    ensures ETCD in SetEtcd(cfg, xs).vals
    ensures VAULT in AddTo(SetEtcd(cfg, xs), ETCD, h, "").vals
    ensures AddTo(AddTo(SetEtcd(cfg, xs), ETCD, h, ""), VAULT, h, "") == SetEtcd(cfg, xs + [h])
  {
    AddAllBoth(cfg, ETCD, VAULT, xs, h);
  }

  lemma SetEtcdNext(before: Config, hosts: seq<string>, i: nat, cfg: Config)
    requires ETCD in before.vals && before.vals[ETCD].Valid()
    requires VAULT in before.vals && before.vals[VAULT].Valid()
    requires i < |hosts| && cfg == SetEtcd(before, hosts[..i])
    ensures ETCD in cfg.vals && VAULT in AddTo(cfg, ETCD, hosts[i], "").vals
    ensures AddTo(AddTo(cfg, ETCD, hosts[i], ""), VAULT, hosts[i], "") == SetEtcd(before, hosts[..i + 1])
  {
    NextSlice(hosts, i);
    SetEtcdStep(before, hosts[..i], hosts[i]);
  }

  lemma {:induction false} MergedStart(sec: Section, hosts: Section)
    requires hosts.Valid()
    ensures Merged(sec, First(hosts, 0)) == sec
  {
    assert sec.vals + First(hosts, 0).vals == sec.vals;
  }

  lemma {:induction false} MergedPut(sec: Section, d: Section, h: string, v: string)
    requires sec.Valid() && d.Valid() && h !in d.vals
    ensures Merged(sec, d).Put(h, v) == Merged(sec, d.Put(h, v))
  {
    var keys := d.keys + [h];
    assert keys[..|keys| - 1] == d.keys && keys[|keys| - 1] == h;
    assert sec.vals + d.vals[h := v] == (sec.vals + d.vals)[h := v];
    assert h in sec.vals + d.vals <==> h in Extend(sec.keys, d.keys);
  }

  lemma MergedStep(sec: Section, hosts: Section, i: nat)
    requires sec.Valid() && hosts.Valid() && i < |hosts.keys|
    ensures Merged(sec, First(hosts, i)).Put(hosts.keys[i], hosts.vals[hosts.keys[i]]) ==
      Merged(sec, First(hosts, i + 1))
  {
    FirstStep(hosts, i);
    FirstValid(hosts, i);
    MergedPut(sec, First(hosts, i), hosts.keys[i], hosts.vals[hosts.keys[i]]);
  }

  /** A configuration after the purge of its first `n` sections. */
  function PurgedFirst(cfg: Config, live: set<string>, n: nat): Config
    requires n <= |cfg.keys|
  {
    Dict(cfg.keys, map s | s in cfg.vals :: if s in cfg.keys[..n] then cfg.vals[s].Restrict(live) else cfg.vals[s])
  }

  lemma PurgedStep(cfg: Config, live: set<string>, i: nat)
    requires cfg.Valid() && i < |cfg.keys|
    ensures cfg.keys[i] in PurgedFirst(cfg, live, i).vals
    ensures PurgedFirst(cfg, live, i).vals[cfg.keys[i]] == cfg.vals[cfg.keys[i]]
    ensures PurgedFirst(cfg, live, i + 1) ==
      PurgedFirst(cfg, live, i).Put(cfg.keys[i], cfg.vals[cfg.keys[i]].Restrict(live))
  {
    NextSlice(cfg.keys, i);
    DistinctHere(cfg.keys, i);
  }

  /***** Every operation keeps the sections well formed *****/

  /** The sections a run works on exist. */
  ghost predicate Ready(cfg: Config) {
    ValidConfig(cfg) && forall s :: s in ROLES ==> s in cfg.vals
  }

  lemma RolesAre()
    ensures ALL in ROLES && MASTER in ROLES && NODE in ROLES && ETCD in ROLES
    ensures CLUSTER in ROLES && REFLECTOR in ROLES && VAULT in ROLES
  {
    assert ROLES[0] == ALL && ROLES[1] == MASTER && ROLES[2] == NODE && ROLES[3] == ETCD;
    assert ROLES[4] == CLUSTER && ROLES[5] == REFLECTOR && ROLES[6] == VAULT;
  }

  lemma EnsuredIsReady(cfg: Config)
    requires ValidConfig(cfg)
    ensures Ready(EnsureGroups(cfg, ROLES))
    ensures forall s :: At(EnsureGroups(cfg, ROLES), s) == At(cfg, s)
  {
    EnsureGroupsIs(cfg, ROLES);
  }

  /** A loop that adds the chosen hosts only. */
  lemma AddKeptNext(before: Config, group: string, hosts: seq<string>, chosen: set<string>, i: nat, cfg: Config)
    requires Ready(before) && group in before.vals && i < |hosts|
    requires cfg == AddAll(before, group, Keep(hosts[..i], chosen))
    ensures hosts[i] !in chosen ==> cfg == AddAll(before, group, Keep(hosts[..i + 1], chosen))
    ensures hosts[i] in chosen ==>
      && group in cfg.vals
      && AddTo(cfg, group, hosts[i], "") == AddAll(before, group, Keep(hosts[..i + 1], chosen))
    ensures Ready(AddAll(before, group, Keep(hosts[..i + 1], chosen)))
  {
    KeepNext(hosts, chosen, i);
    AddAllStep(before, group, Keep(hosts[..i], chosen), hosts[i]);
    AddAllReady(before, group, Keep(hosts[..i + 1], chosen));
  }

  lemma AddAllReady(cfg: Config, group: string, hosts: seq<string>)
    requires Ready(cfg)
    ensures Ready(AddAll(cfg, group, hosts))
  {
    AddAllValid(cfg, group, hosts);
  }

  lemma PurgedReady(cfg: Config, live: set<string>)
    requires Ready(cfg)
    ensures Ready(Purged(cfg, live))
  {
    PurgedValid(cfg, live);
  }

  lemma MergedReady(cfg: Config, hosts: Section)
    requires Ready(cfg) && ALL in cfg.vals && hosts.Valid()
    ensures Ready(cfg.Put(ALL, Merged(cfg.vals[ALL], hosts)))
  {
    MergedValid(cfg.vals[ALL], hosts);
    WithSectionValid(cfg, ALL, Merged(cfg.vals[ALL], hosts));
  }

  lemma WithSectionValid(cfg: Config, group: string, sec: Section)
    requires ValidConfig(cfg) && sec.Valid()
    ensures ValidConfig(cfg.Put(group, sec))
  {
    PutValid(cfg, group, sec);
  }

  lemma AddToValid(cfg: Config, group: string, host: string, opts: string)
    requires ValidConfig(cfg)
    ensures ValidConfig(AddTo(cfg, group, host, opts))
  {
    PutValid(At(cfg, group), host, opts);
    WithSectionValid(cfg, group, At(cfg, group).Put(host, opts));
  }

  lemma AddAllValid(cfg: Config, group: string, hosts: seq<string>)
    requires ValidConfig(cfg)
    ensures ValidConfig(AddAll(cfg, group, hosts))
  {
    var sec := At(cfg, group);
    ExtendDistinct(sec.keys, hosts);
    assert Joined(sec, hosts).Valid();
    WithSectionValid(cfg, group, Joined(sec, hosts));
  }

  lemma MergedValid(sec: Section, hosts: Section)
    requires sec.Valid() && hosts.Valid()
    ensures Merged(sec, hosts).Valid()
  {
    ExtendDistinct(sec.keys, hosts.keys);
  }

  lemma PurgedValid(cfg: Config, live: set<string>)
    requires ValidConfig(cfg)
    ensures ValidConfig(Purged(cfg, live))
  {
    forall s | s in cfg.vals ensures cfg.vals[s].Restrict(live).Valid() {
      RestrictValid(cfg.vals[s], live);
    }
  }

  lemma AddServersValid(cfg: Config, env: Env, hosts: seq<string>)
    requires ValidConfig(cfg)
    ensures ValidConfig(AddServers(cfg, env, hosts))
  {
    AddAllValid(cfg, CLUSTER, [NODE, MASTER]);
    var c3 := AddAll(cfg, CLUSTER, [NODE, MASTER]);
    AddAllValid(c3, ETCD, Take(hosts, 3));
    AddAllValid(AddAll(c3, ETCD, Take(hosts, 3)), VAULT, Take(hosts, 3));
    AddAllValid(SetEtcd(c3, Take(hosts, 3)), MASTER, FirstMasters(env, hosts));
  }

  lemma AddRolesValid(cfg: Config, env: Env, hosts: seq<string>)
    requires ValidConfig(cfg)
    ensures ValidConfig(AddRoles(cfg, env, hosts))
  {
    var c5 := AddServers(cfg, env, hosts);
    AddServersValid(cfg, env, hosts);
    AddAllValid(c5, NODE, Workers(c5, env, hosts));
    AddAllValid(AddAll(c5, NODE, Workers(c5, env, hosts)), REFLECTOR, Take(hosts, 3));
  }

  lemma AssignRolesValid(cfg: Config, env: Env, hosts: Section)
    requires ValidConfig(cfg) && hosts.Valid()
    ensures ValidConfig(AssignRoles(cfg, env, hosts))
  {
    var live := SetOf(hosts.keys) + SetOf(ROLES);
    var c1 := Purged(cfg, live);
    PurgedValid(cfg, live);
    MergedValid(At(c1, ALL), hosts);
    WithSectionValid(c1, ALL, Merged(At(c1, ALL), hosts));
    AddRolesValid(c1.Put(ALL, Merged(At(c1, ALL), hosts)), env, hosts.keys);
  }

  lemma UpdateValid(cfg: Config, env: Env, tokens: seq<string>)
    requires ValidConfig(cfg)
    ensures Update(cfg, env, tokens).Ok? ==> ValidConfig(Update(cfg, env, tokens).value)
  {
    EnsureGroupsIs(cfg, ROLES);
    var hosts := BuildHostnames(At(cfg, ALL), env.prefix, tokens);
    if hosts.Ok? {
      AssignRolesValid(EnsureGroups(cfg, ROLES), env, hosts.value);
    }
  }

  /***** The load command *****/

  /** One parsed file: groups, their hosts, and each host's variables. */
  type Attrs = Dict<string>
  type Data = Dict<Dict<Attrs>>

  ghost predicate ValidHosts(hosts: Dict<Attrs>) {
    hosts.Valid() && forall h :: h in hosts.vals ==> hosts.vals[h].Valid()
  }

  ghost predicate ValidData(data: Data) {
    data.Valid() && forall g :: g in data.vals ==> ValidHosts(data.vals[g])
  }

  ghost predicate ValidFiles(files: seq<Data>) {
    forall i :: 0 <= i < |files| ==> ValidData(files[i])
  }

  function Extras(keys: seq<string>, vals: map<string, string>): string
    requires forall k :: k in keys ==> k in vals
  {
    if keys == [] then ""
    else
      var init, last := keys[..|keys| - 1], keys[|keys| - 1];
      Extras(init, vals) + if last == "ip" then "" else " " + last + "=" + vals[last]
  }

  /** What loading a file meets, in order: a group; and a host of a group, with its address,
      if it has one, and what follows it in the option string. */
  datatype Event =
    | Grouped(group: string)
    | Hosted(group: string, host: string, ip: Option<string>, extras: string)

  function Met(group: string, host: string, attrs: Attrs): Event
    requires attrs.Valid()
  {
    var ip := if "ip" in attrs.vals then Some(attrs.vals["ip"]) else None;
    Hosted(group, host, ip, Extras(attrs.keys, attrs.vals))
  }

  function HostEvents(group: string, hosts: Dict<Attrs>): (events: seq<Event>)
    requires ValidHosts(hosts)
    ensures |events| == |hosts.keys|
    ensures forall i :: 0 <= i < |events| ==> events[i] == Met(group, hosts.keys[i], hosts.vals[hosts.keys[i]])
  {
    seq(|hosts.keys|, i requires 0 <= i < |hosts.keys| => Met(group, hosts.keys[i], hosts.vals[hosts.keys[i]]))
  }

  /** The first `n` groups of a file. */
  function FileEvents(data: Data, n: nat): seq<Event>
    requires n <= |data.keys| && ValidData(data)
  {
    if n == 0 then []
    else FileEvents(data, n - 1) + GroupEvents(data.keys[n - 1], data.vals[data.keys[n - 1]])
  }

  function GroupEvents(group: string, hosts: Dict<Attrs>): seq<Event>
    requires ValidHosts(hosts)
  {
    [Grouped(group)] + HostEvents(group, hosts)
  }

  function LoadEvent(cfg: Config, e: Event): Result<Config, Failure> {
    match e
    case Grouped(group) => Ok(AddSection(cfg, group))
    case Hosted(_, _, None, _) => Err(MissingIp)
    case Hosted(group, host, Some(ip), extras) =>
      Ok(AddTo(AddTo(cfg, ALL, host, HostOpts(ip) + extras), group, host, ""))
  }

  function Load(cfg: Config, events: seq<Event>): Result<Config, Failure> {
    if events == [] then Ok(cfg)
    else match Load(cfg, events[..|events| - 1])
      case Err(e) => Err(e)
      case Ok(c) => LoadEvent(c, events[|events| - 1])
  }

  function LoadFile(cfg: Config, data: Data): (r: Result<Config, Failure>)
    requires ValidData(data)
  {
    Load(AddAll(EnsureGroups(cfg, ROLES), CLUSTER, [NODE, MASTER]), FileEvents(data, |data.keys|))
  }

  lemma LoadNext(before: Config, events: seq<Event>, i: nat, cfg: Config)
    requires i < |events| && Load(before, events[..i]) == Ok(cfg)
    ensures Load(before, events[..i + 1]) == LoadEvent(cfg, events[i])
  {
    assert events[..i + 1][..i] == events[..i];
  }

  lemma {:induction false} LoadStop(cfg: Config, events: seq<Event>, n: nat)
    requires n <= |events| && Load(cfg, events[..n]).Err?
    ensures Load(cfg, events) == Load(cfg, events[..n])
  {
    if n < |events| {
      var init := events[..|events| - 1];
      assert init[..n] == events[..n];
      LoadStop(cfg, init, n);
    } else {
      assert events[..n] == events;
    }
  }

  lemma {:induction false} LoadConcat(cfg: Config, a: seq<Event>, b: seq<Event>)
    ensures Load(cfg, a + b) == match Load(cfg, a) case Err(e) => Err(e) case Ok(c) => Load(c, b)
  {
    if b == [] {
      assert a + b == a;
    } else {
      assert (a + b)[..|a + b| - 1] == a + b[..|b| - 1];
      LoadConcat(cfg, a, b[..|b| - 1]);
    }
  }

  lemma GroupOpened(cfg: Config, group: string)
    ensures Load(cfg, [Grouped(group)]) == Ok(EnsureGroups(cfg, [group]))
  {
    assert [Grouped(group)][..0] == [] && [group][..0] == [];
  }

  /** The first group that cannot be loaded decides. */
  lemma {:induction false} LoadGroupsStop(cfg: Config, data: Data, n: nat, m: nat)
    requires n <= m <= |data.keys| && ValidData(data)
    requires Load(cfg, FileEvents(data, n)).Err?
    ensures Load(cfg, FileEvents(data, m)) == Load(cfg, FileEvents(data, n))
  {
    if n == m {
    } else {
      LoadGroupsStop(cfg, data, n, m - 1);
      LoadConcat(cfg, FileEvents(data, m - 1), GroupEvents(data.keys[m - 1], data.vals[data.keys[m - 1]]));
    }
  }

  lemma LoadEventValid(cfg: Config, e: Event)
    requires ValidConfig(cfg)
    ensures LoadEvent(cfg, e).Ok? ==> ValidConfig(LoadEvent(cfg, e).value)
  {
    match e
    case Grouped(group) =>
      WithSectionValid(cfg, group, Empty());
    case Hosted(_, _, None, _) =>
    case Hosted(group, host, Some(ip), extras) =>
      AddToValid(cfg, ALL, host, HostOpts(ip) + extras);
      AddToValid(AddTo(cfg, ALL, host, HostOpts(ip) + extras), group, host, "");
  }

  lemma {:induction false} LoadValid(cfg: Config, events: seq<Event>)
    requires ValidConfig(cfg)
    ensures Load(cfg, events).Ok? ==> ValidConfig(Load(cfg, events).value)
  {
    if events == [] {
    } else {
      var init := events[..|events| - 1];
      LoadValid(cfg, init);
      if Load(cfg, init).Ok? {
        LoadEventValid(Load(cfg, init).value, events[|events| - 1]);
      }
    }
  }

  lemma LoadFileValid(cfg: Config, data: Data)
    requires ValidData(data) && ValidConfig(cfg)
    ensures LoadFile(cfg, data).Ok? ==> ValidConfig(LoadFile(cfg, data).value)
  {
    EnsureGroupsIs(cfg, ROLES);
    AddAllValid(EnsureGroups(cfg, ROLES), CLUSTER, [NODE, MASTER]);
    LoadValid(AddAll(EnsureGroups(cfg, ROLES), CLUSTER, [NODE, MASTER]), FileEvents(data, |data.keys|));
  }

  /** Each file is written as soon as it is loaded, so a failure keeps the files before it. */
  function LoadFiles(cfg: Config, files: seq<Data>): (Config, Option<Failure>)
    requires ValidFiles(files)
    decreases |files|
  {
    if files == [] then (cfg, None)
    else match LoadFile(cfg, files[0])
      case Err(e) => (cfg, Some(e))
      case Ok(c) => LoadFiles(c, files[1..])
  }

  lemma LoadFilesNext(cfg: Config, files: seq<Data>, i: nat)
    requires ValidFiles(files) && i < |files|
    ensures ValidFiles(files[i..]) && ValidFiles(files[i + 1..])
    ensures LoadFile(cfg, files[i]).Err? ==>
      LoadFiles(cfg, files[i..]).0 == cfg && LoadFiles(cfg, files[i..]).1 == Some(LoadFile(cfg, files[i]).error)
    ensures LoadFile(cfg, files[i]).Ok? ==>
      LoadFiles(cfg, files[i..]) == LoadFiles(LoadFile(cfg, files[i]).value, files[i + 1..])
  {
    assert files[i..][1..] == files[i + 1..];
  }

  /***** The print_ips command *****/

  function IpList(keys: seq<string>, vals: map<string, string>): Result<seq<string>, Failure>
    requires forall k :: k in keys ==> k in vals
  {
    if keys == [] then Ok([])
    else match IpList(keys[..|keys| - 1], vals)
      case Err(e) => Err(e)
      case Ok(ips) =>
        match IpFromOpts(vals[keys[|keys| - 1]])
        case Err(e) => Err(e)
        case Ok(ip) => Ok(ips + [ip])
  }

  function PrintIps(cfg: Config): Result<seq<string>, Failure>
    requires ValidConfig(cfg)
  {
    if ALL !in cfg.vals then Err(NoSuchSection)
    else IpList(cfg.vals[ALL].keys, cfg.vals[ALL].vals)
  }

  lemma {:induction false} IpListStop(keys: seq<string>, vals: map<string, string>, n: nat)
    requires forall k :: k in keys ==> k in vals
    requires n <= |keys| && IpList(keys[..n], vals).Err?
    ensures IpList(keys, vals) == IpList(keys[..n], vals)
  {
    if n < |keys| {
      assert keys[..|keys| - 1][..n] == keys[..n];
      IpListStop(keys[..|keys| - 1], vals, n);
    } else {
      assert keys[..n] == keys;
    }
  }

  /***** Whole invocations *****/

  /** One invocation of the program: its environment, its arguments, and the parsed
      contents of the files that a `load` names. */
  datatype Run = Run(env: Env, args: seq<string>, files: seq<Data>)

  /** The exception an invocation ends with, if any. */
  function Raised(cfg: Config, run: Run): Option<Failure>
    requires ValidConfig(cfg)
    requires ValidFiles(run.files)
  {
    if run.args == [] then None
    else if run.args[0] in COMMANDS then
      if run.args[0] == "load" then
        if run.files == [] then Some(NoInputFile) else LoadFiles(cfg, run.files).1
      else if run.args[0] == "print_ips" then
        match PrintIps(cfg) case Err(e) => Some(e) case Ok(_) => None
      else None
    else match Update(cfg, run.env, run.args)
      case Err(e) => Some(e)
      case Ok(_) => None
  }

  /** The saved inventory after an invocation; a failed one leaves it alone. */
  function Saved(cfg: Config, run: Run): Config
    requires ValidConfig(cfg)
    requires ValidFiles(run.files)
  {
    if run.args == [] then cfg
    else if run.args[0] in COMMANDS then
      if run.args[0] == "load" then LoadFiles(cfg, run.files).0 else cfg
    else match Update(cfg, run.env, run.args)
      case Err(_) => cfg
      case Ok(c) => c
  }
}
