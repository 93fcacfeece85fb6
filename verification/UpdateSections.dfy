/** What an update run leaves in the sections of the inventory, and what an invocation leaves in
    the file. */
module UpdateSections {
  import opened Text
  import opened Dicts
  import opened InventorySpec
  import opened HostNames
  import opened RoleHistory
  import opened RoleLayout
  import opened LoadedSections
  import opened HostTokens

  /** The names that a purge never removes, which are also the sections that a run creates. */
  const Protected: seq<string> :=
    ["all", "kube-master", "kube-node", "etcd", "k8s-cluster:children", "calico-rr", "vault"]

  lemma RolesAreProtected()
    ensures ROLES == Protected
  {
  }

  /***** Which sections there are *****/

  lemma {:induction false} EnsureGroupsKeys(cfg: Config, groups: seq<string>)
    requires cfg.Valid()
    ensures EnsureGroups(cfg, groups).Valid()
    ensures EnsureGroups(cfg, groups).keys == Extend(cfg.keys, groups)
  {
    if groups == [] {
    } else {
      var init, last := groups[..|groups| - 1], groups[|groups| - 1];
      EnsureGroupsKeys(cfg, init);
      PutValid(EnsureGroups(cfg, init), last, Empty());
    }
  }

  lemma AddAllKeys(cfg: Config, group: string, hosts: seq<string>)
    requires group in cfg.vals
    ensures AddAll(cfg, group, hosts).keys == cfg.keys && AddAll(cfg, group, hosts).vals.Keys == cfg.vals.Keys
  {
  }

  lemma ServersKeys(cfg: Config, env: Env, hosts: seq<string>)
    requires forall s :: s in ROLES ==> s in cfg.vals
    ensures AddServers(cfg, env, hosts).keys == cfg.keys && AddServers(cfg, env, hosts).vals.Keys == cfg.vals.Keys
  {
    RolesAre();
    var c1 := AddAll(cfg, CLUSTER, [NODE, MASTER]);
    var c2 := AddAll(c1, ETCD, Take(hosts, 3));
    AddAllKeys(cfg, CLUSTER, [NODE, MASTER]);
    AddAllKeys(c1, ETCD, Take(hosts, 3));
    AddAllKeys(c2, VAULT, Take(hosts, 3));
    AddAllKeys(SetEtcd(c1, Take(hosts, 3)), MASTER, FirstMasters(env, hosts));
  }

  lemma RolesKeys(cfg: Config, env: Env, hosts: seq<string>)
    requires forall s :: s in ROLES ==> s in cfg.vals
    ensures AddRoles(cfg, env, hosts).keys == cfg.keys
  {
    RolesAre();
    var c5 := AddServers(cfg, env, hosts);
    ServersKeys(cfg, env, hosts);
    AddAllKeys(c5, NODE, Workers(c5, env, hosts));
    AddAllKeys(AddAll(c5, NODE, Workers(c5, env, hosts)), REFLECTOR, Take(hosts, 3));
  }

  /** An update creates the missing ones of the seven sections, in their order, and no other. */
  lemma UpdateKeys(cfg: Config, env: Env, tokens: seq<string>)
    requires ValidConfig(cfg) && Update(cfg, env, tokens).Ok?
    ensures Update(cfg, env, tokens).value.keys == Extend(cfg.keys, Protected)
  {
    RolesAreProtected();
    EnsureGroupsKeys(cfg, ROLES);
    EnsureGroupsIs(cfg, ROLES);
    RolesAre();
    var c0 := EnsureGroups(cfg, ROLES);
    var hosts := BuildHostnames(At(cfg, ALL), env.prefix, tokens).value;
    var c1 := Purged(c0, SetOf(hosts.keys) + SetOf(ROLES));
    RolesKeys(c1.Put(ALL, Merged(At(c1, ALL), hosts)), env, hosts.keys);
  }

  /***** What is in them *****/

  lemma NoRoleNoMembers(env: Env, hosts: seq<string>, etcd: seq<string>, masters: seq<string>, s: string)
    requires s !in ROLES
    ensures Assigned(env, hosts, etcd, masters, s) == []
  {
    RolesAre();
  }

  lemma RestrictedEntry(sec: Section, live: set<string>)
    requires sec.Valid()
    ensures forall x :: x in sec.Restrict(live).keys ==>
      x in sec.Restrict(live).vals && x in sec.vals && sec.Restrict(live).vals[x] == sec.vals[x]
  {
  }

  /** A section that is no role keeps, in order and with their options, exactly its hosts that are
      still listed and its names of sections. */
  lemma OtherSection(cfg: Config, env: Env, tokens: seq<string>, s: string)
    requires ValidConfig(cfg) && SafePrefix(env.prefix) && Update(cfg, env, tokens).Ok?
    requires s !in Protected
    ensures var c := Update(cfg, env, tokens).value;
      && Members(c, s) == Keep(Members(cfg, s), SetOf(Members(c, ALL)) + SetOf(Protected))
      && forall x :: x in Members(c, s) ==>
           x in At(c, s).vals && x in At(cfg, s).vals && At(c, s).vals[x] == At(cfg, s).vals[x]
  {
    RolesAreProtected();
    UpdateTransfer(cfg, env, tokens, s);
    assert s != ALL by {
      RolesAre();
    }
    var c, hosts := Update(cfg, env, tokens).value, Built(cfg, env, tokens);
    NoRoleNoMembers(env, hosts.keys, Members(c, ETCD), Members(c, MASTER), s);
    JoinedNone(At(cfg, s).Restrict(Live(hosts)));
    RestrictedEntry(At(cfg, s), Live(hosts));
  }

  /** In every section but `all` a run changes no option of an entry that it does not assign, and
      those that it assigns carry none. */
  lemma SectionOptions(cfg: Config, env: Env, tokens: seq<string>, s: string, x: string)
    requires ValidConfig(cfg) && SafePrefix(env.prefix) && Update(cfg, env, tokens).Ok? && s != ALL
    requires x in Members(Update(cfg, env, tokens).value, s)
    ensures var c := Update(cfg, env, tokens).value;
      && x in At(c, s).vals
      && (At(c, s).vals[x] == "" || (x in At(cfg, s).vals && At(c, s).vals[x] == At(cfg, s).vals[x]))
      && (x !in At(cfg, s).vals ==> At(c, s).vals[x] == "")
  {
    UpdateTransfer(cfg, env, tokens, s);
    var kept := At(cfg, s).Restrict(Live(Built(cfg, env, tokens)));
    var c := Update(cfg, env, tokens).value;
    var added := Assigned(env, Members(c, ALL), Members(c, ETCD), Members(c, MASTER), s);
    RestrictValid(At(cfg, s), Live(Built(cfg, env, tokens)));
    JoinedMeans(kept, added);
  }

  /***** What an invocation leaves in the file *****/

  /** Only a successful update and the load command write the file; of an update that fails, of a
      command that prints and of an invocation without arguments nothing remains. An invocation
      raises exactly if its command or update fails. */
  lemma Invocation(cfg: Config, run: Run)
    requires ValidConfig(cfg) && ValidFiles(run.files)
    ensures run.args == [] ==> Saved(cfg, run) == cfg && Raised(cfg, run) == None
    ensures run.args != [] && (run.args[0] == "help" || run.args[0] == "print_cfg") ==>
      Saved(cfg, run) == cfg && Raised(cfg, run) == None
    ensures run.args != [] && run.args[0] == "print_ips" ==>
      && Saved(cfg, run) == cfg && (Raised(cfg, run) == None <==> PrintIps(cfg).Ok?)
      && (ALL !in cfg.vals ==> Raised(cfg, run) == Some(NoSuchSection))
    ensures run.args != [] && run.args[0] == "load" && run.files == [] ==>
      Saved(cfg, run) == cfg && Raised(cfg, run) == Some(NoInputFile)
    ensures run.args != [] && run.args[0] == "load" && run.files != [] ==>
      Saved(cfg, run) == LoadFiles(cfg, run.files).0 && Raised(cfg, run) == LoadFiles(cfg, run.files).1
    ensures run.args != [] && run.args[0] !in ["help", "print_cfg", "print_ips", "load"] ==>
      var r := Update(cfg, run.env, run.args);
      if r.Ok? then Saved(cfg, run) == r.value && Raised(cfg, run) == None
      else Saved(cfg, run) == cfg && Raised(cfg, run) == Some(r.error)
  {
    CommandNames(if run.args == [] then "" else run.args[0]);
  }

  lemma CommandNames(c: string)
    ensures c in COMMANDS <==> c == "help" || c == "print_cfg" || c == "print_ips" || c == "load"
    ensures "print_ips" != "load" && "help" != "load" && "print_cfg" != "load"
    ensures "print_ips" != "help" && "print_ips" != "print_cfg"
  {
    assert COMMANDS[0] == "help" && COMMANDS[1] == "print_cfg" && COMMANDS[2] == "print_ips" && COMMANDS[3] == "load";
    assert |"print_ips"| == 9 && |"help"| == 4 && |"print_cfg"| == 9 && |"load"| == 4;
    assert "help"[0] != "load"[0] && "print_ips"[6] != "print_cfg"[6];
  }
}
