/** What the role sections hold: the exact effect of one run, and what every history of
    runs from an empty inventory keeps. */
module RoleHistory {
  import opened Text
  import opened Dicts
  import opened InventorySpec
  import opened HostNames

  /***** One run, section by section *****/

  function Live(hosts: Section): set<string> {
    SetOf(hosts.keys) + SetOf(ROLES)
  }

  /** The members a run assigns to a section, told from positions and from who serves
      etcd and kube-master afterwards. */
  function Assigned(env: Env, hosts: seq<string>, etcd: seq<string>, masters: seq<string>, s: string): seq<string> {
    if s == ALL then hosts
    else if s == CLUSTER then [NODE, MASTER]
    else if s == ETCD || s == VAULT then Take(hosts, 3)
    else if s == MASTER then FirstMasters(env, hosts)
    else if s == REFLECTOR then (if |hosts| >= env.Scale() then Take(hosts, 3) else [])
    else if s == NODE then
      Keep(hosts, SetOf(hosts)
        - (if |hosts| >= env.Scale() then SetOf(etcd) else {})
        - (if |hosts| >= env.Massive() then SetOf(masters) else {}))
    else []
  }

  lemma AddAllAt(cfg: Config, group: string, hosts: seq<string>, s: string)
    ensures At(AddAll(cfg, group, hosts), s) == if s == group then Joined(At(cfg, s), hosts) else At(cfg, s)
  {
  }

  lemma JoinedNone(sec: Section)
    ensures Joined(sec, []) == sec
  {
    assert sec.vals + (map h | h in [] :: "") == sec.vals;
  }

  lemma RoleNames()
    ensures ALL != MASTER && ALL != NODE && ALL != ETCD && ALL != CLUSTER && ALL != REFLECTOR && ALL != VAULT
    ensures MASTER != NODE && MASTER != ETCD && MASTER != CLUSTER && MASTER != REFLECTOR && MASTER != VAULT
    ensures NODE != ETCD && NODE != CLUSTER && NODE != REFLECTOR && NODE != VAULT
    ensures ETCD != CLUSTER && ETCD != REFLECTOR && ETCD != VAULT
    ensures CLUSTER != REFLECTOR && CLUSTER != VAULT && REFLECTOR != VAULT
  {
    assert |ALL| == 3 && |MASTER| == 11 && |NODE| == 9 && |ETCD| == 4;
    assert |CLUSTER| == 20 && |REFLECTOR| == 9 && |VAULT| == 5;
    assert NODE[0] != REFLECTOR[0];
  }

  /** No existing host can be called like a section, so the purge of `all` leaves hosts only. */
  lemma NoRoleAmongHosts(keys: seq<string>, role: string)
    requires HighestId(keys).Ok? && role in ROLES
    ensures role !in keys
  {
    RolesHaveNoId(role);
    if role in keys {
      HighestIdBound(keys, role);
    }
  }

  /** After a run `all` is the built host list itself, in order and with its values. */
  lemma AllIsBuilt(existing: Section, env: Env, tokens: seq<string>)
    requires existing.Valid() && SafePrefix(env.prefix)
    requires RunTokens(existing, env.prefix, tokens).Ok?
    ensures var hosts := RunTokens(existing, env.prefix, tokens).value.hosts;
      Merged(existing.Restrict(Live(hosts)), hosts) == hosts
  {
    var hosts := RunTokens(existing, env.prefix, tokens).value.hosts;
    SurvivorsLead(existing, env.prefix, tokens);
    SurvivorsAreLive(existing, hosts);
    ExtendPrefix(Keep(existing.keys, Live(hosts)), hosts.keys);
    assert existing.Restrict(Live(hosts)).vals + hosts.vals == hosts.vals;
  }

  lemma SurvivorsAreLive(existing: Section, hosts: Section)
    requires existing.Valid() && HighestId(existing.keys).Ok?
    ensures forall k :: k in existing.keys ==> (k in Live(hosts) <==> k in hosts.keys)
    ensures Keep(existing.keys, Live(hosts)) == Keep(existing.keys, SetOf(hosts.keys))
  {
    forall k | k in existing.keys ensures k in Live(hosts) <==> k in hosts.keys {
      if k in ROLES {
        NoRoleAmongHosts(existing.keys, k);
      }
    }
    KeepAgree(existing.keys, Live(hosts), SetOf(hosts.keys));
  }

  lemma AddServersAt(cfg: Config, env: Env, hosts: seq<string>, s: string)
    ensures At(AddServers(cfg, env, hosts), s) ==
      if s == CLUSTER then Joined(At(cfg, s), [NODE, MASTER])
      else if s == ETCD || s == VAULT then Joined(At(cfg, s), Take(hosts, 3))
      else if s == MASTER then Joined(At(cfg, s), FirstMasters(env, hosts))
      else At(cfg, s)
  {
    RoleNames();
    var front := Take(hosts, 3);
    var c3 := AddAll(cfg, CLUSTER, [NODE, MASTER]);
    AddAllAt(cfg, CLUSTER, [NODE, MASTER], s);
    AddAllAt(c3, ETCD, front, s);
    AddAllAt(AddAll(c3, ETCD, front), VAULT, front, s);
    AddAllAt(SetEtcd(c3, front), MASTER, FirstMasters(env, hosts), s);
  }

  lemma WorkersAt(cfg: Config, env: Env, hosts: seq<string>, s: string)
    ensures var c5 := AddServers(cfg, env, hosts);
      At(AddRoles(cfg, env, hosts), s) ==
        if s == NODE then Joined(At(c5, s), Workers(c5, env, hosts))
        else if s == REFLECTOR && |hosts| >= env.Scale() then Joined(At(c5, s), Take(hosts, 3))
        else At(c5, s)
  {
    RoleNames();
    var c5 := AddServers(cfg, env, hosts);
    var c6 := AddAll(c5, NODE, Workers(c5, env, hosts));
    AddAllAt(c5, NODE, Workers(c5, env, hosts), s);
    AddAllAt(c6, REFLECTOR, Take(hosts, 3), s);
  }

  /** The members a chain of role assignments puts into each section. */
  lemma AddRolesAt(cfg: Config, env: Env, hosts: seq<string>, s: string)
    requires Members(cfg, ALL) == hosts
    ensures var c := AddRoles(cfg, env, hosts);
      At(c, s) == if s == ALL then At(cfg, ALL)
                  else Joined(At(cfg, s), Assigned(env, hosts, Members(c, ETCD), Members(c, MASTER), s))
  {
    RoleNames();
    var c5 := AddServers(cfg, env, hosts);
    var c := AddRoles(cfg, env, hosts);
    AddServersAt(cfg, env, hosts, s);
    WorkersAt(cfg, env, hosts, s);
    if s == NODE {
      AddServersAt(cfg, env, hosts, ALL);
      WorkersAt(cfg, env, hosts, ETCD);
      WorkersAt(cfg, env, hosts, MASTER);
      WorkersAssigned(c5, env, hosts);
    } else {
      JoinedNone(At(cfg, s));
    }
  }

  lemma WorkersAssigned(cfg: Config, env: Env, hosts: seq<string>)
    requires Members(cfg, ALL) == hosts
    ensures Workers(cfg, env, hosts) == Assigned(env, hosts, Members(cfg, ETCD), Members(cfg, MASTER), NODE)
  {
    RoleNames();
    KeepAgree(hosts, SetOf(hosts) - NotWorkers(cfg, env),
      SetOf(hosts) - (if |hosts| >= env.Scale() then SetOf(Members(cfg, ETCD)) else {})
                   - (if |hosts| >= env.Massive() then SetOf(Members(cfg, MASTER)) else {}));
  }

  /** Every section ends as its surviving old entries followed by the members assigned now. */
  lemma RoleTransfer(cfg: Config, env: Env, hosts: Section, s: string)
    requires Merged(At(cfg, ALL).Restrict(Live(hosts)), hosts) == hosts
    ensures var c := AssignRoles(cfg, env, hosts);
      At(c, s) == if s == ALL then hosts
                  else Joined(At(cfg, s).Restrict(Live(hosts)),
                              Assigned(env, hosts.keys, Members(c, ETCD), Members(c, MASTER), s))
  {
    var c1 := Purged(cfg, Live(hosts));
    PurgedAt(cfg, Live(hosts), s);
    PurgedAt(cfg, Live(hosts), ALL);
    var c2 := c1.Put(ALL, Merged(At(c1, ALL), hosts));
    assert At(c2, s) == if s == ALL then hosts else At(c1, s);
    assert Members(c2, ALL) == hosts.keys;
    AddRolesAt(c2, env, hosts.keys, s);
  }

  lemma PurgedAt(cfg: Config, live: set<string>, s: string)
    ensures At(Purged(cfg, live), s) == At(cfg, s).Restrict(live)
  {
    assert Empty<string>().Restrict(live) == Empty<string>();
  }

  /***** One run, from the saved inventory *****/

  function Built(cfg: Config, env: Env, tokens: seq<string>): Section
    requires ValidConfig(cfg) && RunTokens(At(cfg, ALL), env.prefix, tokens).Ok?
  {
    RunTokens(At(cfg, ALL), env.prefix, tokens).value.hosts
  }

  /** The transfer function of a successful run: `all` is the built list, and every other
      section keeps its surviving entries and gains the members assigned now. */
  lemma UpdateTransfer(cfg: Config, env: Env, tokens: seq<string>, s: string)
    requires ValidConfig(cfg) && SafePrefix(env.prefix) && Update(cfg, env, tokens).Ok?
    ensures RunTokens(At(cfg, ALL), env.prefix, tokens).Ok?
    ensures var c, hosts := Update(cfg, env, tokens).value, Built(cfg, env, tokens);
      && ValidConfig(c) && hosts.Valid()
      && At(c, ALL) == hosts
      && (s != ALL ==>
           At(c, s) == Joined(At(cfg, s).Restrict(Live(hosts)),
                              Assigned(env, hosts.keys, Members(c, ETCD), Members(c, MASTER), s)))
  {
    UpdateValid(cfg, env, tokens);
    AllIsBuilt(At(cfg, ALL), env, tokens);
    EnsureGroupsIs(cfg, ROLES);
    RoleTransfer(EnsureGroups(cfg, ROLES), env, Built(cfg, env, tokens), s);
    RoleTransfer(EnsureGroups(cfg, ROLES), env, Built(cfg, env, tokens), ALL);
  }

  /** The same, as the ordered members of a section. */
  lemma UpdateMembers(cfg: Config, env: Env, tokens: seq<string>, s: string)
    requires ValidConfig(cfg) && SafePrefix(env.prefix) && Update(cfg, env, tokens).Ok?
    ensures var c := Update(cfg, env, tokens).value;
      && ValidConfig(c)
      && Follows(Members(cfg, ALL), Members(c, ALL))
      && (forall h :: h in Members(cfg, ALL) ==> (h in Live(At(c, ALL)) <==> h in Members(c, ALL)))
      && (s != ALL ==>
           Members(c, s) == Extend(Keep(Members(cfg, s), Live(At(c, ALL))),
                                   Assigned(env, Members(c, ALL), Members(c, ETCD), Members(c, MASTER), s)))
  {
    UpdateTransfer(cfg, env, tokens, s);
    SurvivorsLead(At(cfg, ALL), env.prefix, tokens);
    SurvivorsAreLive(At(cfg, ALL), Built(cfg, env, tokens));
  }

  /***** What every history keeps *****/

  /** etcd and vault are the first three hosts, in order. */
  ghost predicate ServersLead(cfg: Config) {
    && Members(cfg, ETCD) == Take(Members(cfg, ALL), 3)
    && Members(cfg, VAULT) == Take(Members(cfg, ALL), 3)
  }

  /** Route reflectors serve etcd, masters are among the first five, workers exist. */
  ghost predicate RolesInBounds(cfg: Config) {
    && (forall h :: h in Members(cfg, REFLECTOR) ==> h in Members(cfg, ETCD))
    && (forall h :: h in Members(cfg, MASTER) ==> h in Take(Members(cfg, ALL), 5))
    && (forall h :: h in Members(cfg, NODE) ==> h in Members(cfg, ALL))
  }

  /** The cluster consists of the workers and the masters, in that order, as soon as there are
      hosts. */
  ghost predicate ChildrenListed(cfg: Config) {
    || Members(cfg, CLUSTER) == [NODE, MASTER]
    || (Members(cfg, CLUSTER) == [] && Members(cfg, ALL) == [])
  }

  /** Every host is in the cluster or is a route reflector. */
  ghost predicate NoOrphan(cfg: Config) {
    forall h :: h in Members(cfg, ALL) ==>
      h in Members(cfg, NODE) || h in Members(cfg, MASTER) || h in Members(cfg, REFLECTOR)
  }

  ghost predicate Inv(cfg: Config) {
    ValidConfig(cfg) && ServersLead(cfg) && RolesInBounds(cfg) && ChildrenListed(cfg) && NoOrphan(cfg)
  }

  /** The effect of a successful run on the members of all sections. */
  ghost predicate Stepped(cfg: Config, env: Env, c: Config) {
    && ValidConfig(c)
    && Follows(Members(cfg, ALL), Members(c, ALL))
    && (forall h :: h in Members(cfg, ALL) ==> (h in Live(At(c, ALL)) <==> h in Members(c, ALL)))
    && (forall s :: s != ALL ==>
         Members(c, s) == Extend(Keep(Members(cfg, s), Live(At(c, ALL))),
                                 Assigned(env, Members(c, ALL), Members(c, ETCD), Members(c, MASTER), s)))
  }

  lemma UpdateSteps(cfg: Config, env: Env, tokens: seq<string>, c: Config)
    requires ValidConfig(cfg) && SafePrefix(env.prefix) && Update(cfg, env, tokens) == Ok(c)
    ensures Stepped(cfg, env, c)
  {
    UpdateMembers(cfg, env, tokens, ALL);
    forall s | s != ALL
      ensures Members(c, s) == Extend(Keep(Members(cfg, s), Live(At(c, ALL))),
                                      Assigned(env, Members(c, ALL), Members(c, ETCD), Members(c, MASTER), s))
    {
      UpdateMembers(cfg, env, tokens, s);
    }
  }

  lemma ServersStep(cfg: Config, env: Env, c: Config)
    requires Inv(cfg) && Stepped(cfg, env, c)
    ensures ServersLead(c)
  {
    RoleNames();
    FrontAfterRun(Members(cfg, ALL), Members(c, ALL), 3, Live(At(c, ALL)));
  }

  lemma ReflectorStep(cfg: Config, env: Env, c: Config, h: string)
    requires Inv(cfg) && Stepped(cfg, env, c)
    requires h in Members(c, REFLECTOR)
    ensures h in Take(Members(c, ALL), 3)
  {
    RoleNames();
    if h in Members(cfg, REFLECTOR) && h in Live(At(c, ALL)) {
      assert h in Members(cfg, ETCD);
      SurvivorsMoveForward(Members(cfg, ALL), Members(c, ALL), 3, h);
    }
  }

  lemma MasterStep(cfg: Config, env: Env, c: Config, h: string)
    requires Inv(cfg) && Stepped(cfg, env, c)
    requires h in Members(c, MASTER)
    ensures h in Take(Members(c, ALL), 5)
  {
    RoleNames();
    if h in Members(cfg, MASTER) && h in Live(At(c, ALL)) {
      assert h in Take(Members(cfg, ALL), 5);
      SurvivorsMoveForward(Members(cfg, ALL), Members(c, ALL), 5, h);
    } else {
      MastersAmongFive(env, Members(c, ALL), h);
    }
  }

  lemma MastersAmongFive(env: Env, hosts: seq<string>, h: string)
    requires h in FirstMasters(env, hosts)
    ensures h in Take(hosts, 5)
  {
    assert Take(hosts, 2) <= Take(hosts, 5);
  }

  lemma NodeStep(cfg: Config, env: Env, c: Config, h: string)
    requires Inv(cfg) && Stepped(cfg, env, c)
    requires h in Members(c, NODE)
    ensures h in Members(c, ALL)
  {
    RoleNames();
  }

  lemma ChildrenKept(children: seq<string>, live: set<string>)
    requires children == [] || children == [NODE, MASTER]
    requires NODE in live && MASTER in live
    ensures Extend(Keep(children, live), [NODE, MASTER]) == [NODE, MASTER]
  {
    KeepAll(children, live);
    RoleNames();
    DistinctConcat([NODE], [MASTER]);
    assert [NODE] + [MASTER] == [NODE, MASTER];
    ExtendPrefix(children, [NODE, MASTER]);
  }

  lemma ChildrenStep(cfg: Config, env: Env, c: Config)
    requires Inv(cfg) && Stepped(cfg, env, c)
    ensures Members(c, CLUSTER) == [NODE, MASTER]
  {
    RoleNames();
    RolesAre();
    ChildrenKept(Members(cfg, CLUSTER), Live(At(c, ALL)));
  }

  lemma BoundsStep(cfg: Config, env: Env, c: Config)
    requires Inv(cfg) && Stepped(cfg, env, c)
    ensures RolesInBounds(c)
  {
    ServersStep(cfg, env, c);
    forall h | h in Members(c, REFLECTOR) ensures h in Members(c, ETCD) {
      ReflectorStep(cfg, env, c, h);
    }
    forall h | h in Members(c, MASTER) ensures h in Take(Members(c, ALL), 5) {
      MasterStep(cfg, env, c, h);
    }
    forall h | h in Members(c, NODE) ensures h in Members(c, ALL) {
      NodeStep(cfg, env, c, h);
    }
  }

  lemma AssignedWorker(env: Env, hosts: seq<string>, etcd: seq<string>, masters: seq<string>, h: string)
    ensures h in Assigned(env, hosts, etcd, masters, NODE) <==>
      && h in hosts
      && !(|hosts| >= env.Scale() && h in etcd)
      && !(|hosts| >= env.Massive() && h in masters)
  {
    RoleNames();
  }

  /** Everybody works below the first threshold; from then on the first three hosts are route
      reflectors, and another host works or, at massive scale, is a master. */
  ghost predicate Placed(cfg: Config, env: Env, h: string) {
    var n, front := |Members(cfg, ALL)|, Take(Members(cfg, ALL), 3);
    && (n < env.Scale() ==> h in Members(cfg, NODE))
    && (n >= env.Scale() && h in front ==> h in Members(cfg, REFLECTOR))
    && (n >= env.Scale() && h !in front ==>
         h in Members(cfg, NODE) || (n >= env.Massive() && h in Members(cfg, MASTER)))
  }

  ghost predicate AllPlaced(cfg: Config, env: Env) {
    forall h :: h in Members(cfg, ALL) ==> Placed(cfg, env, h)
  }

  /** Where a run leaves each host. */
  lemma PlacementAfterRun(cfg: Config, env: Env, c: Config, h: string)
    requires Inv(cfg) && Stepped(cfg, env, c)
    requires h in Members(c, ALL)
    ensures Placed(c, env, h)
  {
    ServersStep(cfg, env, c);
    AssignedWorker(env, Members(c, ALL), Members(c, ETCD), Members(c, MASTER), h);
    if |Members(c, ALL)| >= env.Scale() && h in Take(Members(c, ALL), 3) {
      FrontReflects(cfg, env, c, h);
    }
  }

  lemma FrontReflects(cfg: Config, env: Env, c: Config, h: string)
    requires ValidConfig(cfg) && Stepped(cfg, env, c)
    requires |Members(c, ALL)| >= env.Scale()
    requires h in Take(Members(c, ALL), 3)
    ensures h in Members(c, REFLECTOR)
  {
    RoleNames();
  }

  lemma InvStep(cfg: Config, env: Env, c: Config)
    requires Inv(cfg) && Stepped(cfg, env, c)
    ensures Inv(c)
  {
    ServersStep(cfg, env, c);
    BoundsStep(cfg, env, c);
    ChildrenStep(cfg, env, c);
    forall h | h in Members(c, ALL)
      ensures h in Members(c, NODE) || h in Members(c, MASTER) || h in Members(c, REFLECTOR)
    {
      PlacementAfterRun(cfg, env, c, h);
    }
  }

  /** A run that loads no file and names its hosts safely. Commands that only print, runs
      without arguments and runs that fail are included. */
  ghost predicate UpdateRun(run: Run) {
    && SafePrefix(run.env.prefix)
    && ValidFiles(run.files)
    && (run.args == [] || run.args[0] != "load")
  }

  lemma SavedValid(cfg: Config, run: Run)
    requires ValidConfig(cfg) && UpdateRun(run)
    ensures ValidConfig(Saved(cfg, run))
  {
    if run.args != [] && run.args[0] !in COMMANDS {
      UpdateValid(cfg, run.env, run.args);
    }
  }

  lemma SavedKeepsInv(cfg: Config, run: Run)
    requires Inv(cfg) && UpdateRun(run)
    ensures Inv(Saved(cfg, run))
  {
    if Saved(cfg, run) != cfg {
      UpdateSteps(cfg, run.env, run.args, Saved(cfg, run));
      InvStep(cfg, run.env, Saved(cfg, run));
    }
  }

  ghost predicate UpdateRuns(runs: seq<Run>) {
    forall i :: 0 <= i < |runs| ==> UpdateRun(runs[i])
  }

  /** The saved inventory after runs that start from `cfg`. */
  ghost function After(cfg: Config, runs: seq<Run>): (c: Config)
    requires ValidConfig(cfg) && UpdateRuns(runs)
    ensures ValidConfig(c)
  {
    if runs == [] then cfg
    else
      var init, last := runs[..|runs| - 1], runs[|runs| - 1];
      SavedValid(After(cfg, init), last);
      Saved(After(cfg, init), last)
  }

  /** The saved inventory after a history of runs from an empty one. */
  ghost function History(runs: seq<Run>): Config
    requires UpdateRuns(runs)
  {
    After(Empty(), runs)
  }

  lemma {:induction false} RunsKeepInv(cfg: Config, runs: seq<Run>)
    requires Inv(cfg) && UpdateRuns(runs)
    ensures Inv(After(cfg, runs))
  {
    if runs == [] {
    } else {
      var init, last := runs[..|runs| - 1], runs[|runs| - 1];
      RunsKeepInv(cfg, init);
      SavedKeepsInv(After(cfg, init), last);
    }
  }

  lemma EmptyInv()
    ensures Inv(Empty())
  {
  }

  /** Over every history of adds and deletes, whatever thresholds and prefixes the runs used:
      etcd and vault are exactly the first three hosts in stored order, every route reflector
      serves etcd, the masters are among the first five, the cluster lists workers and masters,
      and no host is left without a role; so every etcd host is in the cluster or is a route
      reflector. */
  lemma EveryHistory(runs: seq<Run>)
    requires UpdateRuns(runs)
    ensures var cfg := History(runs);
      && Members(cfg, ETCD) == Take(Members(cfg, ALL), 3)
      && Members(cfg, VAULT) == Take(Members(cfg, ALL), 3)
      && (forall h :: h in Members(cfg, REFLECTOR) ==> h in Members(cfg, ETCD))
      && (forall h :: h in Members(cfg, MASTER) ==> h in Take(Members(cfg, ALL), 5))
      && (Members(cfg, ALL) != [] ==> Members(cfg, CLUSTER) == [NODE, MASTER])
      && (forall h :: h in Members(cfg, ALL) ==>
           h in Members(cfg, NODE) || h in Members(cfg, MASTER) || h in Members(cfg, REFLECTOR))
      && (forall h :: h in Members(cfg, ETCD) ==>
           h in Members(cfg, NODE) || h in Members(cfg, MASTER) || h in Members(cfg, REFLECTOR))
  {
    EmptyInv();
    RunsKeepInv(Empty(), runs);
  }

  /** The thresholds of a run are those of `env`. */
  ghost predicate SameThresholds(runs: seq<Run>, env: Env) {
    forall i :: 0 <= i < |runs| ==> runs[i].env.scaleThreshold == env.scaleThreshold
  }

  lemma SavedPlaced(cfg: Config, run: Run, env: Env)
    requires Inv(cfg) && UpdateRun(run) && run.env.scaleThreshold == env.scaleThreshold && AllPlaced(cfg, env)
    ensures AllPlaced(Saved(cfg, run), env)
  {
    if Saved(cfg, run) != cfg {
      var c := Saved(cfg, run);
      UpdateSteps(cfg, run.env, run.args, c);
      forall h | h in Members(c, ALL) ensures Placed(c, env, h) {
        PlacementAfterRun(cfg, run.env, c, h);
      }
    }
  }

  lemma {:induction false} RunsKeepPlaced(cfg: Config, runs: seq<Run>, env: Env)
    requires Inv(cfg) && UpdateRuns(runs) && SameThresholds(runs, env) && AllPlaced(cfg, env)
    ensures AllPlaced(After(cfg, runs), env)
  {
    if runs == [] {
    } else {
      var init, last := runs[..|runs| - 1], runs[|runs| - 1];
      RunsKeepInv(cfg, init);
      RunsKeepPlaced(cfg, init, env);
      SavedPlaced(After(cfg, init), last, env);
    }
  }

  /** Over every history under one threshold, the placement of every host is told by the size of
      the inventory and its place in it, wherever the sizes in between were. */
  lemma PlacementHistory(runs: seq<Run>, env: Env)
    requires UpdateRuns(runs) && SameThresholds(runs, env)
    ensures AllPlaced(History(runs), env)
  {
    EmptyInv();
    RunsKeepPlaced(Empty(), runs, env);
  }
}
