/** Route reflectors must not also be workers (they clash over the BGP port). The guards meant
    to keep them apart never fire, so separation rests on the order of the runs alone; here is
    exactly when it holds. */
module RoleSeparation {
  import opened Text
  import opened Dicts
  import opened InventorySpec
  import opened HostNames
  import opened Addresses
  import opened RoleHistory
  import opened RoleLayout

  ghost predicate Separated(cfg: Config) {
    forall h :: h in Members(cfg, REFLECTOR) ==> h !in Members(cfg, NODE) && h !in Members(cfg, MASTER)
  }

  /***** One run *****/

  lemma ReflectorsAfter(cfg: Config, env: Env, c: Config, h: string)
    requires Inv(cfg) && Stepped(cfg, env, c)
    ensures h in Members(c, REFLECTOR) <==>
      if |Members(c, ALL)| >= env.Scale() then h in Take(Members(c, ALL), 3)
      else h in Members(cfg, REFLECTOR) && h in Members(c, ALL)
  {
    RoleNames();
    if h in Members(c, REFLECTOR) {
      ReflectorStep(cfg, env, c, h);
    } else if |Members(c, ALL)| >= env.Scale() && h in Take(Members(c, ALL), 3) {
      FrontReflects(cfg, env, c, h);
    }
  }

  lemma FrontWorksAfter(cfg: Config, env: Env, c: Config, h: string)
    requires Inv(cfg) && Stepped(cfg, env, c)
    requires |Members(c, ALL)| >= env.Scale() && h in Take(Members(c, ALL), 3)
    ensures h in Members(c, NODE) <==> h in Members(cfg, NODE)
  {
    RoleNames();
    ServersStep(cfg, env, c);
    AssignedWorker(env, Members(c, ALL), Members(c, ETCD), Members(c, MASTER), h);
  }

  lemma FrontMastersAfter(cfg: Config, env: Env, c: Config, h: string)
    requires Stepped(cfg, env, c)
    requires |Members(c, ALL)| >= env.Scale() && h in Take(Members(c, ALL), 3)
    ensures h in Members(c, MASTER) <==> h in Members(cfg, MASTER)
  {
    RoleNames();
    ServersApart(Members(c, ALL));
  }

  /** None of these hosts has another role. */
  ghost predicate Idle(cfg: Config, hosts: seq<string>) {
    forall h :: h in hosts ==> h !in Members(cfg, NODE) && h !in Members(cfg, MASTER)
  }

  ghost predicate NoReflector(cfg: Config, hosts: seq<string>) {
    forall h :: h in hosts ==> h !in Members(cfg, REFLECTOR)
  }

  /** Nothing that a run over the hosts `hosts` would mix had the other role before it. */
  ghost predicate ApartBefore(cfg: Config, env: Env, hosts: seq<string>) {
    if |hosts| >= env.Scale() then Idle(cfg, Take(hosts, 3)) else NoReflector(cfg, hosts)
  }

  /** The three sections of the first hosts, after a run at scale. */
  ghost predicate FrontAsBefore(cfg: Config, c: Config, front: seq<string>) {
    && (forall h :: h in Members(c, REFLECTOR) <==> h in front)
    && (forall h :: h in front ==> (h in Members(c, NODE) <==> h in Members(cfg, NODE)))
    && (forall h :: h in front ==> (h in Members(c, MASTER) <==> h in Members(cfg, MASTER)))
  }

  lemma FrontAfter(cfg: Config, env: Env, c: Config)
    requires Inv(cfg) && Stepped(cfg, env, c) && |Members(c, ALL)| >= env.Scale()
    ensures FrontAsBefore(cfg, c, Take(Members(c, ALL), 3))
  {
    var front := Take(Members(c, ALL), 3);
    forall h ensures h in Members(c, REFLECTOR) <==> h in front {
      ReflectorsAfter(cfg, env, c, h);
    }
    forall h | h in front ensures h in Members(c, NODE) <==> h in Members(cfg, NODE) {
      FrontWorksAfter(cfg, env, c, h);
    }
    forall h | h in front ensures h in Members(c, MASTER) <==> h in Members(cfg, MASTER) {
      FrontMastersAfter(cfg, env, c, h);
    }
  }

  lemma ApartIf(cfg: Config, c: Config, front: seq<string>)
    requires FrontAsBefore(cfg, c, front)
    ensures Separated(c) <==> Idle(cfg, front)
  {
  }

  lemma ApartAtScale(cfg: Config, env: Env, c: Config)
    requires Inv(cfg) && Stepped(cfg, env, c) && |Members(c, ALL)| >= env.Scale()
    ensures Separated(c) <==> ApartBefore(cfg, env, Members(c, ALL))
  {
    FrontAfter(cfg, env, c);
    ApartIf(cfg, c, Take(Members(c, ALL), 3));
  }

  lemma ApartBelowScale(cfg: Config, env: Env, c: Config)
    requires Inv(cfg) && Stepped(cfg, env, c) && |Members(c, ALL)| < env.Scale()
    ensures Separated(c) <==> ApartBefore(cfg, env, Members(c, ALL))
  {
    var hosts := Members(c, ALL);
    forall h ensures h in Members(c, REFLECTOR) <==> h in Members(cfg, REFLECTOR) && h in hosts {
      ReflectorsAfter(cfg, env, c, h);
    }
    forall h | h in hosts ensures h in Members(c, NODE) {
      PlacementAfterRun(cfg, env, c, h);
    }
    ApartIfAllWork(cfg, c, hosts);
  }

  lemma ApartIfAllWork(cfg: Config, c: Config, hosts: seq<string>)
    requires forall h :: h in Members(c, REFLECTOR) <==> h in Members(cfg, REFLECTOR) && h in hosts
    requires forall h :: h in hosts ==> h in Members(c, NODE)
    ensures Separated(c) <==> NoReflector(cfg, hosts)
  {
  }

  /** A run leaves the reflectors separated exactly when, at scale, none of the first three
      hosts of the new list was a worker or a master before, and below scale, none of its
      hosts was a reflector before. */
  lemma SeparationAfterRun(cfg: Config, env: Env, c: Config)
    requires Inv(cfg) && Stepped(cfg, env, c)
    ensures Separated(c) <==> ApartBefore(cfg, env, Members(c, ALL))
  {
    if |Members(c, ALL)| >= env.Scale() {
      ApartAtScale(cfg, env, c);
    } else {
      ApartBelowScale(cfg, env, c);
    }
  }

  /** The same for the run itself, from any inventory that a history can have saved. */
  lemma SeparationAfterUpdate(cfg: Config, env: Env, tokens: seq<string>)
    requires Inv(cfg) && SafePrefix(env.prefix) && Update(cfg, env, tokens).Ok?
    ensures RunTokens(At(cfg, ALL), env.prefix, tokens).Ok?
    ensures Separated(Update(cfg, env, tokens).value) <==>
      ApartBefore(cfg, env, Built(cfg, env, tokens).keys)
  {
    UpdateSteps(cfg, env, tokens, Update(cfg, env, tokens).value);
    UpdateTransfer(cfg, env, tokens, ALL);
    SeparationAfterRun(cfg, env, Update(cfg, env, tokens).value);
  }

  /***** Growing inventories *****/

  predicate AddOnly(tokens: seq<string>) {
    forall i :: 0 <= i < |tokens| ==> tokens[i] == "" || tokens[i][0] != '-'
  }

  lemma {:induction false} AddOnlyGrows(existing: Section, prefix: string, tokens: seq<string>)
    requires existing.Valid() && SafePrefix(prefix) && AddOnly(tokens)
    requires RunTokens(existing, prefix, tokens).Ok?
    ensures existing.keys <= RunTokens(existing, prefix, tokens).value.hosts.keys
    ensures forall k :: k in existing.keys ==>
      k in RunTokens(existing, prefix, tokens).value.hosts.vals &&
      RunTokens(existing, prefix, tokens).value.hosts.vals[k] == existing.vals[k]
  {
    if tokens == [] {
    } else {
      var init := tokens[..|tokens| - 1];
      assert tokens[|tokens| - 1] == "" || tokens[|tokens| - 1][0] != '-';
      AddOnlyGrows(existing, prefix, init);
      FreshAfter(existing, prefix, init);
    }
  }

  /** What an inventory that only grows keeps, told from its size after the first run. */
  ghost predicate Growing(cfg: Config, env: Env, first: seq<string>) {
    && Inv(cfg)
    && first != [] && first <= Members(cfg, ALL)
    && (|Members(cfg, ALL)| >= env.Scale() ==>
         forall h :: h in Take(Members(cfg, ALL), 3) ==> h in Members(cfg, REFLECTOR))
    && (|first| >= env.Scale() ==> FrontFree(cfg))
    && (|first| < env.Scale() ==> first[0] in Members(cfg, NODE))
    && (|Members(cfg, ALL)| < env.Scale() ==> Members(cfg, REFLECTOR) == [])
  }

  ghost predicate FrontFree(cfg: Config) {
    forall h :: h in Take(Members(cfg, ALL), 3) ==> h !in Members(cfg, NODE) && h !in Members(cfg, MASTER)
  }

  lemma GrowingSeparated(cfg: Config, env: Env, first: seq<string>)
    requires Growing(cfg, env, first)
    ensures Separated(cfg) <==> |first| >= env.Scale() || |Members(cfg, ALL)| < env.Scale()
  {
    if |first| < env.Scale() <= |Members(cfg, ALL)| {
      assert Take(Members(cfg, ALL), 3)[0] == first[0];
      assert first[0] in Take(Members(cfg, ALL), 3);
    }
  }

  /** A host at the front of a longer list was at the front before, or not listed. */
  lemma FrontBefore(before: seq<string>, after: seq<string>, h: string)
    requires before <= after && Distinct(after) && h in Take(after, 3)
    ensures h in Take(before, 3) || h !in Take(before, 5)
  {
    var i :| 0 <= i < |Take(after, 3)| && Take(after, 3)[i] == h;
    assert after[i] == h;
    if i < |before| {
      assert Take(before, 3)[i] == h;
    } else {
      forall j | 0 <= j < |before| ensures before[j] != h {
        assert after[j] == before[j];
        DistinctAt(after, i, j);
      }
    }
  }

  lemma FrontFreeStep(cfg: Config, env: Env, c: Config)
    requires Inv(cfg) && Stepped(cfg, env, c) && FrontFree(cfg)
    requires Members(cfg, ALL) <= Members(c, ALL) && |Members(c, ALL)| >= env.Scale()
    ensures FrontFree(c)
  {
    var before, after := Members(cfg, ALL), Members(c, ALL);
    forall h | h in Take(after, 3) ensures h !in Members(c, NODE) && h !in Members(c, MASTER) {
      FrontBefore(before, after, h);
      FrontWorksAfter(cfg, env, c, h);
      FrontMastersAfter(cfg, env, c, h);
    }
  }

  lemma SmallStep(cfg: Config, env: Env, c: Config)
    requires Inv(cfg) && Stepped(cfg, env, c)
    requires Members(cfg, REFLECTOR) == [] && |Members(c, ALL)| < env.Scale()
    ensures Members(c, REFLECTOR) == []
  {
    forall h ensures h !in Members(c, REFLECTOR) {
      ReflectorsAfter(cfg, env, c, h);
    }
    if Members(c, REFLECTOR) != [] {
      var h := Members(c, REFLECTOR)[0];
      ReflectorsAfter(cfg, env, c, h);
    }
  }

  lemma WorkerStays(cfg: Config, env: Env, c: Config, h: string)
    requires Stepped(cfg, env, c) && h in Members(cfg, NODE) && h in Members(c, ALL)
    ensures h in Members(c, NODE)
  {
    RoleNames();
  }

  lemma GrowingStep(cfg: Config, env: Env, c: Config, first: seq<string>)
    requires Growing(cfg, env, first) && Stepped(cfg, env, c)
    requires Members(cfg, ALL) <= Members(c, ALL)
    ensures Growing(c, env, first)
  {
    InvStep(cfg, env, c);
    if |Members(c, ALL)| >= env.Scale() {
      forall h | h in Take(Members(c, ALL), 3) ensures h in Members(c, REFLECTOR) {
        FrontReflects(cfg, env, c, h);
      }
    } else {
      SmallStep(cfg, env, c);
    }
    if |first| >= env.Scale() {
      FrontFreeStep(cfg, env, c);
    } else {
      assert Members(c, ALL)[0] == first[0];
      WorkerStays(cfg, env, c, first[0]);
    }
  }

  /** The first run, from an empty inventory, and what it builds. */
  ghost predicate FirstBuild(run: Run, built: Config) {
    && UpdateRun(run) && ValidConfig(built)
    && built == Saved(Empty(), run) && Members(built, ALL) != []
  }

  lemma FirstUpdates(run: Run, built: Config)
    requires FirstBuild(run, built)
    ensures Update(Empty(), run.env, run.args) == Ok(built)
  {
  }

  lemma GrowingStart(run: Run, built: Config)
    requires FirstBuild(run, built)
    ensures OnlyAssigned(built, run.env)
    ensures Growing(built, run.env, Members(built, ALL))
  {
    EmptyInv();
    FirstUpdates(run, built);
    FirstOnlyAssigned(run.env, run.args, built);
    UpdateSteps(Empty(), run.env, run.args, built);
    InvStep(Empty(), run.env, built);
    OnlyAssignedGrowing(built, run.env);
  }

  /** From an empty inventory a run leaves nothing but its own assignments. */
  lemma FirstOnlyAssigned(env: Env, tokens: seq<string>, c: Config)
    requires Update(Empty(), env, tokens) == Ok(c)
    ensures OnlyAssigned(c, env)
  {
    EnsureGroupsIs(Empty(), ROLES);
    FreshOnlyAssigned(EnsureGroups(Empty(), ROLES), BuildHostnames(Empty(), env.prefix, tokens).value, env);
  }

  lemma OnlyAssignedGrowing(c: Config, env: Env)
    requires Inv(c) && OnlyAssigned(c, env) && Members(c, ALL) != []
    ensures Growing(c, env, Members(c, ALL))
  {
    var keys := Members(c, ALL);
    OnlyAssignedMasters(c, env);
    OnlyAssignedWorkers(c, env);
    OnlyAssignedReflectors(c, env);
    ServersApart(keys);
    forall h | h in Take(keys, 3) && |keys| >= env.Scale()
      ensures h !in Members(c, NODE) && h !in Members(c, MASTER)
    {
      AssignedWorker(env, keys, Take(keys, 3), FirstMasters(env, keys), h);
    }
    if |keys| < env.Scale() {
      AssignedWorker(env, keys, Take(keys, 3), FirstMasters(env, keys), keys[0]);
    }
  }

  /** Runs that follow the first one, adding hosts under the same environment. */
  ghost predicate GrowthRuns(runs: seq<Run>, env: Env) {
    UpdateRuns(runs) && forall i :: 0 <= i < |runs| ==> runs[i].env == env && AddOnly(runs[i].args)
  }

  lemma SavedGrows(cfg: Config, run: Run, first: seq<string>)
    requires Growing(cfg, run.env, first) && UpdateRun(run) && AddOnly(run.args)
    ensures Growing(Saved(cfg, run), run.env, first)
  {
    if Saved(cfg, run) != cfg {
      UpdateSteps(cfg, run.env, run.args, Saved(cfg, run));
      SavedExtends(cfg, run);
      GrowingStep(cfg, run.env, Saved(cfg, run), first);
    }
  }

  /** A run that only adds keeps the hosts in front. */
  lemma SavedExtends(cfg: Config, run: Run)
    requires Inv(cfg) && UpdateRun(run) && AddOnly(run.args)
    ensures Members(cfg, ALL) <= Members(Saved(cfg, run), ALL)
  {
    if Saved(cfg, run) != cfg {
      UpdateTransfer(cfg, run.env, run.args, ALL);
      AddOnlyGrows(At(cfg, ALL), run.env.prefix, run.args);
    }
  }

  lemma {:induction false} GrowthKeeps(cfg: Config, env: Env, first: seq<string>, runs: seq<Run>)
    requires Growing(cfg, env, first) && GrowthRuns(runs, env)
    ensures Growing(After(cfg, runs), env, first)
  {
    if runs == [] {
    } else {
      var init, last := runs[..|runs| - 1], runs[|runs| - 1];
      GrowthKeeps(cfg, env, first, init);
      SavedGrows(After(cfg, init), last, first);
    }
  }

  /** `cfg` is what runs that only add hosts have made of the first build `built`. */
  ghost predicate Grew(first: Run, runs: seq<Run>, built: Config, cfg: Config) {
    FirstBuild(first, built) && GrowthRuns(runs, first.env) && cfg == After(built, runs)
  }

  lemma GrewKeeps(first: Run, runs: seq<Run>, built: Config, cfg: Config)
    requires Grew(first, runs, built, cfg)
    ensures Growing(cfg, first.env, Members(built, ALL))
  {
    GrowingStart(first, built);
    GrowthKeeps(built, first.env, Members(built, ALL), runs);
  }

  /** An inventory that only grows after its first build keeps route reflectors apart from
      workers and masters exactly when it was built at scale or has not reached it yet. */
  lemma SeparationOfGrowth(first: Run, runs: seq<Run>, built: Config, cfg: Config)
    requires Grew(first, runs, built, cfg)
    ensures Separated(cfg) <==>
      |Members(built, ALL)| >= first.env.Scale() || |Members(cfg, ALL)| < first.env.Scale()
  {
    GrewKeeps(first, runs, built, cfg);
    GrowingSeparated(cfg, first.env, Members(built, ALL));
  }

  /***** Two runs *****/

  /** An address, as a token. */
  predicate IsAddress(t: string) {
    t != "" && IsDigit(t[0]) && Clean(t)
  }

  /** A host name prefix that no address reads like. */
  predicate WordPrefix(prefix: string) {
    prefix != "" && !IsDigit(prefix[0]) && '.' !in prefix
  }

  lemma AddressIsNoCommand(t: string)
    requires IsAddress(t)
    ensures t !in COMMANDS && t != "load"
  {
    assert forall c :: c in COMMANDS ==> c[0] == 'h' || c[0] == 'p' || c[0] == 'l';
    assert "load"[0] == 'l';
  }

  lemma AddressRunIsUpdate(cfg: Config, env: Env, tokens: seq<string>)
    requires ValidConfig(cfg) && WordPrefix(env.prefix) && tokens != [] && IsAddress(tokens[0])
    ensures UpdateRun(Run(env, tokens, []))
    ensures Update(cfg, env, tokens).Ok? ==> Saved(cfg, Run(env, tokens, [])) == Update(cfg, env, tokens).value
  {
    AddressIsNoCommand(tokens[0]);
  }

  /** Distinct addresses. */
  ghost predicate Addressed(tokens: seq<string>) {
    Distinct(tokens) && forall t :: t in tokens ==> IsAddress(t)
  }

  lemma AddressesAreFresh(prefix: string, tokens: seq<string>)
    requires WordPrefix(prefix) && Addressed(tokens)
    ensures FreshTokens(prefix, tokens)
  {
    forall i | 0 <= i < |tokens|
      ensures tokens[i] != "" && IsDigit(tokens[i][0]) && Clean(tokens[i])
      ensures forall id: nat :: tokens[i] != HostName(prefix, id)
    {
      assert tokens[i] in tokens;
      forall id: nat ensures tokens[i] != HostName(prefix, id) {
        assert HostName(prefix, id)[0] == prefix[0];
      }
    }
  }

  lemma UpdatesFirst(env: Env, tokens: seq<string>, built: Config)
    requires WordPrefix(env.prefix) && tokens != [] && IsAddress(tokens[0])
    requires Update(Empty(), env, tokens) == Ok(built) && Members(built, ALL) != []
    ensures FirstBuild(Run(env, tokens, []), built)
  {
    AddressRunIsUpdate(Empty(), env, tokens);
    UpdateValid(Empty(), env, tokens);
  }

  /** A first run over addresses builds. */
  lemma BuildsFirst(env: Env, tokens: seq<string>) returns (built: Config)
    requires WordPrefix(env.prefix) && Addressed(tokens) && tokens != []
    ensures FirstBuild(Run(env, tokens, []), built)
    ensures Members(built, ALL) == FreshList(env.prefix, |tokens|)
    ensures Readable(Members(built, ALL), At(built, ALL).vals)
    ensures Ips(Members(built, ALL), At(built, ALL).vals) == tokens
  {
    AddressesAreFresh(env.prefix, tokens);
    built := FreshLayout(env, tokens);
    assert tokens[0] in tokens;
    UpdatesFirst(env, tokens, built);
  }

  lemma ListIsWorded(prefix: string, n: nat)
    requires WordPrefix(prefix)
    ensures Worded(FreshList(prefix, n)) && HighestId(FreshList(prefix, n)).Ok?
  {
    forall k | k in FreshList(prefix, n) ensures k != "" && !IsDigit(k[0]) && HostId(k).Ok? {
      FreshListMember(prefix, n, k);
      var id: nat :| 1 <= id <= n && k == HostName(prefix, id);
      HostIdOfHostName(prefix, id);
      assert k[0] == prefix[0];
    }
    HighestIdTotal(FreshList(prefix, n));
  }

  /** One new address makes one more host. */
  lemma AddressAdds(prefix: string, existing: Section, ips: seq<string>, a: string)
    requires WordPrefix(prefix) && IsAddress(a) && existing.Valid() && Distinct(ips) && a !in ips
    requires Worded(existing.keys) && HighestId(existing.keys).Ok?
    requires Readable(existing.keys, existing.vals) && Ips(existing.keys, existing.vals) == ips
    ensures RunTokens(existing, prefix, [a]).Ok?
    ensures |RunTokens(existing, prefix, [a]).value.hosts.keys| == |existing.keys| + 1
  {
    RefinesAddressSet(existing, prefix, [a]);
    assert [a][..0] == [];
    assert AddressRun(ips, [a]) == AddressStep(AddressRun(ips, []), a) == ips + [a];
  }

  lemma BuildsAgain(cfg: Config, env: Env, a: string)
    requires ValidConfig(cfg) && RunTokens(At(cfg, ALL), env.prefix, [a]).Ok?
    ensures Update(cfg, env, [a]).Ok?
  {
  }

  lemma SavedOnce(cfg: Config, run: Run)
    requires ValidConfig(cfg) && UpdateRun(run)
    ensures UpdateRuns([run]) && After(cfg, [run]) == Saved(cfg, run)
  {
    assert [run][..0] == [];
    assert After(cfg, []) == cfg;
  }

  lemma AddressUpdates(built: Config, env: Env, tokens: seq<string>, a: string)
    requires WordPrefix(env.prefix) && Addressed(tokens) && IsAddress(a) && a !in tokens
    requires ValidConfig(built) && Members(built, ALL) == FreshList(env.prefix, |tokens|)
    requires Readable(Members(built, ALL), At(built, ALL).vals)
    requires Ips(Members(built, ALL), At(built, ALL).vals) == tokens
    ensures Update(built, env, [a]).Ok?
    ensures |Members(Update(built, env, [a]).value, ALL)| == |tokens| + 1
  {
    ListIsWorded(env.prefix, |tokens|);
    AddressAdds(env.prefix, At(built, ALL), tokens, a);
    BuildsAgain(built, env, a);
    UpdateTransfer(built, env, [a], ALL);
  }

  lemma OneGrowthRun(env: Env, a: string)
    requires WordPrefix(env.prefix) && IsAddress(a)
    ensures GrowthRuns([Run(env, [a], [])], env)
  {
    AddressRunIsUpdate(Empty(), env, [a]);
    assert AddOnly([a]);
  }

  /** A first run over some addresses and a second one over a new address: one more host. */
  lemma GrowsByOne(env: Env, tokens: seq<string>, a: string, built: Config) returns (cfg: Config)
    requires WordPrefix(env.prefix) && Addressed(tokens) && tokens != [] && IsAddress(a) && a !in tokens
    requires FirstBuild(Run(env, tokens, []), built)
    requires Members(built, ALL) == FreshList(env.prefix, |tokens|)
    requires Readable(Members(built, ALL), At(built, ALL).vals)
    requires Ips(Members(built, ALL), At(built, ALL).vals) == tokens
    ensures Grew(Run(env, tokens, []), [Run(env, [a], [])], built, cfg)
    ensures |Members(cfg, ALL)| == |tokens| + 1
  {
    var run := Run(env, [a], []);
    AddressUpdates(built, env, tokens, a);
    AddressRunIsUpdate(built, env, [a]);
    OneGrowthRun(env, a);
    SavedOnce(built, run);
    cfg := Saved(built, run);
  }

  /** Separation is really lost: hosts one below the threshold, then one more. */
  lemma CrossingTheThreshold(env: Env, tokens: seq<string>, a: string) returns (built: Config, cfg: Config)
    requires WordPrefix(env.prefix) && Addressed(tokens) && tokens != [] && IsAddress(a) && a !in tokens
    requires env.Scale() == |tokens| + 1
    ensures Grew(Run(env, tokens, []), [Run(env, [a], [])], built, cfg)
    ensures !Separated(cfg)
  {
    built := BuildsFirst(env, tokens);
    cfg := GrowsByOne(env, tokens, a, built);
    SeparationOfGrowth(Run(env, tokens, []), [Run(env, [a], [])], built, cfg);
  }
}
