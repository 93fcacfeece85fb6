/** When repeating an add-only run changes nothing. */
module RoleRepeat {
  import opened Text
  import opened Dicts
  import opened InventorySpec
  import opened HostNames
  import opened Addresses
  import opened RoleHistory

  /** Tokens that add an address or that the program ignores. */
  predicate AddToken(t: string) {
    t != "" && t[0] != '-' && (IsDigit(t[0]) ==> Clean(t))
  }

  predicate AddTokens(tokens: seq<string>) {
    forall i :: 0 <= i < |tokens| ==> AddToken(tokens[i])
  }

  /***** A token that was handled once has nothing left to do *****/

  ghost predicate Settled(hosts: Section, t: string)
    requires hosts.Valid()
  {
    && AddToken(t)
    && !(IsAlpha(t[0]) && !IsDigit(t[0]))
    && (IsDigit(t[0]) && t !in hosts.vals ==>
         FindIp(hosts.keys, hosts.vals, t).Ok? && FindIp(hosts.keys, hosts.vals, t).value.Some?)
  }

  lemma SettledIsIdle(hosts: Section, n: nat, prefix: string, t: string)
    requires hosts.Valid() && Settled(hosts, t)
    ensures Token(Builder(hosts, n), prefix, t) == Ok(Builder(hosts, n))
  {
  }

  /** What is found in a list is found in any longer one, at the same host. */
  lemma {:induction false} FindIpLonger(
    keys: seq<string>, vals: map<string, string>, more: seq<string>, vals': map<string, string>, ip: string)
    requires forall k :: k in keys ==> k in vals && k in vals' && vals'[k] == vals[k]
    requires forall k :: k in keys + more ==> k in vals'
    requires FindIp(keys, vals, ip).Ok?
    ensures FindIp(keys, vals, ip).value.Some? ==> FindIp(keys + more, vals', ip) == FindIp(keys, vals, ip)
    ensures FindIp(keys, vals, ip).value.None? ==> FindIp(keys + more, vals', ip) == FindIp(more, vals', ip)
  {
    if keys == [] {
      assert keys + more == more;
    } else {
      assert (keys + more)[1..] == keys[1..] + more;
      if IpFromOpts(vals[keys[0]]).value != ip {
        FindIpLonger(keys[1..], vals, more, vals', ip);
      }
    }
  }

  lemma SettledStays(hosts: Section, name: string, opts: string, t: string)
    requires hosts.Valid() && name !in hosts.vals && Settled(hosts, t)
    ensures hosts.Put(name, opts).Valid()
    ensures Settled(hosts.Put(name, opts), t)
  {
    PutValid(hosts, name, opts);
    if IsDigit(t[0]) && t !in hosts.vals {
      FindIpLonger(hosts.keys, hosts.vals, [name], hosts.Put(name, opts).vals, t);
    }
  }

  lemma HandledIsSettled(b: Builder, prefix: string, t: string)
    requires b.hosts.Valid() && AddToken(t) && Token(b, prefix, t).Ok?
    requires HostName(prefix, b.next) !in b.hosts.vals
    ensures Token(b, prefix, t).value.hosts.Valid()
    ensures Settled(Token(b, prefix, t).value.hosts, t)
  {
    TokenValid(b, prefix, t);
    var hosts := Token(b, prefix, t).value.hosts;
    var name := HostName(prefix, b.next);
    if hosts != b.hosts {
      OptionRoundTrip(t);
      FindIpLonger(b.hosts.keys, b.hosts.vals, [name], hosts.vals, t);
      assert FindIp([name], hosts.vals, t) == Ok(Some(name));
    }
  }

  ghost predicate AllSettled(hosts: Section, tokens: seq<string>)
    requires hosts.Valid()
  {
    forall i :: 0 <= i < |tokens| ==> Settled(hosts, tokens[i])
  }

  lemma SettledAfter(b: Builder, prefix: string, t: string, earlier: string)
    requires b.hosts.Valid() && AddToken(t) && Settled(b.hosts, earlier)
    requires HostName(prefix, b.next) !in b.hosts.keys && Token(b, prefix, t).Ok?
    ensures Token(b, prefix, t).value.hosts.Valid()
    ensures Settled(Token(b, prefix, t).value.hosts, earlier)
  {
    TokenValid(b, prefix, t);
    if Token(b, prefix, t).value.hosts != b.hosts {
      SettledStays(b.hosts, HostName(prefix, b.next), HostOpts(t), earlier);
    }
  }

  lemma SettledNext(b: Builder, prefix: string, init: seq<string>, t: string)
    requires b.hosts.Valid() && AddToken(t) && AllSettled(b.hosts, init)
    requires HostName(prefix, b.next) !in b.hosts.keys && Token(b, prefix, t).Ok?
    ensures Token(b, prefix, t).value.hosts.Valid()
    ensures AllSettled(Token(b, prefix, t).value.hosts, init + [t])
  {
    HandledIsSettled(b, prefix, t);
    forall i | 0 <= i < |init| ensures Settled(Token(b, prefix, t).value.hosts, init[i]) {
      SettledAfter(b, prefix, t, init[i]);
    }
  }

  lemma {:induction false} RunSettlesAll(existing: Section, prefix: string, tokens: seq<string>)
    requires existing.Valid() && SafePrefix(prefix) && AddTokens(tokens)
    requires RunTokens(existing, prefix, tokens).Ok?
    ensures AllSettled(RunTokens(existing, prefix, tokens).value.hosts, tokens)
  {
    if tokens == [] {
    } else {
      var init, t := tokens[..|tokens| - 1], tokens[|tokens| - 1];
      assert AddTokens(init);
      assert AddToken(t);
      RunSettlesAll(existing, prefix, init);
      FreshAfter(existing, prefix, init);
      var b := RunTokens(existing, prefix, init).value;
      SettledNext(b, prefix, init, t);
      assert init + [t] == tokens;
    }
  }

  lemma {:induction false} SettledRun(hosts: Section, n: nat, prefix: string, tokens: seq<string>)
    requires hosts.Valid() && AllSettled(hosts, tokens)
    ensures Tokens(Builder(hosts, n), prefix, tokens) == Ok(Builder(hosts, n))
  {
    if tokens == [] {
    } else {
      SettledRun(hosts, n, prefix, tokens[..|tokens| - 1]);
      SettledIsIdle(hosts, n, prefix, tokens[|tokens| - 1]);
    }
  }

  /** Names written by a run can be read by the next one. */
  lemma IdsStayReadable(existing: Section, prefix: string, tokens: seq<string>)
    requires existing.Valid() && '.' !in prefix
    requires RunTokens(existing, prefix, tokens).Ok?
    ensures HighestId(RunTokens(existing, prefix, tokens).value.hosts.keys).Ok?
  {
    var b := RunTokens(existing, prefix, tokens).value;
    FreshAfter(existing, prefix, tokens);
    forall k | k in b.hosts.keys ensures HostId(k).Ok? {
      if k in existing.keys {
        HighestIdBound(existing.keys, k);
      } else {
        var id: nat :| k == HostName(prefix, id);
        HostIdOfHostName(prefix, id);
      }
    }
    HighestIdTotal(b.hosts.keys);
  }

  lemma BuildAgain(existing: Section, prefix: string, tokens: seq<string>)
    requires existing.Valid() && '.' !in prefix && AddTokens(tokens)
    requires RunTokens(existing, prefix, tokens).Ok?
    ensures var hosts := RunTokens(existing, prefix, tokens).value.hosts;
      BuildHostnames(hosts, prefix, tokens) == Ok(hosts)
  {
    var hosts := RunTokens(existing, prefix, tokens).value.hosts;
    IdsStayReadable(existing, prefix, tokens);
    RunSettlesAll(existing, prefix, tokens);
    SettledRun(hosts, HighestId(hosts.keys).value + 1, prefix, tokens);
  }

  /***** Assigning the same roles again *****/

  lemma JoinedIsLive(sec: Section, live: set<string>, hosts: seq<string>)
    requires sec.Valid() && forall h :: h in hosts ==> h in live
    ensures var joined := Joined(sec.Restrict(live), hosts);
      joined.Restrict(live) == joined
  {
    var joined := Joined(sec.Restrict(live), hosts);
    KeepAll(joined.keys, live);
    assert joined.Restrict(live).vals == joined.vals;
  }

  lemma JoinedAgain(sec: Section, live: set<string>, hosts: seq<string>)
    requires sec.Valid() && forall h :: h in hosts ==> h in live
    ensures var joined := Joined(sec.Restrict(live), hosts);
      Joined(joined.Restrict(live), hosts) == joined
  {
    var kept := sec.Restrict(live);
    var joined := Joined(kept, hosts);
    JoinedIsLive(sec, live, hosts);
    ExtendSubset(joined.keys, hosts);
    assert joined.vals + (map h | h in hosts :: "") == joined.vals;
  }

  lemma AssignedAreLive(env: Env, hosts: Section, etcd: seq<string>, masters: seq<string>, s: string)
    ensures forall h :: h in Assigned(env, hosts.keys, etcd, masters, s) ==> h in Live(hosts)
  {
    assert NODE in ROLES && MASTER in ROLES;
    assert forall h :: h in FirstMasters(env, hosts.keys) ==> h in hosts.keys;
  }

  lemma SectionAgain(cfg: Config, c: Config, c': Config, env: Env, hosts: Section, s: string)
    requires ValidConfig(cfg) && s != ALL
    requires s == ETCD || s == MASTER ||
      (Members(c', ETCD) == Members(c, ETCD) && Members(c', MASTER) == Members(c, MASTER))
    requires At(c, s) == Joined(At(cfg, s).Restrict(Live(hosts)),
                                Assigned(env, hosts.keys, Members(c, ETCD), Members(c, MASTER), s))
    requires At(c', s) == Joined(At(c, s).Restrict(Live(hosts)),
                                 Assigned(env, hosts.keys, Members(c', ETCD), Members(c', MASTER), s))
    ensures At(c', s) == At(c, s)
  {
    RoleNames();
    var xs := Assigned(env, hosts.keys, Members(c, ETCD), Members(c, MASTER), s);
    assert xs == Assigned(env, hosts.keys, Members(c', ETCD), Members(c', MASTER), s);
    AssignedAreLive(env, hosts, Members(c, ETCD), Members(c, MASTER), s);
    JoinedAgain(At(cfg, s), Live(hosts), xs);
  }

  lemma AllAgain(hosts: Section)
    requires hosts.Valid()
    ensures Merged(hosts.Restrict(Live(hosts)), hosts) == hosts
  {
    KeepAll(hosts.keys, Live(hosts));
    ExtendSubset(hosts.keys, hosts.keys);
    assert hosts.Restrict(Live(hosts)).vals + hosts.vals == hosts.vals;
  }

  lemma AddAllKeepsSections(cfg: Config, group: string, hosts: seq<string>)
    requires group in cfg.vals
    ensures AddAll(cfg, group, hosts).keys == cfg.keys
    ensures AddAll(cfg, group, hosts).vals.Keys == cfg.vals.Keys
  {
  }

  lemma AssignKeepsSections(cfg: Config, env: Env, hosts: Section)
    requires forall s :: s in ROLES ==> s in cfg.vals
    ensures AssignRoles(cfg, env, hosts).keys == cfg.keys
    ensures AssignRoles(cfg, env, hosts).vals.Keys == cfg.vals.Keys
  {
    var c1 := Purged(cfg, SetOf(hosts.keys) + SetOf(ROLES));
    var c2 := c1.Put(ALL, Merged(At(c1, ALL), hosts));
    assert c2.vals.Keys == cfg.vals.Keys;
    var front := Take(hosts.keys, 3);
    AddAllKeepsSections(c2, CLUSTER, [NODE, MASTER]);
    var c3 := AddAll(c2, CLUSTER, [NODE, MASTER]);
    AddAllKeepsSections(c3, ETCD, front);
    AddAllKeepsSections(AddAll(c3, ETCD, front), VAULT, front);
    AddAllKeepsSections(SetEtcd(c3, front), MASTER, FirstMasters(env, hosts.keys));
    var c5 := AddServers(c2, env, hosts.keys);
    AddAllKeepsSections(c5, NODE, Workers(c5, env, hosts.keys));
    AddAllKeepsSections(AddAll(c5, NODE, Workers(c5, env, hosts.keys)), REFLECTOR, front);
  }

  lemma {:induction false} NoMissingGroups(cfg: Config, groups: seq<string>)
    requires forall s :: s in groups ==> s in cfg.vals
    ensures EnsureGroups(cfg, groups) == cfg
  {
    if groups == [] {
    } else {
      NoMissingGroups(cfg, groups[..|groups| - 1]);
    }
  }

  /** Two assignments of the same roles in a row are one. */
  lemma AssignAgain(c0: Config, env: Env, hosts: Section)
    requires ValidConfig(c0) && hosts.Valid() && forall s :: s in ROLES ==> s in c0.vals
    requires Merged(At(c0, ALL).Restrict(Live(hosts)), hosts) == hosts
    ensures AssignRoles(AssignRoles(c0, env, hosts), env, hosts) == AssignRoles(c0, env, hosts)
  {
    var c := AssignRoles(c0, env, hosts);
    var c' := AssignRoles(c, env, hosts);
    AssignKeepsSections(c0, env, hosts);
    AssignKeepsSections(c, env, hosts);
    forall s ensures At(c', s) == At(c, s) {
      AssignAgainAt(c0, env, hosts, s);
    }
    SameSections(c, c');
  }

  lemma SameSections(c: Config, c': Config)
    requires c'.keys == c.keys && c'.vals.Keys == c.vals.Keys
    requires forall s :: At(c', s) == At(c, s)
    ensures c' == c
  {
    forall s | s in c.vals ensures s in c'.vals && c'.vals[s] == c.vals[s] {
      assert At(c', s) == At(c, s);
    }
    assert c'.vals == c.vals;
  }

  lemma AssignAgainAt(c0: Config, env: Env, hosts: Section, s: string)
    requires ValidConfig(c0) && hosts.Valid()
    requires Merged(At(c0, ALL).Restrict(Live(hosts)), hosts) == hosts
    ensures At(AssignRoles(AssignRoles(c0, env, hosts), env, hosts), s) == At(AssignRoles(c0, env, hosts), s)
  {
    RoleNames();
    var c := AssignRoles(c0, env, hosts);
    var c' := AssignRoles(c, env, hosts);
    RoleTransfer(c0, env, hosts, ALL);
    AllAgain(hosts);
    RoleTransfer(c, env, hosts, ALL);
    TransferTwice(c0, env, hosts, ETCD);
    SectionAgain(c0, c, c', env, hosts, ETCD);
    TransferTwice(c0, env, hosts, MASTER);
    SectionAgain(c0, c, c', env, hosts, MASTER);
    if s != ALL {
      TransferTwice(c0, env, hosts, s);
      SectionAgain(c0, c, c', env, hosts, s);
    }
  }

  lemma TransferTwice(c0: Config, env: Env, hosts: Section, s: string)
    requires hosts.Valid() && s != ALL
    requires Merged(At(c0, ALL).Restrict(Live(hosts)), hosts) == hosts
    ensures var c := AssignRoles(c0, env, hosts);
      var c' := AssignRoles(c, env, hosts);
      && At(c, s) == Joined(At(c0, s).Restrict(Live(hosts)),
                            Assigned(env, hosts.keys, Members(c, ETCD), Members(c, MASTER), s))
      && At(c', s) == Joined(At(c, s).Restrict(Live(hosts)),
                             Assigned(env, hosts.keys, Members(c', ETCD), Members(c', MASTER), s))
  {
    RoleTransfer(c0, env, hosts, s);
    RoleTransfer(c0, env, hosts, ALL);
    AllAgain(hosts);
    RoleTransfer(AssignRoles(c0, env, hosts), env, hosts, s);
  }

  /** If the next run would build the same hosts, it leaves every section as it is. */
  lemma RepeatsIfBuilt(cfg: Config, env: Env, tokens: seq<string>)
    requires ValidConfig(cfg) && SafePrefix(env.prefix) && Update(cfg, env, tokens).Ok?
    requires RunTokens(At(cfg, ALL), env.prefix, tokens).Ok?
    requires BuildHostnames(Built(cfg, env, tokens), env.prefix, tokens) == Ok(Built(cfg, env, tokens))
    ensures ValidConfig(Update(cfg, env, tokens).value)
    ensures Update(Update(cfg, env, tokens).value, env, tokens) == Update(cfg, env, tokens)
  {
    var c0 := EnsureGroups(cfg, ROLES);
    EnsureGroupsIs(cfg, ROLES);
    var hosts := Built(cfg, env, tokens);
    UpdateValid(cfg, env, tokens);
    AllIsBuilt(At(cfg, ALL), env, tokens);
    RoleTransfer(c0, env, hosts, ALL);
    AssignAgain(c0, env, hosts);
    AssignKeepsSections(c0, env, hosts);
    NoMissingGroups(AssignRoles(c0, env, hosts), ROLES);
  }

  /** For any inventory and any tokens that only add, a run that succeeded can be repeated:
      the second run succeeds and leaves every section, its order and its values as they are. */
  lemma RepeatedRun(cfg: Config, env: Env, tokens: seq<string>)
    requires ValidConfig(cfg) && '.' !in env.prefix && AddTokens(tokens)
    requires Update(cfg, env, tokens).Ok?
    ensures ValidConfig(Update(cfg, env, tokens).value)
    ensures Update(Update(cfg, env, tokens).value, env, tokens) == Update(cfg, env, tokens)
  {
    BuildAgain(At(cfg, ALL), env.prefix, tokens);
    RepeatsIfBuilt(cfg, env, tokens);
  }

  /***** When a run can be repeated *****/

  lemma UnsettledAdds(b: Builder, prefix: string, t: string)
    requires b.hosts.Valid() && AddToken(t) && Token(b, prefix, t).Ok?
    ensures Settled(b.hosts, t) || HostName(prefix, b.next) in Token(b, prefix, t).value.hosts.keys
    ensures forall k :: k in b.hosts.keys ==> k in Token(b, prefix, t).value.hosts.keys
  {
  }

  /** A run of adds finds nothing to do, or the first name it gives out stays. */
  lemma {:induction false} AddsOrIdles(b: Builder, prefix: string, tokens: seq<string>)
    requires b.hosts.Valid() && AddTokens(tokens) && Tokens(b, prefix, tokens).Ok?
    ensures if AllSettled(b.hosts, tokens) then Tokens(b, prefix, tokens) == Ok(b)
            else HostName(prefix, b.next) in Tokens(b, prefix, tokens).value.hosts.keys
  {
    if tokens == [] {
    } else {
      var init, t := tokens[..|tokens| - 1], tokens[|tokens| - 1];
      assert AddTokens(init) && AddToken(t);
      AddsOrIdles(b, prefix, init);
      UnsettledAdds(Tokens(b, prefix, init).value, prefix, t);
      if Settled(b.hosts, t) && AllSettled(b.hosts, init) {
        SettledIsIdle(b.hosts, b.next, prefix, t);
        assert AllSettled(b.hosts, tokens);
      }
    }
  }

  /** A name from a dotted safe prefix has no id. */
  lemma DottedUnreadable(prefix: string, id: nat, keys: seq<string>)
    requires '.' in prefix && SafePrefix(prefix) && HostName(prefix, id) in keys
    ensures HighestId(keys).Err?
  {
    ShortNameOfHostName(prefix, id);
    if HighestId(keys).Ok? {
      HighestIdBound(keys, HostName(prefix, id));
    }
  }

  lemma SettledBuild(existing: Section, prefix: string, tokens: seq<string>)
    requires existing.Valid() && AllSettled(existing, tokens) && RunTokens(existing, prefix, tokens).Ok?
    ensures RunTokens(existing, prefix, tokens).value.hosts == existing
    ensures BuildHostnames(existing, prefix, tokens) == Ok(existing)
  {
    SettledRun(existing, HighestId(existing.keys).value + 1, prefix, tokens);
  }

  lemma UnreadableBuild(existing: Section, prefix: string, tokens: seq<string>)
    requires existing.Valid() && AddTokens(tokens) && !AllSettled(existing, tokens)
    requires SafePrefix(prefix) && '.' in prefix && RunTokens(existing, prefix, tokens).Ok?
    ensures BuildHostnames(RunTokens(existing, prefix, tokens).value.hosts, prefix, tokens).Err?
  {
    var low := HighestId(existing.keys).value + 1;
    AddsOrIdles(Builder(existing, low), prefix, tokens);
    DottedUnreadable(prefix, low, RunTokens(existing, prefix, tokens).value.hosts.keys);
  }

  lemma UpdateFails(cfg: Config, env: Env, tokens: seq<string>, hosts: Section)
    requires ValidConfig(cfg) && hosts == At(cfg, ALL) && BuildHostnames(hosts, env.prefix, tokens).Err?
    ensures Update(cfg, env, tokens).Err?
  {
  }

  /** An add-only run can be repeated without effect exactly when the prefix has no dot or
      there was nothing to add: hosts named after a dotted prefix cannot be read back. */
  lemma RepeatedExactly(cfg: Config, env: Env, tokens: seq<string>)
    requires ValidConfig(cfg) && SafePrefix(env.prefix) && AddTokens(tokens)
    requires Update(cfg, env, tokens).Ok?
    ensures ValidConfig(Update(cfg, env, tokens).value)
    ensures Update(Update(cfg, env, tokens).value, env, tokens) == Update(cfg, env, tokens) <==>
      '.' !in env.prefix || AllSettled(At(cfg, ALL), tokens)
  {
    UpdateTransfer(cfg, env, tokens, ALL);
    var existing := At(cfg, ALL);
    if '.' !in env.prefix {
      RepeatedRun(cfg, env, tokens);
    } else if AllSettled(existing, tokens) {
      SettledBuild(existing, env.prefix, tokens);
      RepeatsIfBuilt(cfg, env, tokens);
    } else {
      UnreadableBuild(existing, env.prefix, tokens);
      UpdateFails(Update(cfg, env, tokens).value, env, tokens, Built(cfg, env, tokens));
    }
  }
}
