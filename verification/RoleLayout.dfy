/** What a fresh build looks like at each size. */
module RoleLayout {
  import opened Text
  import opened Dicts
  import opened InventorySpec
  import opened HostNames
  import opened Addresses
  import opened RoleHistory

  /***** Fresh builds *****/

  /** The names a fresh build hands out, in order. */
  function FreshList(prefix: string, n: nat): (r: seq<string>)
    ensures |r| == n
  {
    if n == 0 then [] else FreshList(prefix, n - 1) + [HostName(prefix, n)]
  }

  lemma {:induction false} FreshListNext(prefix: string, n: nat, id: nat)
    requires HostName(prefix, id) in FreshList(prefix, n)
    ensures 1 <= id <= n
  {
    if HostName(prefix, id) == HostName(prefix, n) {
      HostNameInjective(prefix, id, n);
    } else {
      FreshListNext(prefix, n - 1, id);
    }
  }

  lemma {:induction false} FreshListMember(prefix: string, n: nat, k: string)
    requires k in FreshList(prefix, n)
    ensures exists id: nat :: 1 <= id <= n && k == HostName(prefix, id)
  {
    if k != HostName(prefix, n) {
      FreshListMember(prefix, n - 1, k);
    }
  }

  /** Distinct addresses, none of which reads like an allocated name. */
  ghost predicate FreshTokens(prefix: string, tokens: seq<string>) {
    && Distinct(tokens)
    && forall i :: 0 <= i < |tokens| ==>
      && tokens[i] != "" && IsDigit(tokens[i][0]) && Clean(tokens[i])
      && forall id: nat :: tokens[i] != HostName(prefix, id)
  }

  ghost predicate FreshBuilder(prefix: string, tokens: seq<string>, b: Builder) {
    && b.next == |tokens| + 1
    && b.hosts.Valid()
    && b.hosts.keys == FreshList(prefix, |tokens|)
    && Readable(b.hosts.keys, b.hosts.vals)
    && Ips(b.hosts.keys, b.hosts.vals) == tokens
  }

  lemma FreshBuilderStep(prefix: string, tokens: seq<string>, b: Builder, token: string)
    requires FreshTokens(prefix, tokens + [token]) && FreshBuilder(prefix, tokens, b)
    ensures Token(b, prefix, token).Ok?
    ensures FreshBuilder(prefix, tokens + [token], Token(b, prefix, token).value)
  {
    var all := tokens + [token];
    assert all[|tokens|] == token;
    if token in b.hosts.keys {
      FreshListMember(prefix, |tokens|, token);
    }
    var name := HostName(prefix, b.next);
    if name in b.hosts.keys {
      FreshListNext(prefix, |tokens|, b.next);
    }
    DistinctHere(all, |tokens|);
    assert all[..|tokens|] == tokens;
    FindIpInIps(b.hosts.keys, b.hosts.vals, token);
    var hosts := b.hosts.Put(name, HostOpts(token));
    PutValid(b.hosts, name, HostOpts(token));
    OptionRoundTrip(token);
    IpsAgree(b.hosts.keys, b.hosts.vals, hosts.vals);
    IpsAppend(b.hosts.keys, hosts.vals, name);
  }

  lemma FreshTokensPrefix(prefix: string, tokens: seq<string>, n: nat)
    requires FreshTokens(prefix, tokens) && n <= |tokens|
    ensures FreshTokens(prefix, tokens[..n])
  {
    DistinctPart(tokens, 0, n);
    assert tokens[0..n] == tokens[..n];
    forall i | 0 <= i < n
      ensures tokens[..n][i] != "" && IsDigit(tokens[..n][i][0]) && Clean(tokens[..n][i])
      ensures forall id: nat :: tokens[..n][i] != HostName(prefix, id)
    {
      assert tokens[..n][i] == tokens[i];
    }
  }

  lemma {:induction false} FreshHosts(prefix: string, tokens: seq<string>)
    requires FreshTokens(prefix, tokens)
    ensures RunTokens(Empty(), prefix, tokens).Ok?
    ensures FreshBuilder(prefix, tokens, RunTokens(Empty(), prefix, tokens).value)
  {
    if tokens == [] {
    } else {
      var init, token := tokens[..|tokens| - 1], tokens[|tokens| - 1];
      FreshTokensPrefix(prefix, tokens, |tokens| - 1);
      FreshHosts(prefix, init);
      assert init + [token] == tokens;
      FreshBuilderStep(prefix, init, RunTokens(Empty(), prefix, init).value, token);
    }
  }

  lemma {:induction false} KeepNone(s: seq<string>, ks: set<string>)
    requires forall x :: x in s ==> x !in ks
    ensures Keep(s, ks) == []
  {
    if s == [] {
    } else {
      KeepNone(s[..|s| - 1], ks);
    }
  }

  lemma KeepRest(s: seq<string>, n: nat, ks: set<string>)
    requires Distinct(s) && n <= |s|
    requires forall x :: x in s ==> (x in ks <==> x !in s[..n])
    ensures Keep(s, ks) == s[n..]
  {
    assert s == s[..n] + s[n..];
    DistinctSplit(s[..n], s[n..]);
    KeepRestAll(s[..n], s[n..], ks);
  }

  lemma KeepRestAll(a: seq<string>, b: seq<string>, ks: set<string>)
    requires (forall x :: x in a ==> x !in ks) && forall x :: x in b ==> x in ks
    ensures Keep(a + b, ks) == b
  {
    KeepConcat(a, b, ks);
    KeepNone(a, ks);
    KeepAll(b, ks);
  }

  /** The sections of a fresh build over `keys`. */
  ghost predicate Layout(c: Config, env: Env) {
    var keys, n := Members(c, ALL), |Members(c, ALL)|;
    && Members(c, ETCD) == Take(keys, 3) && Members(c, VAULT) == Take(keys, 3)
    && Members(c, CLUSTER) == [NODE, MASTER]
    && (n < env.Scale() ==>
         Members(c, NODE) == keys && Members(c, MASTER) == Take(keys, 2) && Members(c, REFLECTOR) == [])
    && (n >= env.Scale() ==>
         Members(c, MASTER) == Slice(keys, 3, 5) && Members(c, REFLECTOR) == Take(keys, 3))
    && (env.Scale() <= n < env.Massive() ==> keys == Members(c, ETCD) + Members(c, NODE))
    && (n >= env.Massive() ==> keys == Members(c, ETCD) + Members(c, MASTER) + Members(c, NODE))
  }

  /** Every section but `all` holds what the run assigned and nothing else. */
  ghost predicate OnlyAssigned(c: Config, env: Env) {
    && Distinct(Members(c, ALL))
    && forall s :: s != ALL ==>
         Members(c, s) == Extend([], Assigned(env, Members(c, ALL), Members(c, ETCD), Members(c, MASTER), s))
  }

  lemma RestrictNothing(live: set<string>)
    ensures Empty<string>().Restrict(live) == Empty<string>()
  {
  }

  lemma FreshAll(hosts: Section)
    requires hosts.Valid()
    ensures Merged(Empty().Restrict(Live(hosts)), hosts) == hosts
  {
    RestrictNothing(Live(hosts));
    ExtendFresh([], hosts.keys);
    assert map[] + hosts.vals == hosts.vals;
  }

  lemma FreshOnlyAssigned(c0: Config, hosts: Section, env: Env)
    requires hosts.Valid() && forall s :: At(c0, s) == Empty()
    ensures At(AssignRoles(c0, env, hosts), ALL) == hosts
    ensures OnlyAssigned(AssignRoles(c0, env, hosts), env)
  {
    var c := AssignRoles(c0, env, hosts);
    FreshAll(hosts);
    RoleTransfer(c0, env, hosts, ALL);
    forall s | s != ALL
      ensures Members(c, s) == Extend([], Assigned(env, Members(c, ALL), Members(c, ETCD), Members(c, MASTER), s))
    {
      RoleTransfer(c0, env, hosts, s);
      RestrictNothing(Live(hosts));
    }
  }

  lemma ServersApart(keys: seq<string>)
    requires Distinct(keys)
    ensures Take(keys, 5) == Take(keys, 3) + Slice(keys, 3, 5)
    ensures Distinct(Take(keys, 3)) && Distinct(Take(keys, 2)) && Distinct(Slice(keys, 3, 5))
    ensures forall h :: h in Slice(keys, 3, 5) ==> h !in Take(keys, 3)
  {
    TakeDistinct(keys, 2);
    TakeDistinct(keys, 5);
    assert Take(keys, 5) == Take(keys, 3) + Slice(keys, 3, 5);
    DistinctSplit(Take(keys, 3), Slice(keys, 3, 5));
  }

  /** Keeping all but a part in front. */
  lemma KeepBehind(keys: seq<string>, front: seq<string>, ks: set<string>)
    requires Distinct(keys) && front <= keys
    requires forall x :: x in keys ==> (x in ks <==> x !in front)
    ensures Distinct(Keep(keys, ks)) && keys == front + Keep(keys, ks)
  {
    KeepDistinct(keys, ks);
    assert keys[..|front|] == front;
    KeepRest(keys, |front|, ks);
  }

  lemma SmallWorkers(env: Env, keys: seq<string>, etcd: seq<string>, masters: seq<string>)
    requires |keys| < env.Scale() && |keys| < env.Massive()
    ensures Assigned(env, keys, etcd, masters, NODE) == keys
  {
    RoleNames();
    KeepAll(keys, SetOf(keys) - {} - {});
  }

  lemma MiddleWorkers(env: Env, keys: seq<string>, masters: seq<string>)
    requires Distinct(keys) && env.Scale() <= |keys| < env.Massive()
    ensures Distinct(Assigned(env, keys, Take(keys, 3), masters, NODE))
    ensures keys == Take(keys, 3) + Assigned(env, keys, Take(keys, 3), masters, NODE)
  {
    RoleNames();
    KeepBehind(keys, Take(keys, 3), SetOf(keys) - SetOf(Take(keys, 3)) - {});
  }

  lemma MassiveWorkers(env: Env, keys: seq<string>)
    requires Distinct(keys) && env.Scale() <= |keys| && env.Massive() <= |keys|
    ensures var w := Assigned(env, keys, Take(keys, 3), Slice(keys, 3, 5), NODE);
      Distinct(w) && keys == Take(keys, 3) + Slice(keys, 3, 5) + w
  {
    RoleNames();
    ServersApart(keys);
    var ks := SetOf(keys) - SetOf(Take(keys, 3)) - SetOf(Slice(keys, 3, 5));
    assert Take(keys, 5) == Take(keys, 3) + Slice(keys, 3, 5);
    KeepBehind(keys, Take(keys, 5), ks);
  }

  /** The two thresholds of one environment are in order. */
  lemma ThresholdsInOrder(env: Env)
    ensures env.Scale() <= env.Massive()
  {
  }

  lemma FreshWorkers(env: Env, keys: seq<string>)
    requires Distinct(keys)
    ensures var w := Assigned(env, keys, Take(keys, 3), FirstMasters(env, keys), NODE);
      && Distinct(w)
      && (|keys| < env.Scale() ==> w == keys)
      && (env.Scale() <= |keys| < env.Massive() ==> keys == Take(keys, 3) + w)
      && (|keys| >= env.Massive() ==> keys == Take(keys, 3) + Slice(keys, 3, 5) + w)
  {
    ThresholdsInOrder(env);
    if |keys| < env.Scale() {
      SmallWorkers(env, keys, Take(keys, 3), FirstMasters(env, keys));
    } else if |keys| < env.Massive() {
      MiddleWorkers(env, keys, FirstMasters(env, keys));
    } else {
      MassiveWorkers(env, keys);
    }
  }

  /** A fresh build succeeds, gives the addresses the names `1..n` in order, and lays the
      roles out by size: everybody works below the first threshold; up to the second, etcd and
      the workers split the hosts between them; beyond it, etcd, masters and workers do. */
  lemma FreshLayout(env: Env, tokens: seq<string>) returns (c: Config)
    requires FreshTokens(env.prefix, tokens)
    ensures Update(Empty(), env, tokens) == Ok(c)
    ensures Members(c, ALL) == FreshList(env.prefix, |tokens|)
    ensures Readable(Members(c, ALL), At(c, ALL).vals)
    ensures Ips(Members(c, ALL), At(c, ALL).vals) == tokens
    ensures Layout(c, env)
  {
    FreshHosts(env.prefix, tokens);
    var hosts := RunTokens(Empty(), env.prefix, tokens).value.hosts;
    var c0 := EnsureGroups(Empty(), ROLES);
    EnsureGroupsIs(Empty(), ROLES);
    FreshOnlyAssigned(c0, hosts, env);
    c := AssignRoles(c0, env, hosts);
    OnlyAssignedLayout(c, env);
  }

  /** The same by numbers: without SCALE_THRESHOLD the sizes are 50 and 200; with it both are its
      value, so at scale the masters never work. */
  lemma LayoutBySize(c: Config, env: Env)
    requires Layout(c, env)
    ensures var keys, n := Members(c, ALL), |Members(c, ALL)|;
      match env.scaleThreshold
      case None =>
        && (n < 50 ==> Members(c, NODE) == keys)
        && (50 <= n < 200 ==> keys == Members(c, ETCD) + Members(c, NODE))
        && (200 <= n ==> keys == Members(c, ETCD) + Members(c, MASTER) + Members(c, NODE))
      case Some(t) =>
        && (n < t ==> Members(c, NODE) == keys)
        && (t <= n ==> keys == Members(c, ETCD) + Members(c, MASTER) + Members(c, NODE))
  {
  }

  lemma OnlyAssignedFront(c: Config, env: Env, s: string)
    requires OnlyAssigned(c, env) && (s == ETCD || s == VAULT)
    ensures Members(c, s) == Take(Members(c, ALL), 3)
  {
    RoleNames();
    ServersApart(Members(c, ALL));
    ExtendFresh([], Take(Members(c, ALL), 3));
  }

  lemma OnlyAssignedMasters(c: Config, env: Env)
    requires OnlyAssigned(c, env)
    ensures Members(c, MASTER) == FirstMasters(env, Members(c, ALL))
  {
    RoleNames();
    ServersApart(Members(c, ALL));
    ExtendFresh([], FirstMasters(env, Members(c, ALL)));
  }

  lemma OnlyAssignedCluster(c: Config, env: Env)
    requires OnlyAssigned(c, env)
    ensures Members(c, CLUSTER) == [NODE, MASTER]
  {
    RoleNames();
    ExtendFresh([], [NODE, MASTER]);
  }

  lemma OnlyAssignedWorkers(c: Config, env: Env)
    requires OnlyAssigned(c, env)
    ensures var hosts := Members(c, ALL);
      Members(c, NODE) == Assigned(env, hosts, Take(hosts, 3), FirstMasters(env, hosts), NODE)
  {
    RoleNames();
    var keys := Members(c, ALL);
    OnlyAssignedFront(c, env, ETCD);
    OnlyAssignedMasters(c, env);
    FreshWorkers(env, keys);
    ExtendFresh([], Assigned(env, keys, Take(keys, 3), FirstMasters(env, keys), NODE));
  }

  lemma OnlyAssignedReflectors(c: Config, env: Env)
    requires OnlyAssigned(c, env)
    ensures Members(c, REFLECTOR) == if |Members(c, ALL)| >= env.Scale() then Take(Members(c, ALL), 3) else []
  {
    RoleNames();
    ServersApart(Members(c, ALL));
    ExtendFresh([], Take(Members(c, ALL), 3));
  }

  lemma OnlyAssignedLayout(c: Config, env: Env)
    requires OnlyAssigned(c, env)
    ensures Layout(c, env)
  {
    OnlyAssignedFront(c, env, ETCD);
    OnlyAssignedFront(c, env, VAULT);
    OnlyAssignedMasters(c, env);
    OnlyAssignedCluster(c, env);
    OnlyAssignedWorkers(c, env);
    OnlyAssignedReflectors(c, env);
    FreshWorkers(env, Members(c, ALL));
  }
}
