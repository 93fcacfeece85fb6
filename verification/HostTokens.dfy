/** What single tokens do: deleting a host by its name, deleting by address, adding, and the
    tokens that a run refuses. */
module HostTokens {
  import opened Text
  import opened Dicts
  import opened InventorySpec
  import opened HostNames
  import opened Addresses
  import opened RoleHistory

  /***** Deleting by name *****/

  /** `after` is `before` without `h`: the same order, the same options. */
  ghost predicate Without(before: Section, after: Section, h: string) {
    && after.keys == Keep(before.keys, SetOf(before.keys) - {h})
    && h !in after.vals
    && (forall k :: k != h ==> (k in after.vals <==> k in before.vals))
    && (forall k :: k != h && k in before.vals && k in after.vals ==> after.vals[k] == before.vals[k])
  }

  lemma RemovedIsWithout(sec: Section, h: string)
    requires sec.Valid()
    ensures Without(sec, sec.Remove(h), h)
  {
    DropIsKeep(sec.keys, h, SetOf(sec.keys) - {h});
  }

  /** The token `-h`, for a host h: exactly the other hosts stay, and no id is used up. */
  lemma DeleteByName(b: Builder, prefix: string, h: string)
    requires b.hosts.Valid() && h in b.hosts.vals
    ensures var r := Token(b, prefix, "-" + h);
      r.Ok? && r.value.next == b.next && Without(b.hosts, r.value.hosts, h)
  {
    assert ("-" + h)[1..] == h;
    RemovedIsWithout(b.hosts, h);
  }

  /** The token `-x`, for x no host: the first host with that address leaves; without one,
      nothing happens. */
  lemma DeleteByAddress(b: Builder, prefix: string, x: string)
    requires b.hosts.Valid() && x !in b.hosts.vals && Readable(b.hosts.keys, b.hosts.vals)
    ensures var r := Token(b, prefix, "-" + x);
      && r.Ok? && r.value.next == b.next
      && (x !in Ips(b.hosts.keys, b.hosts.vals) ==> r.value == b)
      && (forall i :: 0 <= i < |b.hosts.keys| && FirstWith(b.hosts, x, i) ==>
           Without(b.hosts, r.value.hosts, b.hosts.keys[i]))
  {
    assert ("-" + x)[1..] == x;
    FindIpInIps(b.hosts.keys, b.hosts.vals, x);
    forall i | 0 <= i < |b.hosts.keys| && FirstWith(b.hosts, x, i)
      ensures Without(b.hosts, Token(b, prefix, "-" + x).value.hosts, b.hosts.keys[i])
    {
      FindsFirst(b.hosts.keys, b.hosts.vals, x, i);
      RemovedIsWithout(b.hosts, b.hosts.keys[i]);
    }
  }

  /** Position `i` is the first with that address. */
  ghost predicate FirstWith(hosts: Section, ip: string, i: nat)
    requires hosts.Valid() && i < |hosts.keys|
  {
    && IpFromOpts(hosts.vals[hosts.keys[i]]) == Ok(ip)
    && forall j :: 0 <= j < i ==> IpFromOpts(hosts.vals[hosts.keys[j]]) != Ok(ip)
  }

  lemma {:induction false} FindsFirst(keys: seq<string>, vals: map<string, string>, ip: string, i: nat)
    requires Readable(keys, vals) && i < |keys|
    requires IpFromOpts(vals[keys[i]]) == Ok(ip)
    requires forall j :: 0 <= j < i ==> IpFromOpts(vals[keys[j]]) != Ok(ip)
    ensures FindIp(keys, vals, ip) == Ok(Some(keys[i]))
  {
    assert IpFromOpts(vals[keys[0]]).Ok?;
    if i == 0 {
    } else {
      FindsFirst(keys[1..], vals, ip, i - 1);
    }
  }

  /***** Deleting in a whole run *****/

  lemma OneToken(b: Builder, prefix: string, token: string)
    requires b.hosts.Valid()
    ensures Tokens(b, prefix, [token]) == Token(b, prefix, token)
  {
    assert [token][..0] == [];
    assert Tokens(b, prefix, []) == Ok(b);
  }

  lemma DeletionRun(existing: Section, prefix: string, h: string)
    requires existing.Valid() && h in existing.vals && HighestId(existing.keys).Ok?
    ensures RunTokens(existing, prefix, ["-" + h]).Ok?
    ensures Without(existing, RunTokens(existing, prefix, ["-" + h]).value.hosts, h)
  {
    var b := Builder(existing, HighestId(existing.keys).value + 1);
    OneToken(b, prefix, "-" + h);
    DeleteByName(b, prefix, h);
  }

  /** After a run every section holds hosts of `all` and names of sections only. */
  lemma SectionsLive(cfg: Config, env: Env, tokens: seq<string>, s: string, x: string)
    requires ValidConfig(cfg) && SafePrefix(env.prefix) && Update(cfg, env, tokens).Ok?
    requires x in Members(Update(cfg, env, tokens).value, s)
    ensures x in Members(Update(cfg, env, tokens).value, ALL) ||
      x in {"all", "kube-master", "kube-node", "etcd", "k8s-cluster:children", "calico-rr", "vault"}
  {
    var c := Update(cfg, env, tokens).value;
    if s != ALL {
      UpdateMembers(cfg, env, tokens, s);
      AssignedAreListed(env, Members(c, ALL), Members(c, ETCD), Members(c, MASTER), s, x);
      RolesListed(x);
    }
  }

  lemma AssignedAreListed(
    env: Env, hosts: seq<string>, etcd: seq<string>, masters: seq<string>, s: string, x: string)
    ensures x in Assigned(env, hosts, etcd, masters, s) ==> x in hosts || x == NODE || x == MASTER
  {
    assert forall y :: y in FirstMasters(env, hosts) ==> y in hosts;
  }

  lemma RolesListed(x: string)
    ensures x in ROLES ==>
      x in {"all", "kube-master", "kube-node", "etcd", "k8s-cluster:children", "calico-rr", "vault"}
  {
  }

  /** Deleting a host by its name: the run succeeds if the names can be read, the host is in no
      section afterwards, and `all` is the old list without it. */
  lemma DeletedEverywhere(cfg: Config, env: Env, h: string)
    requires ValidConfig(cfg) && SafePrefix(env.prefix) && h in Members(cfg, ALL)
    ensures Update(cfg, env, ["-" + h]).Ok? <==> AllHaveIds(Members(cfg, ALL))
    ensures Update(cfg, env, ["-" + h]).Ok? ==>
      var c := Update(cfg, env, ["-" + h]).value;
      Without(At(cfg, ALL), At(c, ALL), h) && forall s :: h !in Members(c, s)
  {
    var existing := At(cfg, ALL);
    IdsDecide(existing.keys);
    if HighestId(existing.keys).Ok? {
      DeletionRun(existing, env.prefix, h);
      BuiltUpdates(cfg, env, ["-" + h]);
      UpdateTransfer(cfg, env, ["-" + h], ALL);
      forall s ensures h !in Members(Update(cfg, env, ["-" + h]).value, s) {
        if h in Members(Update(cfg, env, ["-" + h]).value, s) {
          UpdateGone(cfg, env, ["-" + h], s, h);
        }
      }
    }
  }

  lemma BuiltUpdates(cfg: Config, env: Env, tokens: seq<string>)
    requires ValidConfig(cfg)
    ensures Update(cfg, env, tokens).Ok? <==> RunTokens(At(cfg, ALL), env.prefix, tokens).Ok?
  {
  }

  /** A host that is no longer listed is in no section. */
  lemma UpdateGone(cfg: Config, env: Env, tokens: seq<string>, s: string, h: string)
    requires ValidConfig(cfg) && SafePrefix(env.prefix) && Update(cfg, env, tokens).Ok?
    requires h in Members(cfg, ALL) && HighestId(Members(cfg, ALL)).Ok?
    requires h !in Members(Update(cfg, env, tokens).value, ALL)
    ensures h !in Members(Update(cfg, env, tokens).value, s)
  {
    var c := Update(cfg, env, tokens).value;
    RolesAre();
    if s != ALL {
      UpdateMembers(cfg, env, tokens, s);
      if h in ROLES {
        NoRoleAmongHosts(Members(cfg, ALL), h);
      }
      AssignedAreListed(env, Members(c, ALL), Members(c, ETCD), Members(c, MASTER), s, h);
    }
  }

  /***** The highest id *****/

  ghost predicate AllHaveIds(keys: seq<string>) {
    forall k :: k in keys ==> HostId(k).Ok?
  }

  /** The highest id is that of some host, no host has a higher one, and it cannot be told
      exactly when some host has no id. */
  lemma {:induction false} IdsDecide(keys: seq<string>)
    ensures HighestId(keys).Ok? <==> AllHaveIds(keys)
    ensures HighestId(keys).Ok? ==> var high := HighestId(keys).value;
      && (forall k :: k in keys ==> HostId(k).Ok? && HostId(k).value <= high)
      && (high == 0 || exists k :: k in keys && HostId(k) == Ok(high))
  {
    if keys == [] {
    } else {
      var init, last := keys[..|keys| - 1], keys[|keys| - 1];
      assert keys == init + [last];
      IdsDecide(init);
    }
  }

  /** The id of a name is the number that its part before the first dot ends in; a name whose
      first part ends otherwise has none. */
  lemma IdOfName(stem: string, digits: string, rest: string)
    requires '.' !in stem && (stem == "" || !IsDigit(stem[|stem| - 1])) && AllDigits(digits)
    requires rest == "" || rest[0] == '.'
    ensures HostId(stem + digits + rest) == if digits == "" then Err(HostNameWithoutId) else Ok(Value(digits))
  {
    var first := stem + digits;
    assert '.' !in first;
    if rest == "" {
      assert first + rest == first;
      SplitNoSeparator(first, '.');
    } else {
      assert first + rest == first + ['.'] + rest[1..];
      SplitAtSeparator(first, '.', rest[1..]);
    }
    TrailingDigitsOfAppend(stem, digits);
    assert TrailingDigits(stem) == "";
    assert "" + digits == digits;
  }

  /***** Adding *****/

  /** The token of an unknown address: one host more, at the end, under the next id, with the two
      address options; the id is used up. */
  lemma AddAddress(b: Builder, prefix: string, ip: string)
    requires b.hosts.Valid() && ip != "" && IsDigit(ip[0]) && ip !in b.hosts.vals
    requires Readable(b.hosts.keys, b.hosts.vals) && ip !in Ips(b.hosts.keys, b.hosts.vals)
    requires prefix + Decimal(b.next) !in b.hosts.vals
    ensures var r := Token(b, prefix, ip);
      && r.Ok? && r.value.next == b.next + 1
      && r.value.hosts.keys == b.hosts.keys + [prefix + Decimal(b.next)]
      && r.value.hosts.vals == b.hosts.vals[prefix + Decimal(b.next) := "ansible_host=" + ip + " ip=" + ip]
  {
    FindIpInIps(b.hosts.keys, b.hosts.vals, ip);
  }

  /** The token of a known name or address changes nothing. */
  lemma AddKnown(b: Builder, prefix: string, token: string)
    requires b.hosts.Valid() && token != "" && IsDigit(token[0])
    requires Readable(b.hosts.keys, b.hosts.vals)
    requires token in b.hosts.vals || token in Ips(b.hosts.keys, b.hosts.vals)
    ensures Token(b, prefix, token) == Ok(b)
  {
    FindIpInIps(b.hosts.keys, b.hosts.vals, token);
  }

  /** An option string that cannot be read, met before the address is found, is an error. */
  lemma {:induction false} UnreadableFails(keys: seq<string>, vals: map<string, string>, ip: string, i: nat)
    requires (forall k :: k in keys ==> k in vals) && i < |keys| && IpFromOpts(vals[keys[i]]).Err?
    requires forall j :: 0 <= j < i ==> IpFromOpts(vals[keys[j]]).Ok? && IpFromOpts(vals[keys[j]]).value != ip
    ensures FindIp(keys, vals, ip) == Err(IpFromOpts(vals[keys[i]]).error)
  {
    if i == 0 {
    } else {
      UnreadableFails(keys[1..], vals, ip, i - 1);
    }
  }

  /** So is a token that names no host, when an unreadable host comes before its address. */
  lemma UnreadableRefused(b: Builder, prefix: string, ip: string, i: nat)
    requires b.hosts.Valid() && ip != "" && IsDigit(ip[0]) && ip !in b.hosts.vals && i < |b.hosts.keys|
    requires IpFromOpts(b.hosts.vals[b.hosts.keys[i]]).Err?
    requires forall j :: 0 <= j < i ==>
      IpFromOpts(b.hosts.vals[b.hosts.keys[j]]).Ok? && IpFromOpts(b.hosts.vals[b.hosts.keys[j]]).value != ip
    ensures Token(b, prefix, ip) == Err(IpFromOpts(b.hosts.vals[b.hosts.keys[i]]).error)
    ensures Token(b, prefix, "-" + ip) == Err(IpFromOpts(b.hosts.vals[b.hosts.keys[i]]).error)
  {
    UnreadableFails(b.hosts.keys, b.hosts.vals, ip, i);
    assert ("-" + ip)[1..] == ip;
  }

  /***** Refusing *****/

  /** A token that the program does not refuse. */
  predicate Accepted(t: string) {
    t != "" && !IsAlpha(t[0])
  }

  ghost predicate AllAccepted(tokens: seq<string>) {
    forall t :: t in tokens ==> Accepted(t)
  }

  lemma TokenReadable(b: Builder, prefix: string, t: string)
    requires b.hosts.Valid() && Readable(b.hosts.keys, b.hosts.vals)
    requires t != "" && IsDigit(t[0]) ==> Clean(t)
    ensures Token(b, prefix, t).Ok? <==> Accepted(t)
    ensures Token(b, prefix, t).Err? ==>
      Token(b, prefix, t).error == if t == "" then EmptyToken else AddByHostname
    ensures Token(b, prefix, t).Ok? ==>
      var hosts := Token(b, prefix, t).value.hosts;
      hosts.Valid() && Readable(hosts.keys, hosts.vals)
  {
    if t != "" && t[0] == '-' {
      FindIpInIps(b.hosts.keys, b.hosts.vals, t[1..]);
      DeletionReadable(b, prefix, t);
    } else if t != "" && IsDigit(t[0]) {
      FindIpInIps(b.hosts.keys, b.hosts.vals, t);
      OptionRoundTrip(t);
      PutValid(b.hosts, HostName(prefix, b.next), HostOpts(t));
    }
  }

  lemma DeletionReadable(b: Builder, prefix: string, t: string)
    requires b.hosts.Valid() && Readable(b.hosts.keys, b.hosts.vals)
    requires t != "" && t[0] == '-' && Token(b, prefix, t).Ok?
    ensures var hosts := Token(b, prefix, t).value.hosts;
      hosts.Valid() && Readable(hosts.keys, hosts.vals)
  {
    var hosts := Token(b, prefix, t).value.hosts;
    TokenValid(b, prefix, t);
    forall k | k in hosts.keys ensures k in hosts.vals && IpFromOpts(hosts.vals[k]).Ok? {
      assert k in hosts.vals;
      assert k in b.hosts.keys;
    }
  }

  /** With readable hosts, a list of tokens is refused exactly for an empty token or one that
      starts with a letter; whatever comes after it is not looked at. */
  lemma {:induction false} TokensAccepted(b: Builder, prefix: string, tokens: seq<string>)
    requires b.hosts.Valid() && Readable(b.hosts.keys, b.hosts.vals)
    requires forall t :: t in tokens && t != "" && IsDigit(t[0]) ==> Clean(t)
    ensures Tokens(b, prefix, tokens).Ok? <==> AllAccepted(tokens)
    ensures Tokens(b, prefix, tokens).Ok? ==>
      var hosts := Tokens(b, prefix, tokens).value.hosts;
      Readable(hosts.keys, hosts.vals)
  {
    if tokens == [] {
    } else {
      var init, last := tokens[..|tokens| - 1], tokens[|tokens| - 1];
      assert tokens == init + [last];
      TokensAccepted(b, prefix, init);
      if Tokens(b, prefix, init).Ok? {
        TokenReadable(Tokens(b, prefix, init).value, prefix, last);
      }
    }
  }

  lemma RunAccepted(existing: Section, prefix: string, tokens: seq<string>)
    requires existing.Valid() && Readable(existing.keys, existing.vals)
    requires forall t :: t in tokens && t != "" && IsDigit(t[0]) ==> Clean(t)
    ensures RunTokens(existing, prefix, tokens).Ok? <==>
      AllHaveIds(existing.keys) && AllAccepted(tokens)
  {
    IdsDecide(existing.keys);
    if HighestId(existing.keys).Ok? {
      TokensAccepted(Builder(existing, HighestId(existing.keys).value + 1), prefix, tokens);
    }
  }

  /** An update of an inventory with readable options succeeds exactly when every host has an id
      and no token is empty or starts with a letter. */
  lemma UpdateSucceeds(cfg: Config, env: Env, tokens: seq<string>)
    requires ValidConfig(cfg) && Readable(Members(cfg, ALL), At(cfg, ALL).vals)
    requires forall t :: t in tokens && t != "" && IsDigit(t[0]) ==> Clean(t)
    ensures Update(cfg, env, tokens).Ok? <==> AllHaveIds(Members(cfg, ALL)) && AllAccepted(tokens)
  {
    BuiltUpdates(cfg, env, tokens);
    RunAccepted(At(cfg, ALL), env.prefix, tokens);
  }

  /***** Reading an option string *****/

  /** An option that is passed over: no equals sign, or one, after a name other than `ip`. */
  ghost predicate PassedBy(opt: string) {
    '=' !in opt || exists k, v :: '=' !in k && '=' !in v && k != "ip" && opt == k + "=" + v
  }

  lemma PassedIsSkipped(opts: seq<string>)
    requires opts != [] && PassedBy(opts[0])
    ensures IpIn(opts) == IpIn(opts[1..])
  {
    if '=' in opts[0] {
      var k, v :| '=' !in k && '=' !in v && k != "ip" && opts[0] == k + "=" + v;
      SplitOption(k, v);
    }
  }

  /** The first option that is not passed over decides: `ip=v` gives v, any other has two equals
      signs or more and is an error. */
  lemma {:induction false} FirstDecides(opts: seq<string>, i: nat)
    requires i < |opts| && forall j :: 0 <= j < i ==> PassedBy(opts[j])
    ensures forall v :: '=' !in v && opts[i] == "ip=" + v ==> IpIn(opts) == Ok(v)
    ensures (exists a, b, c :: opts[i] == a + "=" + b + "=" + c) ==> IpIn(opts) == Err(MalformedOption)
  {
    if i == 0 {
      forall v | '=' !in v && opts[0] == "ip=" + v ensures IpIn(opts) == Ok(v) {
        assert opts[0] == "ip" + ['='] + v;
        SplitOption("ip", v);
      }
      forall a, b, c | opts[0] == a + "=" + b + "=" + c ensures IpIn(opts) == Err(MalformedOption) {
        TwoSigns(opts[0], a, b, c);
      }
    } else {
      PassedIsSkipped(opts);
      FirstDecides(opts[1..], i - 1);
    }
  }

  lemma {:induction false} SplitCount(a: string, b: string, sep: char)
    ensures |Split(a + [sep] + b, sep)| == |Split(a, sep)| + |Split(b, sep)|
  {
    var whole := a + [sep] + b;
    if a == "" {
      assert whole[1..] == b;
    } else {
      assert whole[1..] == a[1..] + [sep] + b;
      SplitCount(a[1..], b, sep);
    }
  }

  lemma TwoSigns(opt: string, a: string, b: string, c: string)
    requires opt == a + "=" + b + "=" + c
    ensures '=' in opt && |Split(opt, '=')| >= 3
  {
    assert opt[|a|] == '=';
    assert opt == (a + "=" + b) + ['='] + c && a + "=" + b == a + ['='] + b;
    SplitCount(a + "=" + b, c, '=');
    SplitCount(a, b, '=');
  }

  lemma {:induction false} NoneDecides(opts: seq<string>)
    requires forall o :: o in opts ==> PassedBy(o)
    ensures IpIn(opts) == Err(IpNotFound)
  {
    if opts == [] {
    } else {
      PassedIsSkipped(opts);
      NoneDecides(opts[1..]);
    }
  }
}
