/** Addresses in option strings: what is written is read back, the host list behaves as
    an ordered set of addresses, and a loaded file prints the addresses it gave last. */
module Addresses {
  import opened Text
  import opened Dicts
  import opened InventorySpec
  import opened HostNames

  /***** Option strings *****/

  predicate Clean(ip: string) {
    ' ' !in ip && '=' !in ip
  }

  /** `k=ip` splits into its two halves. */
  lemma SplitOption(k: string, ip: string)
    requires '=' !in k && '=' !in ip
    ensures '=' in k + ['='] + ip
    ensures Split(k + ['='] + ip, '=') == [k, ip]
  {
    SplitNoSeparator(ip, '=');
    SplitAtSeparator(k, '=', ip);
    assert (k + ['='] + ip)[|k|] == '=';
  }

  lemma IpInSecond(opts: seq<string>, other: string, ip: string)
    requires '=' !in ip && '=' !in other && other != "ip"
    requires |opts| >= 2 && opts[0] == other + ['='] + ip && opts[1] == "ip" + ['='] + ip
    ensures IpIn(opts) == Ok(ip)
  {
    SplitOption(other, ip);
    SplitOption("ip", ip);
    assert opts[1..][0] == opts[1];
    assert IpIn(opts[1..]) == Ok(ip);
  }

  lemma SplitHostOpts(first: string, second: string, extras: string)
    requires ' ' !in first && ' ' !in second
    requires extras == "" || extras[0] == ' '
    ensures var opts := Split(first + [' '] + (second + extras), ' ');
      |opts| >= 2 && opts[0] == first && opts[1] == second
  {
    SplitAtSeparator(first, ' ', second + extras);
    if extras == "" {
      assert second + extras == second;
      SplitNoSeparator(second, ' ');
    } else {
      assert second + extras == second + [' '] + extras[1..];
      SplitAtSeparator(second, ' ', extras[1..]);
    }
  }

  lemma IpReadBack(ip: string, extras: string)
    requires Clean(ip)
    requires extras == "" || extras[0] == ' '
    ensures IpFromOpts(HostOpts(ip) + extras) == Ok(ip)
  {
    var first, second := "ansible_host" + ['='] + ip, "ip" + ['='] + ip;
    assert HostOpts(ip) + extras == first + [' '] + (second + extras);
    SplitHostOpts(first, second, extras);
    assert |"ansible_host"| != |"ip"|;
    IpInSecond(Split(HostOpts(ip) + extras, ' '), "ansible_host", ip);
  }

  lemma {:induction false} IpInIsClean(opts: seq<string>)
    requires forall o :: o in opts ==> ' ' !in o
    requires IpIn(opts).Ok?
    ensures Clean(IpIn(opts).value)
  {
    if '=' in opts[0] && Split(opts[0], '=')[0] == "ip" {
      SplitPartsWithin(opts[0], '=');
    } else {
      IpInIsClean(opts[1..]);
    }
  }

  /** Splitting invents no characters. */
  lemma {:induction false} SplitPartsWithin(s: string, sep: char)
    ensures forall p, c :: p in Split(s, sep) && c in p ==> c in s
  {
    if s == "" {
    } else {
      SplitPartsWithin(s[1..], sep);
      assert s == [s[0]] + s[1..];
    }
  }

  /** A new host's address survives being written and read exactly when it has no space
      and no equals sign. */
  lemma OptionRoundTrip(ip: string)
    ensures IpFromOpts(HostOpts(ip)) == Ok(ip) <==> Clean(ip)
  {
    if Clean(ip) {
      IpReadBack(ip, "");
      assert HostOpts(ip) + "" == HostOpts(ip);
    } else if IpFromOpts(HostOpts(ip)).Ok? {
      IpInIsClean(Split(HostOpts(ip), ' '));
    }
  }

  lemma FirstIp(keys: seq<string>, vals: map<string, string>, ip: string)
    requires |keys| == 1 && keys[0] in vals && IpFromOpts(vals[keys[0]]).Ok?
    ensures FindIp(keys, vals, ip) == Ok(if IpFromOpts(vals[keys[0]]).value == ip then Some(keys[0]) else None)
  {
  }

  /** With a dotted prefix that ends in an id, a host can be lost to a new one: the name given
      out next may be taken already. */
  lemma NewHostOverwrites(prefix: string, a: string, b: string)
    requires !SafePrefix(prefix) && Clean(a) && Clean(b) && b != "" && IsDigit(b[0]) && a != b
    requires b != HostName(prefix, HostId(prefix).value + 1)
    ensures var id := HostId(prefix).value + 1;
      var name := HostName(prefix, id);
      var existing := Dict([name], map[name := HostOpts(a)]);
      && existing.Valid()
      && RunTokens(existing, prefix, [b]) == Ok(Builder(Dict([name], map[name := HostOpts(b)]), id + 1))
  {
    var id := HostId(prefix).value + 1;
    var name := HostName(prefix, id);
    var existing: Section := Dict([name], map[name := HostOpts(a)]);
    ShortNameOfHostName(prefix, id);
    OptionRoundTrip(a);
    FirstIp(existing.keys, existing.vals, b);
    assert [name][..0] == [] && [b][..0] == [];
    assert HighestId(existing.keys) == Ok(id - 1);
    assert existing.Put(name, HostOpts(b)) == Dict([name], map[name := HostOpts(b)]);
    assert Tokens(Builder(existing, id), prefix, []) == Ok(Builder(existing, id));
  }

  /***** The host list as an ordered set of addresses *****/

  ghost predicate Readable(keys: seq<string>, vals: map<string, string>) {
    forall k :: k in keys ==> k in vals && IpFromOpts(vals[k]).Ok?
  }

  function Ips(keys: seq<string>, vals: map<string, string>): (r: seq<string>)
    requires Readable(keys, vals)
    ensures |r| == |keys|
  {
    if keys == [] then [] else [IpFromOpts(vals[keys[0]]).value] + Ips(keys[1..], vals)
  }

  /** The abstract machine: add at the end, or remove. */
  function AddressStep(ips: seq<string>, token: string): seq<string>
    requires token != ""
  {
    if token[0] == '-' then Drop(ips, token[1..])
    else if IsDigit(token[0]) && token !in ips then ips + [token]
    else ips
  }

  function AddressRun(ips: seq<string>, tokens: seq<string>): seq<string>
    requires "" !in tokens
  {
    if tokens == [] then ips
    else
      assert tokens[|tokens| - 1] in tokens;
      AddressStep(AddressRun(ips, tokens[..|tokens| - 1]), tokens[|tokens| - 1])
  }

  lemma {:induction false} AddressRunDistinct(ips: seq<string>, tokens: seq<string>)
    requires "" !in tokens && Distinct(ips)
    ensures Distinct(AddressRun(ips, tokens))
  {
    if tokens == [] {
    } else {
      var init, token := tokens[..|tokens| - 1], tokens[|tokens| - 1];
      AddressRunDistinct(ips, init);
      assert token in tokens;
      DropMembers(AddressRun(ips, init), token[1..]);
      if token !in AddressRun(ips, init) {
        DistinctPush(AddressRun(ips, init), token);
      }
    }
  }

  lemma {:induction false} IpsAppend(keys: seq<string>, vals: map<string, string>, k: string)
    requires Readable(keys + [k], vals)
    ensures Readable(keys, vals)
    ensures Ips(keys + [k], vals) == Ips(keys, vals) + [IpFromOpts(vals[k]).value]
  {
    assert forall x :: x in keys ==> x in keys + [k];
    assert k in keys + [k];
    if keys == [] {
    } else {
      assert (keys + [k])[1..] == keys[1..] + [k];
      IpsAppend(keys[1..], vals, k);
    }
  }

  lemma {:induction false} IpsAgree(keys: seq<string>, vals: map<string, string>, vals': map<string, string>)
    requires Readable(keys, vals)
    requires forall k :: k in keys ==> k in vals' && vals'[k] == vals[k]
    ensures Readable(keys, vals')
    ensures Ips(keys, vals') == Ips(keys, vals)
  {
    if keys == [] {
    } else {
      IpsAgree(keys[1..], vals, vals');
    }
  }

  lemma {:induction false} FindIpInIps(keys: seq<string>, vals: map<string, string>, ip: string)
    requires Readable(keys, vals)
    ensures FindIp(keys, vals, ip).Ok?
    ensures FindIp(keys, vals, ip).value.Some? <==> ip in Ips(keys, vals)
  {
    if keys == [] {
    } else {
      FindIpInIps(keys[1..], vals, ip);
    }
  }

  lemma {:induction false} IpsDrop(keys: seq<string>, vals: map<string, string>, ip: string, k: string)
    requires Readable(keys, vals) && FindIp(keys, vals, ip) == Ok(Some(k))
    ensures Readable(Drop(keys, k), vals)
    ensures Ips(Drop(keys, k), vals) == Drop(Ips(keys, vals), ip)
  {
    if IpFromOpts(vals[keys[0]]).value != ip {
      FindIpInKeys(keys[1..], vals, ip);
      IpsDrop(keys[1..], vals, ip, k);
    }
  }

  /** Host names that no token can be mistaken for. */
  ghost predicate Worded(keys: seq<string>) {
    forall k :: k in keys ==> k != "" && !IsDigit(k[0])
  }

  /** Tokens that add or remove an address, or that the program ignores. */
  predicate AddressToken(t: string) {
    && t != ""
    && !IsAlpha(t[0])
    && (IsDigit(t[0]) ==> Clean(t))
    && (t[0] == '-' ==> |t| > 1 && IsDigit(t[1]))
  }

  ghost predicate Represents(b: Builder, ips: seq<string>) {
    && b.hosts.Valid()
    && Worded(b.hosts.keys)
    && Readable(b.hosts.keys, b.hosts.vals)
    && Ips(b.hosts.keys, b.hosts.vals) == ips
  }

  lemma RepresentsAdd(b: Builder, ips: seq<string>, name: string, ip: string)
    requires Represents(b, ips) && Clean(ip)
    requires name !in b.hosts.vals && name != "" && !IsDigit(name[0])
    ensures Represents(Builder(b.hosts.Put(name, HostOpts(ip)), b.next + 1), ips + [ip])
  {
    var hosts := b.hosts.Put(name, HostOpts(ip));
    PutValid(b.hosts, name, HostOpts(ip));
    OptionRoundTrip(ip);
    IpsAgree(b.hosts.keys, b.hosts.vals, hosts.vals);
    IpsAppend(b.hosts.keys, hosts.vals, name);
  }

  lemma RepresentsRemove(b: Builder, ips: seq<string>, name: string, ip: string)
    requires Represents(b, ips) && FindIp(b.hosts.keys, b.hosts.vals, ip) == Ok(Some(name))
    ensures Represents(b.(hosts := b.hosts.Remove(name)), Drop(ips, ip))
  {
    var hosts := b.hosts.Remove(name);
    RemoveValid(b.hosts, name);
    DropMembers(b.hosts.keys, name);
    IpsDrop(b.hosts.keys, b.hosts.vals, ip, name);
    IpsAgree(hosts.keys, b.hosts.vals, hosts.vals);
  }

  lemma RefinesStep(b: Builder, ips: seq<string>, prefix: string, token: string)
    requires Represents(b, ips) && AddressToken(token)
    requires prefix != "" && !IsDigit(prefix[0]) && HostName(prefix, b.next) !in b.hosts.keys
    ensures Token(b, prefix, token).Ok?
    ensures Represents(Token(b, prefix, token).value, AddressStep(ips, token))
  {
    if token[0] == '-' {
      var ip := token[1..];
      assert IsDigit(ip[0]);
      FindIpInIps(b.hosts.keys, b.hosts.vals, ip);
      match FindIp(b.hosts.keys, b.hosts.vals, ip).value {
        case None => DropAbsent(ips, ip);
        case Some(name) => RepresentsRemove(b, ips, name, ip);
      }
    } else if IsDigit(token[0]) {
      FindIpInIps(b.hosts.keys, b.hosts.vals, token);
      if token !in ips {
        RepresentsAdd(b, ips, HostName(prefix, b.next), token);
      }
    }
  }

  /** Whatever the tokens, the host list lists exactly the addresses that an ordered set
      would: adding appends an unknown address, `-ip` removes it, the rest keep their order. */
  lemma {:induction false} RefinesAddressSet(existing: Section, prefix: string, tokens: seq<string>)
    requires existing.Valid() && Worded(existing.keys) && Readable(existing.keys, existing.vals)
    requires Distinct(Ips(existing.keys, existing.vals))
    requires HighestId(existing.keys).Ok? && SafePrefix(prefix) && prefix != "" && !IsDigit(prefix[0])
    requires forall t :: t in tokens ==> AddressToken(t)
    ensures RunTokens(existing, prefix, tokens).Ok?
    ensures "" !in tokens
    ensures Represents(RunTokens(existing, prefix, tokens).value,
                       AddressRun(Ips(existing.keys, existing.vals), tokens))
    ensures Distinct(AddressRun(Ips(existing.keys, existing.vals), tokens))
  {
    if tokens == [] {
    } else {
      var init, token := tokens[..|tokens| - 1], tokens[|tokens| - 1];
      assert tokens == init + [token];
      RefinesAddressSet(existing, prefix, init);
      FreshAfter(existing, prefix, init);
      RefinesStep(RunTokens(existing, prefix, init).value,
                  AddressRun(Ips(existing.keys, existing.vals), init), prefix, token);
    }
    AddressRunDistinct(Ips(existing.keys, existing.vals), tokens);
  }

  /***** Loading files, then printing addresses *****/

  function FilesOf(files: seq<Data>): seq<Event>
    requires ValidFiles(files)
    decreases |files|
  {
    if files == [] then [] else FileEvents(files[0], |files[0].keys|) + FilesOf(files[1..])
  }

  /** What the last of the events about a host leaves under `all`: a group of that very name
      blanks the options it has just written. */
  function Written(group: string, ip: string, extras: string): string {
    if group == ALL then "" else HostOpts(ip) + extras
  }

  /** The section `all`, told from the events alone. */
  function Replay(sec: Section, events: seq<Event>): Section {
    if events == [] then sec
    else Replayed(Replay(sec, events[..|events| - 1]), events[|events| - 1])
  }

  function Replayed(sec: Section, e: Event): Section {
    match e
    case Hosted(group, host, Some(ip), extras) => sec.Put(host, Written(group, ip, extras))
    case _ => sec
  }

  /** The hosts in the order they are met, with repetitions. */
  function Hosts(events: seq<Event>): seq<string> {
    if events == [] then []
    else
      var last := events[|events| - 1];
      Hosts(events[..|events| - 1]) + if last.Hosted? && last.ip.Some? then [last.host] else []
  }

  lemma {:induction false} ReplayConcat(sec: Section, a: seq<Event>, b: seq<Event>)
    ensures Replay(sec, a + b) == Replay(Replay(sec, a), b)
  {
    if b == [] {
      assert a + b == a;
    } else {
      var init := b[..|b| - 1];
      assert (a + b)[..|a + b| - 1] == a + init;
      ReplayConcat(sec, a, init);
    }
  }

  /** Unless loading has failed, `all` is `sec`. */
  ghost predicate AllIs(r: Result<Config, Failure>, sec: Section) {
    r.Ok? ==> At(r.value, ALL) == sec
  }

  lemma LoadEventAll(cfg: Config, e: Event)
    ensures AllIs(LoadEvent(cfg, e), Replayed(At(cfg, ALL), e))
  {
    match e
    case Grouped(_) =>
    case Hosted(_, _, None, _) =>
    case Hosted(group, host, Some(ip), extras) =>
      PutPut(At(cfg, ALL), host, HostOpts(ip) + extras, "");
  }

  lemma {:induction false} LoadAll(cfg: Config, events: seq<Event>)
    ensures AllIs(Load(cfg, events), Replay(At(cfg, ALL), events))
  {
    if events == [] {
    } else {
      var init := events[..|events| - 1];
      LoadAll(cfg, init);
      if Load(cfg, init).Ok? {
        LoadEventAll(Load(cfg, init).value, events[|events| - 1]);
      }
    }
  }

  lemma LoadFileAll(cfg: Config, data: Data)
    requires ValidData(data)
    ensures AllIs(LoadFile(cfg, data), Replay(At(cfg, ALL), FileEvents(data, |data.keys|)))
  {
    EnsureGroupsIs(cfg, ROLES);
    LoadAll(AddAll(EnsureGroups(cfg, ROLES), CLUSTER, [NODE, MASTER]), FileEvents(data, |data.keys|));
  }

  /** Loading creates sections and drops none. */
  lemma {:induction false} LoadGrows(cfg: Config, events: seq<Event>, s: string)
    requires s in cfg.vals
    ensures Load(cfg, events).Ok? ==> s in Load(cfg, events).value.vals
  {
    if events == [] {
    } else {
      LoadGrows(cfg, events[..|events| - 1], s);
    }
  }

  lemma LoadFileGrows(cfg: Config, data: Data)
    requires ValidData(data) && LoadFile(cfg, data).Ok?
    ensures ALL in LoadFile(cfg, data).value.vals
  {
    RolesAre();
    EnsureGroupsIs(cfg, ROLES);
    LoadGrows(AddAll(EnsureGroups(cfg, ROLES), CLUSTER, [NODE, MASTER]), FileEvents(data, |data.keys|), ALL);
  }

  lemma {:induction false} LoadFilesAll(cfg: Config, files: seq<Data>)
    requires ValidFiles(files) && LoadFiles(cfg, files).1 == None
    ensures files != [] ==> ALL in LoadFiles(cfg, files).0.vals
    ensures At(LoadFiles(cfg, files).0, ALL) == Replay(At(cfg, ALL), FilesOf(files))
    decreases |files|
  {
    if files == [] {
    } else {
      var c := LoadFile(cfg, files[0]).value;
      LoadFileAll(cfg, files[0]);
      LoadFileGrows(cfg, files[0]);
      LoadFilesAll(c, files[1..]);
      ReplayConcat(At(cfg, ALL), FileEvents(files[0], |files[0].keys|), FilesOf(files[1..]));
      if |files| == 1 {
        assert LoadFiles(c, files[1..]).0 == c;
      }
    }
  }

  /** The last event that gives `host` an address. */
  function LastOf(events: seq<Event>, host: string): (e: Event)
    requires host in Hosts(events)
    ensures e in events && e.Hosted? && e.host == host && e.ip.Some?
  {
    var last := events[|events| - 1];
    if last.Hosted? && last.ip.Some? && last.host == host then last else LastOf(events[..|events| - 1], host)
  }

  lemma {:induction false} ReplayKeys(events: seq<Event>)
    ensures Replay(Empty(), events).Valid()
    ensures Replay(Empty(), events).keys == Extend([], Hosts(events))
  {
    if events == [] {
    } else {
      var init, last := events[..|events| - 1], events[|events| - 1];
      ReplayKeys(init);
      if last.Hosted? && last.ip.Some? {
        PutValid(Replay(Empty(), init), last.host, Written(last.group, last.ip.value, last.extras));
        assert Hosts(events)[..|Hosts(events)| - 1] == Hosts(init);
      } else {
        assert Hosts(events) == Hosts(init);
      }
    }
  }

  lemma {:induction false} ReplayEntry(events: seq<Event>, host: string)
    requires host in Hosts(events)
    ensures host in Replay(Empty(), events).vals
    ensures var last := LastOf(events, host);
      Replay(Empty(), events).vals[host] == Written(last.group, last.ip.value, last.extras)
  {
    var n := |events| - 1;
    if events[n].Hosted? && events[n].ip.Some? && events[n].host == host {
    } else {
      ReplayEntry(events[..n], host);
    }
  }

  lemma {:induction false} IpListIs(keys: seq<string>, vals: map<string, string>)
    requires forall k :: k in keys ==> k in vals
    ensures IpList(keys, vals).Ok? <==> forall k :: k in keys ==> IpFromOpts(vals[k]).Ok?
    ensures IpList(keys, vals).Ok? ==>
      |IpList(keys, vals).value| == |keys| &&
      forall i :: 0 <= i < |keys| ==> IpList(keys, vals).value[i] == IpFromOpts(vals[keys[i]]).value
  {
    if keys == [] {
    } else {
      IpListIs(keys[..|keys| - 1], vals);
      assert keys == keys[..|keys| - 1] + [keys[|keys| - 1]];
    }
  }

  /** What follows an address is set off by a space. */
  predicate SetOff(extras: string) {
    extras == "" || extras[0] == ' '
  }

  ghost predicate AllSetOff(events: seq<Event>) {
    forall e :: e in events && e.Hosted? ==> SetOff(e.extras)
  }

  lemma WrittenIp(group: string, ip: string, extras: string)
    requires SetOff(extras) && Clean(ip)
    ensures IpFromOpts(Written(group, ip, extras)) == if group == ALL then Err(IpNotFound) else Ok(ip)
  {
    if group == ALL {
      assert Split("", ' ') == [""];
    } else {
      IpReadBack(ip, extras);
    }
  }

  lemma {:induction false} ExtrasStart(keys: seq<string>, vals: map<string, string>)
    requires forall k :: k in keys ==> k in vals
    ensures SetOff(Extras(keys, vals))
  {
    if keys == [] {
    } else {
      ExtrasStart(keys[..|keys| - 1], vals);
    }
  }

  lemma GroupSetOff(group: string, hosts: Dict<Attrs>)
    requires ValidHosts(hosts)
    ensures AllSetOff(GroupEvents(group, hosts))
  {
    forall i | 0 <= i < |hosts.keys| ensures SetOff(HostEvents(group, hosts)[i].extras) {
      var attrs := hosts.vals[hosts.keys[i]];
      ExtrasStart(attrs.keys, attrs.vals);
    }
  }

  lemma {:induction false} FileSetOff(data: Data, n: nat)
    requires n <= |data.keys| && ValidData(data)
    ensures AllSetOff(FileEvents(data, n))
  {
    if n == 0 {
    } else {
      FileSetOff(data, n - 1);
      GroupSetOff(data.keys[n - 1], data.vals[data.keys[n - 1]]);
    }
  }

  lemma {:induction false} FilesSetOff(files: seq<Data>)
    requires ValidFiles(files)
    ensures AllSetOff(FilesOf(files))
    decreases |files|
  {
    if files == [] {
    } else {
      FileSetOff(files[0], |files[0].keys|);
      FilesSetOff(files[1..]);
    }
  }

  ghost predicate AllClean(events: seq<Event>) {
    forall e :: e in events && e.Hosted? && e.ip.Some? ==> Clean(e.ip.value)
  }

  /** What the inventory holds for a host met on the way. */
  lemma LoadedEntry(met: seq<Event>, h: string)
    requires AllClean(met) && AllSetOff(met) && h in Hosts(met)
    ensures h in Replay(Empty(), met).vals
    ensures IpFromOpts(Replay(Empty(), met).vals[h]) ==
      if LastOf(met, h).group == ALL then Err(IpNotFound) else Ok(LastOf(met, h).ip.value)
  {
    ReplayEntry(met, h);
    var last := LastOf(met, h);
    WrittenIp(last.group, last.ip.value, last.extras);
  }

  /** The address a host was met with last. */
  ghost predicate PrintsLast(met: seq<Event>, h: string, ip: string) {
    h in Hosts(met) && ip == LastOf(met, h).ip.value
  }

  ghost predicate LastInAll(met: seq<Event>, h: string) {
    h in Hosts(met) && LastOf(met, h).group == ALL
  }

  lemma EntryReads(met: seq<Event>, h: string)
    requires AllClean(met) && AllSetOff(met) && h in Hosts(met)
    ensures h in Replay(Empty(), met).vals
    ensures IpFromOpts(Replay(Empty(), met).vals[h]).Ok? <==> !LastInAll(met, h)
    ensures IpFromOpts(Replay(Empty(), met).vals[h]).Ok? ==>
      PrintsLast(met, h, IpFromOpts(Replay(Empty(), met).vals[h]).value)
  {
    LoadedEntry(met, h);
  }

  /** What print_ips gives for a section. */
  ghost predicate Prints(all: Section, met: seq<Event>)
    requires all.Valid()
  {
    && (IpList(all.keys, all.vals).Ok? <==> forall h :: h in all.keys ==> !LastInAll(met, h))
    && (IpList(all.keys, all.vals).Ok? ==>
         && |IpList(all.keys, all.vals).value| == |all.keys|
         && forall i :: 0 <= i < |all.keys| ==> PrintsLast(met, all.keys[i], IpList(all.keys, all.vals).value[i]))
  }

  lemma PrintsIf(all: Section, met: seq<Event>)
    requires all.Valid()
    requires forall h :: h in all.keys ==> (IpFromOpts(all.vals[h]).Ok? <==> !LastInAll(met, h))
    requires forall h :: h in all.keys && IpFromOpts(all.vals[h]).Ok? ==>
      PrintsLast(met, h, IpFromOpts(all.vals[h]).value)
    ensures Prints(all, met)
  {
    IpListIs(all.keys, all.vals);
  }

  /** Printing the addresses of what a list of events leaves. */
  lemma PrintReplayed(met: seq<Event>)
    requires AllClean(met) && AllSetOff(met)
    ensures Replay(Empty(), met).Valid()
    ensures Replay(Empty(), met).keys == Extend([], Hosts(met))
    ensures Prints(Replay(Empty(), met), met)
  {
    ReplayKeys(met);
    var all := Replay(Empty(), met);
    forall h | h in all.keys
      ensures IpFromOpts(all.vals[h]).Ok? <==> !LastInAll(met, h)
      ensures IpFromOpts(all.vals[h]).Ok? ==> PrintsLast(met, h, IpFromOpts(all.vals[h]).value)
    {
      EntryReads(met, h);
    }
    PrintsIf(all, met);
  }

  /** Loading files into an empty inventory and printing the addresses: the hosts listed are
      those of the files, each with the address of its last group, whatever other variables
      it carries; and it fails exactly when some host was last met in a group called `all`. */
  lemma LoadThenPrint(files: seq<Data>)
    requires ValidFiles(files) && files != []
    requires LoadFiles(Empty(), files).1 == None && AllClean(FilesOf(files))
    ensures ValidConfig(LoadFiles(Empty(), files).0)
    ensures var cfg, met := LoadFiles(Empty(), files).0, FilesOf(files);
      && Members(cfg, ALL) == Extend([], Hosts(met))
      && (PrintIps(cfg).Ok? <==> forall h :: h in Members(cfg, ALL) ==> !LastInAll(met, h))
      && (PrintIps(cfg).Ok? ==>
           && |PrintIps(cfg).value| == |Members(cfg, ALL)|
           && forall i :: 0 <= i < |Members(cfg, ALL)| ==>
                PrintsLast(met, Members(cfg, ALL)[i], PrintIps(cfg).value[i]))
  {
    LoadFilesAll(Empty(), files);
    LoadFilesValid(Empty(), files);
    FilesSetOff(files);
    PrintReplayed(FilesOf(files));
  }

  lemma {:induction false} LoadFilesValid(cfg: Config, files: seq<Data>)
    requires ValidFiles(files) && ValidConfig(cfg)
    ensures ValidConfig(LoadFiles(cfg, files).0)
    decreases |files|
  {
    if files == [] {
    } else {
      LoadFileValid(cfg, files[0]);
      if LoadFile(cfg, files[0]).Ok? {
        LoadFilesValid(LoadFile(cfg, files[0]).value, files[1..]);
      }
    }
  }
}
