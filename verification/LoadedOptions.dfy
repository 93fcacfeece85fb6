/** The option strings that the load command writes under `all`. */
module LoadedOptions {
  import opened Text
  import opened Dicts
  import opened InventorySpec
  import opened Addresses

  /***** The text *****/

  lemma {:induction false} SplitMore(a: string, sep: char, b: string)
    requires sep !in b
    ensures Split(a + ([sep] + b), sep) == Split(a, sep) + [b]
  {
    var whole := a + ([sep] + b);
    if a == "" {
      assert whole == "" + [sep] + b;
      SplitAtSeparator("", sep, b);
      SplitNoSeparator(b, sep);
    } else {
      assert whole[1..] == a[1..] + ([sep] + b);
      SplitMore(a[1..], sep, b);
    }
  }

  /** The variables of a host other than its address, in order. */
  function Others(keys: seq<string>): seq<string> {
    Keep(keys, SetOf(keys) - {"ip"})
  }

  function Pair(key: string, value: string): string {
    key + "=" + value
  }

  function Pairs(keys: seq<string>, vals: map<string, string>): (ps: seq<string>)
    requires forall k :: k in keys ==> k in vals
    ensures |ps| == |keys|
    ensures forall i :: 0 <= i < |ps| ==> ps[i] == Pair(keys[i], vals[keys[i]])
  {
    seq(|keys|, i requires 0 <= i < |keys| => Pair(keys[i], vals[keys[i]]))
  }

  /** No name and no value holds a space. */
  ghost predicate Spaceless(keys: seq<string>, vals: map<string, string>) {
    forall k :: k in keys ==> k in vals && ' ' !in k && ' ' !in vals[k]
  }

  lemma OthersNext(keys: seq<string>)
    requires keys != []
    ensures var init, last := keys[..|keys| - 1], keys[|keys| - 1];
      Others(keys) == if last == "ip" then Others(init) else Others(init) + [last]
  {
    var init, last := keys[..|keys| - 1], keys[|keys| - 1];
    assert keys == init + [last];
    KeepAgree(init, SetOf(keys) - {"ip"}, SetOf(init) - {"ip"});
  }

  lemma PairsNext(keys: seq<string>, vals: map<string, string>, k: string)
    requires k in vals && forall x :: x in keys ==> x in vals
    ensures Pairs(keys + [k], vals) == Pairs(keys, vals) + [Pair(k, vals[k])]
  {
  }

  lemma {:induction false} ExtrasSplit(text: string, keys: seq<string>, vals: map<string, string>)
    requires Spaceless(keys, vals)
    ensures Split(text + Extras(keys, vals), ' ') == Split(text, ' ') + Pairs(Others(keys), vals)
  {
    if keys == [] {
      assert text + Extras(keys, vals) == text;
    } else {
      var init, last := keys[..|keys| - 1], keys[|keys| - 1];
      ExtrasSplit(text, init, vals);
      OthersNext(keys);
      if last == "ip" {
        assert Extras(init, vals) + "" == Extras(init, vals);
      } else {
        ExtrasOne(text, init, vals, last);
        PairsNext(Others(init), vals, last);
      }
    }
  }

  lemma ExtrasOne(text: string, keys: seq<string>, vals: map<string, string>, last: string)
    requires Spaceless(keys, vals) && last in vals && ' ' !in last && ' ' !in vals[last]
    ensures Split(text + (Extras(keys, vals) + (" " + last + "=" + vals[last])), ' ') ==
      Split(text + Extras(keys, vals), ' ') + [Pair(last, vals[last])]
  {
    var before := text + Extras(keys, vals);
    assert text + (Extras(keys, vals) + (" " + last + "=" + vals[last])) == before + ([' '] + Pair(last, vals[last]));
    SplitMore(before, ' ', Pair(last, vals[last]));
  }

  /** The two options that every host carries. */
  lemma AddressOptions(ip: string)
    requires ' ' !in ip
    ensures Split(HostOpts(ip), ' ') == ["ansible_host=" + ip, "ip=" + ip]
  {
    var first, second := "ansible_host=" + ip, "ip=" + ip;
    assert HostOpts(ip) == first + [' '] + second;
    SplitAtSeparator(first, ' ', second);
    SplitNoSeparator(second, ' ');
  }

  /** Split at its spaces, an option string is the two address options and then `key=value` for
      each other variable, in order. */
  lemma OptionsOf(attrs: Attrs)
    requires attrs.Valid() && "ip" in attrs.vals && Spaceless(attrs.keys, attrs.vals)
    ensures var ip := attrs.vals["ip"];
      Split(HostOpts(ip) + Extras(attrs.keys, attrs.vals), ' ') ==
        ["ansible_host=" + ip, "ip=" + ip] + Pairs(Others(attrs.keys), attrs.vals)
  {
    AddressOptions(attrs.vals["ip"]);
    ExtrasSplit(HostOpts(attrs.vals["ip"]), attrs.keys, attrs.vals);
  }

  /***** Where the entry of a host comes from *****/

  /** The last event about a host. */
  function Last(events: seq<Event>, h: string): Option<Event> {
    if events == [] then None
    else
      var last := events[|events| - 1];
      if last.Hosted? && last.host == h then Some(last) else Last(events[..|events| - 1], h)
  }

  lemma {:induction false} LastConcat(a: seq<Event>, b: seq<Event>, h: string)
    ensures Last(a + b, h) == if Last(b, h).Some? then Last(b, h) else Last(a, h)
  {
    if b == [] {
      assert a + b == a;
    } else {
      var init := b[..|b| - 1];
      assert (a + b)[..|a + b| - 1] == a + init;
      LastConcat(a, init, h);
    }
  }

  lemma LastNext(events: seq<Event>, n: nat, h: string)
    requires n < |events|
    ensures Last(events[..n + 1], h) ==
      if events[n].Hosted? && events[n].host == h then Some(events[n]) else Last(events[..n], h)
  {
    assert events[..n + 1][..n] == events[..n];
  }

  /** The entry under `all` is that of the last event. */
  lemma {:induction false} ReplayLast(sec: Section, events: seq<Event>, h: string)
    requires forall e :: e in events && e.Hosted? ==> e.ip.Some?
    ensures var all, last := Replay(sec, events), Last(events, h);
      match last
      case None => (h in all.vals <==> h in sec.vals) && (h in sec.vals ==> all.vals[h] == sec.vals[h])
      case Some(e) =>
        && e.Hosted? && e.ip.Some? && h in all.vals
        && all.vals[h] == Written(e.group, e.ip.value, e.extras)
  {
    if events == [] {
    } else {
      var init, last := events[..|events| - 1], events[|events| - 1];
      assert events == init + [last];
      ReplayLast(sec, init, h);
    }
  }

  /** What one group of a file says of a host. */
  function Said(group: string, hosts: Dict<Attrs>, h: string): Option<Event>
    requires ValidHosts(hosts)
  {
    if h in hosts.vals then Some(Met(group, h, hosts.vals[h])) else None
  }

  lemma {:induction false} LastHosts(
    events: seq<Event>, hosts: seq<string>, h: string, said: Event, n: nat)
    requires n <= |events| == |hosts|
    requires forall i :: 0 <= i < |hosts| ==> events[i].Hosted? && events[i].host == hosts[i]
    requires forall i :: 0 <= i < |hosts| && hosts[i] == h ==> events[i] == said
    ensures Last(events[..n], h) == if h in hosts[..n] then Some(said) else None
  {
    if n == 0 {
    } else {
      LastHosts(events, hosts, h, said, n - 1);
      LastNext(events, n - 1, h);
      NextSlice(hosts, n - 1);
    }
  }

  lemma LastInGroup(group: string, hosts: Dict<Attrs>, h: string)
    requires ValidHosts(hosts)
    ensures Last(GroupEvents(group, hosts), h) == Said(group, hosts, h)
  {
    var events := HostEvents(group, hosts);
    LastConcat([Grouped(group)], events, h);
    assert [Grouped(group)][..0] == [];
    assert events[..|hosts.keys|] == events && hosts.keys[..|hosts.keys|] == hosts.keys;
    LastHosts(events, hosts.keys, h, if h in hosts.vals then Met(group, h, hosts.vals[h]) else Grouped(group),
              |hosts.keys|);
  }

  /** What the first `n` groups of a file say last of a host. */
  function SaidLast(data: Data, n: nat, h: string): Option<Event>
    requires n <= |data.keys| && ValidData(data)
  {
    if n == 0 then None
    else
      var said := Said(data.keys[n - 1], data.vals[data.keys[n - 1]], h);
      if said.Some? then said else SaidLast(data, n - 1, h)
  }

  lemma LastMore(before: seq<Event>, group: string, hosts: Dict<Attrs>, h: string)
    requires ValidHosts(hosts)
    ensures Last(before + GroupEvents(group, hosts), h) ==
      if Said(group, hosts, h).Some? then Said(group, hosts, h) else Last(before, h)
  {
    LastConcat(before, GroupEvents(group, hosts), h);
    LastInGroup(group, hosts, h);
  }

  lemma {:induction false} LastInFile(data: Data, n: nat, h: string)
    requires n <= |data.keys| && ValidData(data)
    ensures Last(FileEvents(data, n), h) == SaidLast(data, n, h)
  {
    if n == 0 {
    } else {
      LastInFile(data, n - 1, h);
      LastMore(FileEvents(data, n - 1), data.keys[n - 1], data.vals[data.keys[n - 1]], h);
    }
  }

  /** `k` is the last group of a file, among the first `n`, that has the host. */
  ghost predicate LastGroup(data: Data, n: nat, h: string, k: nat)
    requires n <= |data.keys| && ValidData(data)
  {
    && k < n && h in data.vals[data.keys[k]].vals
    && forall j :: k < j < n ==> h !in data.vals[data.keys[j]].vals
  }

  lemma {:induction false} SaidByLast(data: Data, n: nat, h: string, k: nat)
    requires n <= |data.keys| && ValidData(data) && LastGroup(data, n, h, k)
    ensures SaidLast(data, n, h) == Said(data.keys[k], data.vals[data.keys[k]], h)
  {
    if k == n - 1 {
    } else {
      SaidByLast(data, n - 1, h, k);
    }
  }

  ghost predicate NotIn(data: Data, h: string) {
    forall g :: g in data.vals ==> h !in data.vals[g].vals
  }

  lemma {:induction false} SaidByNone(data: Data, n: nat, h: string)
    requires n <= |data.keys| && ValidData(data) && NotIn(data, h)
    ensures SaidLast(data, n, h) == None
  {
    if n == 0 {
    } else {
      SaidByNone(data, n - 1, h);
    }
  }

  /** The last file, and its last group, that has the host. */
  ghost predicate LastPlace(files: seq<Data>, h: string, i: nat, k: nat)
    requires ValidFiles(files)
  {
    && i < |files| && LastGroup(files[i], |files[i].keys|, h, k)
    && forall j :: i < j < |files| ==> NotIn(files[j], h)
  }

  lemma {:induction false} LastInNone(files: seq<Data>, h: string)
    requires ValidFiles(files) && forall j :: 0 <= j < |files| ==> NotIn(files[j], h)
    ensures Last(FilesOf(files), h) == None
    decreases |files|
  {
    if files == [] {
    } else {
      LastInNone(files[1..], h);
      FirstFileLast(files, h);
      SaidByNone(files[0], |files[0].keys|, h);
    }
  }

  lemma FirstFileLast(files: seq<Data>, h: string)
    requires ValidFiles(files) && files != []
    ensures Last(FilesOf(files), h) ==
      if Last(FilesOf(files[1..]), h).Some? then Last(FilesOf(files[1..]), h)
      else SaidLast(files[0], |files[0].keys|, h)
  {
    LastConcat(FileEvents(files[0], |files[0].keys|), FilesOf(files[1..]), h);
    LastInFile(files[0], |files[0].keys|, h);
  }

  lemma {:induction false} LastInFiles(files: seq<Data>, h: string, i: nat, k: nat)
    requires ValidFiles(files) && LastPlace(files, h, i, k)
    ensures Last(FilesOf(files), h) == Said(files[i].keys[k], files[i].vals[files[i].keys[k]], h)
    decreases i
  {
    FirstFileLast(files, h);
    if i == 0 {
      LastInNone(files[1..], h);
      SaidByLast(files[0], |files[0].keys|, h, k);
    } else {
      LastInFiles(files[1..], h, i - 1, k);
    }
  }

  /***** What a load leaves under `all` *****/

  lemma {:induction false} LoadedAddressed(cfg: Config, events: seq<Event>)
    requires Load(cfg, events).Ok?
    ensures forall e :: e in events && e.Hosted? ==> e.ip.Some?
  {
    if events == [] {
    } else {
      var init, last := events[..|events| - 1], events[|events| - 1];
      assert events == init + [last];
      LoadedAddressed(cfg, init);
    }
  }

  lemma {:induction false} FilesAddressed(cfg: Config, files: seq<Data>)
    requires ValidFiles(files) && LoadFiles(cfg, files).1 == None
    ensures forall e :: e in FilesOf(files) && e.Hosted? ==> e.ip.Some?
    decreases |files|
  {
    if files == [] {
    } else {
      LoadedAddressed(AddAll(EnsureGroups(cfg, ROLES), CLUSTER, [NODE, MASTER]),
                      FileEvents(files[0], |files[0].keys|));
      FilesAddressed(LoadFile(cfg, files[0]).value, files[1..]);
    }
  }

  lemma WrittenOptions(text: string, group: string, h: string, attrs: Attrs)
    requires attrs.Valid() && Met(group, h, attrs).ip.Some?
    requires text == Written(group, Met(group, h, attrs).ip.value, Met(group, h, attrs).extras)
    ensures WrittenAs(text, group, attrs)
  {
    if Spaceless(attrs.keys, attrs.vals) {
      OptionsOf(attrs);
    }
  }

  /** Nothing for a group called `all`; otherwise, split at the spaces, the two address options
      and then `key=value` for each other variable, in order. */
  ghost predicate WrittenAs(text: string, group: string, attrs: Attrs)
    requires attrs.Valid()
  {
    && "ip" in attrs.vals
    && (group == "all" ==> text == "")
    && (group != "all" && Spaceless(attrs.keys, attrs.vals) ==>
         Split(text, ' ') ==
           ["ansible_host=" + attrs.vals["ip"], "ip=" + attrs.vals["ip"]] + Pairs(Others(attrs.keys), attrs.vals))
  }

  /** After a successful load `all` holds, for every host of the files, the options of the last
      group that has it in the last file that has it. */
  lemma LoadedEntryText(cfg: Config, files: seq<Data>, h: string, i: nat, k: nat)
    requires ValidFiles(files) && LoadFiles(cfg, files).1 == None && LastPlace(files, h, i, k)
    ensures var all, group := At(LoadFiles(cfg, files).0, ALL), files[i].keys[k];
      h in all.vals && WrittenAs(all.vals[h], group, files[i].vals[group].vals[h])
  {
    var group := files[i].keys[k];
    LoadFilesAll(cfg, files);
    FilesAddressed(cfg, files);
    ReplayLast(At(cfg, ALL), FilesOf(files), h);
    LastInFiles(files, h, i, k);
    WrittenOptions(At(LoadFiles(cfg, files).0, ALL).vals[h], group, h, files[i].vals[group].vals[h]);
  }

  /** A host that no file has keeps its entry. */
  lemma UnloadedEntry(cfg: Config, files: seq<Data>, h: string)
    requires ValidFiles(files) && LoadFiles(cfg, files).1 == None
    requires forall j :: 0 <= j < |files| ==> NotIn(files[j], h)
    ensures var all := At(LoadFiles(cfg, files).0, ALL);
      && (h in all.vals <==> h in At(cfg, ALL).vals)
      && (h in all.vals ==> all.vals[h] == At(cfg, ALL).vals[h])
  {
    LoadFilesAll(cfg, files);
    FilesAddressed(cfg, files);
    ReplayLast(At(cfg, ALL), FilesOf(files), h);
    LastInNone(files, h);
  }
}
