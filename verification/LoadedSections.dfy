/** What the load command leaves in every section, told from the parsed files: who is listed
    where, in which order, and with which options. */
module LoadedSections {
  import opened Text
  import opened Dicts
  import opened InventorySpec
  import opened Addresses
  import opened RoleHistory

  /***** Joining *****/

  function Blank(hosts: seq<string>): map<string, string> {
    map h | h in hosts :: ""
  }

  lemma BlankConcat(vals: map<string, string>, a: seq<string>, b: seq<string>)
    ensures vals + Blank(a) + Blank(b) == vals + Blank(a + b)
  {
    assert Blank(a) + Blank(b) == Blank(a + b);
  }

  lemma JoinedConcat(sec: Section, a: seq<string>, b: seq<string>)
    ensures Joined(Joined(sec, a), b) == Joined(sec, a + b)
  {
    ExtendConcat(sec.keys, a, b);
    BlankConcat(sec.vals, a, b);
  }

  lemma JoinedTwice(sec: Section, a: seq<string>, b: seq<string>, c: seq<string>)
    requires forall x :: x in c ==> x in a
    ensures Joined(sec, a + b + c) == Joined(sec, a + b)
  {
    ExtendConcat(sec.keys, a + b, c);
    ExtendSubset(Extend(sec.keys, a + b), c);
    assert Blank(a + b + c) == Blank(a + b);
  }

  /** Joining hosts to a section: they come behind, each once, with an empty option string; the
      others stay as they are. */
  lemma JoinedMeans(sec: Section, hosts: seq<string>)
    requires sec.Valid()
    ensures var after := Joined(sec, hosts);
      && sec.keys <= after.keys
      && (forall h :: h in after.keys <==> h in sec.keys || h in hosts)
      && (forall h :: h in hosts ==> h in after.vals && after.vals[h] == "")
      && (forall h :: h in sec.vals && h !in hosts ==> h in after.vals && after.vals[h] == sec.vals[h])
  {
    ExtendDistinct(sec.keys, hosts);
  }

  /***** Events, section by section *****/

  function UnderOne(e: Event, s: string): seq<string> {
    if e.Hosted? && e.group == s then [e.host] else []
  }

  /** The hosts met under a group. */
  function Under(events: seq<Event>, s: string): seq<string> {
    if events == [] then [] else Under(events[..|events| - 1], s) + UnderOne(events[|events| - 1], s)
  }

  lemma {:induction false} UnderConcat(a: seq<Event>, b: seq<Event>, s: string)
    ensures Under(a + b, s) == Under(a, s) + Under(b, s)
  {
    if b == [] {
      assert a + b == a;
    } else {
      var init := b[..|b| - 1];
      assert (a + b)[..|a + b| - 1] == a + init;
      UnderConcat(a, init, s);
    }
  }

  /** Unless loading has failed, the section `s` is `sec`. */
  ghost predicate SectionIs(r: Result<Config, Failure>, s: string, sec: Section) {
    r.Ok? ==> At(r.value, s) == sec
  }

  lemma LoadEventAt(cfg: Config, e: Event, s: string, sec: Section, xs: seq<string>)
    requires s != ALL && sec.Valid() && At(cfg, s) == Joined(sec, xs)
    ensures SectionIs(LoadEvent(cfg, e), s, Joined(sec, xs + UnderOne(e, s)))
  {
    assert xs + [] == xs;
    if e.Hosted? && e.group == s {
      JoinedPut(sec, xs, e.host);
    }
  }

  lemma {:induction false} LoadAt(cfg: Config, events: seq<Event>, s: string)
    requires s != ALL && At(cfg, s).Valid()
    ensures SectionIs(Load(cfg, events), s, Joined(At(cfg, s), Under(events, s)))
  {
    if events == [] {
      JoinedNone(At(cfg, s));
    } else {
      var init := events[..|events| - 1];
      LoadAt(cfg, init, s);
      if Load(cfg, init).Ok? {
        LoadEventAt(Load(cfg, init).value, events[|events| - 1], s, At(cfg, s), Under(init, s));
      }
    }
  }

  lemma UnderNext(events: seq<Event>, n: nat, s: string)
    requires n < |events|
    ensures Under(events[..n + 1], s) == Under(events[..n], s) + UnderOne(events[n], s)
  {
    assert events[..n + 1][..n] == events[..n];
  }

  lemma {:induction false} UnderHosts(events: seq<Event>, group: string, hosts: seq<string>, s: string, n: nat)
    requires n <= |events| == |hosts|
    requires forall i :: 0 <= i < |hosts| ==>
      events[i].Hosted? && events[i].group == group && events[i].host == hosts[i]
    ensures Under(events[..n], s) == if group == s then hosts[..n] else []
  {
    if n == 0 {
    } else {
      UnderHosts(events, group, hosts, s, n - 1);
      UnderNext(events, n - 1, s);
      NextSlice(hosts, n - 1);
    }
  }

  lemma UnderGroup(group: string, hosts: Dict<Attrs>, s: string)
    requires ValidHosts(hosts)
    ensures Under(GroupEvents(group, hosts), s) == if group == s then hosts.keys else []
  {
    var events := HostEvents(group, hosts);
    UnderHosts(events, group, hosts.keys, s, |hosts.keys|);
    assert events[..|hosts.keys|] == events && hosts.keys[..|hosts.keys|] == hosts.keys;
    UnderConcat([Grouped(group)], events, s);
    assert [Grouped(group)][..0] == [];
  }

  /** The hosts that a file gives for a group. */
  function InFile(data: Data, s: string): seq<string> {
    if s in data.vals then data.vals[s].keys else []
  }

  /** `hosts` for each time that `s` is among the keys. */
  function Chosen(keys: seq<string>, s: string, hosts: seq<string>): seq<string> {
    if keys == [] then []
    else Chosen(keys[..|keys| - 1], s, hosts) + if keys[|keys| - 1] == s then hosts else []
  }

  lemma {:induction false} ChosenIs(keys: seq<string>, s: string, hosts: seq<string>)
    requires Distinct(keys)
    ensures Chosen(keys, s, hosts) == if s in keys then hosts else []
  {
    if keys == [] {
    } else {
      var n := |keys| - 1;
      DistinctHere(keys, n);
      ChosenIs(keys[..n], s, hosts);
      assert keys == keys[..n] + [keys[n]];
    }
  }

  lemma ChosenNext(keys: seq<string>, n: nat, s: string, hosts: seq<string>)
    requires n < |keys|
    ensures Chosen(keys[..n + 1], s, hosts) == Chosen(keys[..n], s, hosts) + if keys[n] == s then hosts else []
  {
    assert keys[..n + 1][..n] == keys[..n];
  }

  lemma UnderMore(before: seq<Event>, group: string, hosts: Dict<Attrs>, s: string)
    requires ValidHosts(hosts)
    ensures Under(before + GroupEvents(group, hosts), s) == Under(before, s) + if group == s then hosts.keys else []
  {
    UnderConcat(before, GroupEvents(group, hosts), s);
    UnderGroup(group, hosts, s);
  }

  lemma {:induction false} UnderGroups(data: Data, n: nat, s: string)
    requires n <= |data.keys| && ValidData(data)
    ensures Under(FileEvents(data, n), s) == Chosen(data.keys[..n], s, InFile(data, s))
  {
    if n == 0 {
    } else {
      UnderGroups(data, n - 1, s);
      UnderMore(FileEvents(data, n - 1), data.keys[n - 1], data.vals[data.keys[n - 1]], s);
      ChosenNext(data.keys, n - 1, s, InFile(data, s));
    }
  }

  lemma UnderFile(data: Data, s: string)
    requires ValidData(data)
    ensures Under(FileEvents(data, |data.keys|), s) == InFile(data, s)
  {
    UnderGroups(data, |data.keys|, s);
    assert data.keys[..|data.keys|] == data.keys;
    ChosenIs(data.keys, s, InFile(data, s));
  }

  /***** Files *****/

  /** The children that loading any file lists under the cluster. */
  function Children(s: string): seq<string> {
    if s == "k8s-cluster:children" then ["kube-node", "kube-master"] else []
  }

  lemma LoadFileAt(cfg: Config, data: Data, s: string)
    requires ValidConfig(cfg) && ValidData(data) && s != ALL
    ensures SectionIs(LoadFile(cfg, data), s, Joined(At(cfg, s), Children(s) + InFile(data, s)))
  {
    var start := AddAll(EnsureGroups(cfg, ROLES), CLUSTER, [NODE, MASTER]);
    EnsureGroupsIs(cfg, ROLES);
    AddAllAt(EnsureGroups(cfg, ROLES), CLUSTER, [NODE, MASTER], s);
    AddAllValid(EnsureGroups(cfg, ROLES), CLUSTER, [NODE, MASTER]);
    JoinedNone(At(cfg, s));
    assert At(start, s) == Joined(At(cfg, s), Children(s));
    LoadAt(start, FileEvents(data, |data.keys|), s);
    UnderFile(data, s);
    JoinedConcat(At(cfg, s), Children(s), InFile(data, s));
  }

  /** The hosts that the files give for a group, in order, with repetitions. */
  function InFiles(files: seq<Data>, s: string): seq<string> {
    if files == [] then [] else InFile(files[0], s) + InFiles(files[1..], s)
  }

  lemma Regroup3(kids: seq<string>, a: seq<string>, b: seq<string>)
    ensures (kids + a) + (kids + b) == (kids + a + kids) + b
    ensures (kids + a) + b == kids + (a + b)
  {
  }

  lemma JoinedFiles(sec: Section, kids: seq<string>, a: seq<string>, b: seq<string>)
    ensures Joined(Joined(sec, kids + a), kids + b) == Joined(sec, kids + (a + b))
  {
    Regroup3(kids, a, b);
    JoinedConcat(sec, kids + a, kids + b);
    JoinedConcat(sec, kids + a + kids, b);
    JoinedTwice(sec, kids, a, kids);
    JoinedConcat(sec, kids + a, b);
  }

  lemma {:induction false} LoadFilesAt(cfg: Config, files: seq<Data>, s: string)
    requires ValidConfig(cfg) && ValidFiles(files) && s != ALL
    requires LoadFiles(cfg, files).1 == None && files != []
    ensures At(LoadFiles(cfg, files).0, s) == Joined(At(cfg, s), Children(s) + InFiles(files, s))
    decreases |files|
  {
    var c := LoadFile(cfg, files[0]).value;
    var rest := files[1..];
    LoadFileAt(cfg, files[0], s);
    LoadFileValid(cfg, files[0]);
    if rest == [] {
      assert LoadFiles(c, rest).0 == c;
      assert InFile(files[0], s) + [] == InFile(files[0], s);
    } else {
      LoadFilesAt(c, rest, s);
      JoinedFiles(At(cfg, s), Children(s), InFile(files[0], s), InFiles(rest, s));
    }
  }

  /** After a successful load every section other than `all` lists what it did before (for the
      cluster also workers and masters), followed by the hosts that the files give for the group
      of its name, in order; those carry no options, and the others keep theirs. */
  lemma LoadedSection(cfg: Config, files: seq<Data>, s: string)
    requires ValidConfig(cfg) && ValidFiles(files) && s != "all"
    requires LoadFiles(cfg, files).1 == None && files != []
    ensures var c, added := LoadFiles(cfg, files).0, Children(s) + InFiles(files, s);
      && Members(c, s) == Extend(Members(cfg, s), added)
      && (forall h :: h in added ==> h in At(c, s).vals && At(c, s).vals[h] == "")
      && (forall h :: h in At(cfg, s).vals && h !in added ==>
           h in At(c, s).vals && At(c, s).vals[h] == At(cfg, s).vals[h])
  {
    LoadFilesAt(cfg, files, s);
    JoinedMeans(At(cfg, s), Children(s) + InFiles(files, s));
  }

  /***** When a load succeeds *****/

  ghost predicate AllAddressed(hosts: Dict<Attrs>) {
    forall h :: h in hosts.vals ==> "ip" in hosts.vals[h].vals
  }

  ghost predicate FileAddressed(data: Data) {
    forall g :: g in data.vals ==> AllAddressed(data.vals[g])
  }

  /** No event lacks an address. */
  ghost predicate Complete(events: seq<Event>) {
    forall e :: e in events ==> e.Hosted? ==> e.ip.Some?
  }

  lemma {:induction false} LoadIfComplete(cfg: Config, events: seq<Event>)
    ensures Load(cfg, events).Ok? <==> Complete(events)
  {
    if events == [] {
    } else {
      var init, last := events[..|events| - 1], events[|events| - 1];
      assert events == init + [last];
      LoadIfComplete(cfg, init);
    }
  }

  lemma GroupComplete(group: string, hosts: Dict<Attrs>)
    requires ValidHosts(hosts)
    ensures Complete(GroupEvents(group, hosts)) <==> AllAddressed(hosts)
  {
    var events := HostEvents(group, hosts);
    if AllAddressed(hosts) {
      forall e | e in GroupEvents(group, hosts) && e.Hosted? ensures e.ip.Some? {
        assert e in events;
        var i :| 0 <= i < |events| && events[i] == e;
        assert hosts.keys[i] in hosts.vals;
      }
    } else {
      var h :| h in hosts.vals && "ip" !in hosts.vals[h].vals;
      var i :| 0 <= i < |hosts.keys| && hosts.keys[i] == h;
      assert events[i] in GroupEvents(group, hosts);
    }
  }

  lemma CompleteConcat(a: seq<Event>, b: seq<Event>)
    ensures Complete(a + b) <==> Complete(a) && Complete(b)
  {
    assert forall e :: e in a + b <==> e in a || e in b;
  }

  ghost predicate FirstAddressed(data: Data, n: nat)
    requires n <= |data.keys| && ValidData(data)
  {
    forall i :: 0 <= i < n ==> AllAddressed(data.vals[data.keys[i]])
  }

  lemma {:induction false} GroupsComplete(data: Data, n: nat)
    requires n <= |data.keys| && ValidData(data)
    ensures Complete(FileEvents(data, n)) <==> FirstAddressed(data, n)
  {
    if n == 0 {
    } else {
      var group := data.keys[n - 1];
      GroupsComplete(data, n - 1);
      GroupComplete(group, data.vals[group]);
      CompleteConcat(FileEvents(data, n - 1), GroupEvents(group, data.vals[group]));
    }
  }

  lemma FileComplete(data: Data)
    requires ValidData(data)
    ensures Complete(FileEvents(data, |data.keys|)) <==> FileAddressed(data)
  {
    GroupsComplete(data, |data.keys|);
    if FirstAddressed(data, |data.keys|) {
      forall g | g in data.vals ensures AllAddressed(data.vals[g]) {
        var i :| 0 <= i < |data.keys| && data.keys[i] == g;
      }
    }
  }

  lemma LoadFileIf(cfg: Config, data: Data)
    requires ValidData(data)
    ensures LoadFile(cfg, data).Ok? <==> FileAddressed(data)
  {
    LoadIfComplete(AddAll(EnsureGroups(cfg, ROLES), CLUSTER, [NODE, MASTER]), FileEvents(data, |data.keys|));
    FileComplete(data);
  }

  lemma {:induction false} OnlyMissing(cfg: Config, events: seq<Event>)
    ensures Load(cfg, events).Err? ==> Load(cfg, events).error == MissingIp
  {
    if events == [] {
    } else {
      OnlyMissing(cfg, events[..|events| - 1]);
    }
  }

  lemma OnlyMissingIp(cfg: Config, data: Data)
    requires ValidData(data)
    ensures LoadFile(cfg, data).Err? ==> LoadFile(cfg, data).error == MissingIp
  {
    OnlyMissing(AddAll(EnsureGroups(cfg, ROLES), CLUSTER, [NODE, MASTER]), FileEvents(data, |data.keys|));
  }

  lemma LoadFirst(cfg: Config, files: seq<Data>)
    requires ValidFiles(files) && files != []
    ensures FileAddressed(files[0]) ==>
      LoadFile(cfg, files[0]).Ok? && LoadFiles(cfg, files) == LoadFiles(LoadFile(cfg, files[0]).value, files[1..])
    ensures !FileAddressed(files[0]) ==>
      LoadFiles(cfg, files).0 == cfg && LoadFiles(cfg, files).1 == Some(MissingIp)
  {
    LoadFileIf(cfg, files[0]);
    OnlyMissingIp(cfg, files[0]);
  }

  /** The first `n` files are complete, and the next one is not. */
  ghost predicate StopsAt(files: seq<Data>, n: nat)
    requires n <= |files|
  {
    && (forall i :: 0 <= i < n ==> FileAddressed(files[i]))
    && (n < |files| ==> !FileAddressed(files[n]))
  }

  lemma StopsTail(files: seq<Data>, n: nat)
    requires 0 < n <= |files| && StopsAt(files, n)
    ensures FileAddressed(files[0]) && FileAddressed(files[..n][0])
    ensures StopsAt(files[1..], n - 1)
  {
    forall i | 0 <= i < n - 1 ensures FileAddressed(files[1..][i]) {
      assert files[1..][i] == files[i + 1];
    }
  }

  lemma LoadBoth(cfg: Config, files: seq<Data>, n: nat) returns (c: Config)
    requires ValidFiles(files) && 0 < n <= |files| && StopsAt(files, n)
    ensures StopsAt(files[1..], n - 1)
    ensures LoadFiles(cfg, files) == LoadFiles(c, files[1..])
    ensures LoadFiles(cfg, files[..n]) == LoadFiles(c, files[1..][..n - 1])
  {
    StopsTail(files, n);
    LoadFirst(cfg, files);
    LoadFirst(cfg, files[..n]);
    assert files[..n][1..] == files[1..][..n - 1];
    c := LoadFile(cfg, files[0]).value;
  }

  /** Loading stops at the first file with a host that has no address, and keeps the files
      before it: with `n` complete files in front, exactly those are loaded. */
  lemma {:induction false} LoadKeepsPrefix(cfg: Config, files: seq<Data>, n: nat)
    requires ValidFiles(files) && n <= |files|
    requires StopsAt(files, n)
    ensures LoadFiles(cfg, files[..n]).1 == None
    ensures LoadFiles(cfg, files).0 == LoadFiles(cfg, files[..n]).0
    ensures LoadFiles(cfg, files).1 == if n < |files| then Some(MissingIp) else None
    decreases n
  {
    if n == 0 {
      if files != [] {
        LoadFirst(cfg, files);
      }
    } else {
      var c := LoadBoth(cfg, files, n);
      LoadKeepsPrefix(c, files[1..], n - 1);
    }
  }
}
