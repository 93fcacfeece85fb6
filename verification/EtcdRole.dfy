/** The certificate tasks of the etcd role in their own order: facts are registered, then set,
    then the script runs once, then certificates are gathered and unpacked host by host. */
module EtcdRole {
  import opened EtcdCerts

  /** `my_master_certs` */
  function MyMasterCerts(h: Host): seq<File> {
    [CaKey, CertOf(Admin, h), KeyOf(Admin, h), CertOf(Member, h), KeyOf(Member, h)]
  }

  /** `my_node_certs` */
  function MyNodeCerts(h: Host): seq<File> {
    [CaCert, CertOf(Node, h), KeyOf(Node, h)]
  }

  predicate IsNodeCert(g: Groups, f: File) {
    f == CaCert || (f != CaKey && f.role == Node && f.host in g.Clients())
  }

  /** The names an etcd host is sent are the files it is meant to have. */
  lemma MasterNamesWanted(g: Groups, h: Host, allNodeCerts: seq<File>)
    requires h in g.etcd && forall f :: f in allNodeCerts <==> IsNodeCert(g, f)
    ensures forall f :: f in MyMasterCerts(h) + allNodeCerts <==> Wanted(g, h, f)
  {
  }

  lemma NodeNamesWanted(g: Groups, h: Host)
    requires h !in g.etcd
    ensures forall f :: f in MyNodeCerts(h) <==> Wanted(g, h, f)
  {
  }

  class Play {
    const groups: Groups
    /** The certificate directories, and the next key id that openssl draws. */
    var stores: map<Host, Store>
    var next: nat
    /** Registered by the first tasks: the first etcd host's files, and each host's own. */
    var master: Store
    var own: map<Host, Store>
    /** Facts. `gen_certs` is the same on every host of the play, since a `run_once` task
        sets it. */
    var genCerts: bool
    var genNodeCerts: map<Host, bool>
    var syncCerts: map<Host, bool>
    /** Registered archives. */
    var masterData: map<Host, Store>
    var nodeData: map<Host, Store>

    constructor (groups: Groups, w: World)
      ensures this.groups == groups && stores == w.stores && next == w.next
    {
      this.groups := groups;
      stores, next := w.stores, w.next;
      master, own := map[], map[];
      genCerts, genNodeCerts, syncCerts := false, map[], map[];
      masterData, nodeData := map[], map[];
    }

    ghost predicate FactsFor(play: seq<Host>, w: World)
      reads this
      requires groups.etcd != []
    {
      && master == StoreOf(w, groups.etcd[0])
      && (genCerts <==> NeedsGeneration(groups, master))
      && (forall h :: h in groups.All() ==> h in genNodeCerts && genNodeCerts[h] == Missing(master, h))
      && (forall h :: h in play ==> h in syncCerts && syncCerts[h] == NeedsSync(master, StoreOf(w, h), h))
    }

    method SetGenCerts()
      modifies `genCerts
      ensures genCerts <==> NeedsGeneration(groups, master)
    {
      genCerts := CaCert !in master;
      var todo := groups.All();
      while todo != {}
        invariant todo <= groups.All()
        invariant genCerts <==> CaCert !in master || exists h :: h in groups.All() - todo && Missing(master, h)
        decreases |todo|
      {
        var h :| h in todo;
        assert groups.All() - (todo - {h}) == (groups.All() - todo) + {h};
        todo := todo - {h};
        if KeyOf(Node, h) !in master {
          genCerts := true;
        }
      }
      assert groups.All() - todo == groups.All();
    }

    method SetGenNodeCerts()
      modifies `genNodeCerts
      ensures forall h :: h in groups.All() ==> h in genNodeCerts && genNodeCerts[h] == Missing(master, h)
    {
      genNodeCerts := map[];
      var todo := groups.All();
      while todo != {}
        invariant todo <= groups.All()
        invariant forall h :: h in groups.All() - todo ==> h in genNodeCerts && genNodeCerts[h] == Missing(master, h)
        decreases |todo|
      {
        var h :| h in todo;
        todo := todo - {h};
        genNodeCerts := genNodeCerts[h := KeyOf(Node, h) !in master];
      }
    }

    method SetSyncCerts(play: seq<Host>)
      requires forall h :: h in play ==> h in genNodeCerts && genNodeCerts[h] == Missing(master, h)
      requires forall h :: h in play ==> h in own
      modifies `syncCerts
      ensures forall h :: h in play ==> h in syncCerts && syncCerts[h] == NeedsSync(master, own[h], h)
    {
      syncCerts := map[];
      for i := 0 to |play|
        invariant forall h :: h in play[..i] ==> h in syncCerts && syncCerts[h] == NeedsSync(master, own[h], h)
      {
        var h := play[i];
        var sync := genNodeCerts[h] || CaCert !in own[h] || KeyOf(Node, h) !in own[h]
          || own[h][KeyOf(Node, h)] != master[KeyOf(Node, h)];
        syncCerts := syncCerts[h := sync];
        assert play[..i + 1] == play[..i] + [h];
      }
    }

    /** check_certs.yml */
    method CheckCerts(play: seq<Host>)
      requires groups.etcd != [] && forall h :: h in play ==> h in groups.All()
      modifies `master, `own, `genCerts, `genNodeCerts, `syncCerts
      ensures FactsFor(play, World(stores, next))
    {
      ghost var w := World(stores, next);
      var first := groups.etcd[0];
      master := if first in stores then stores[first] else map[];
      own := map h | h in play :: if h in stores then stores[h] else map[];
      SetGenCerts();
      SetGenNodeCerts();
      SetSyncCerts(play);
      forall h | h in play ensures own[h] == StoreOf(w, h) {
      }
    }

    /** The hosts of a group whose key is to be generated, each once. */
    method Selected(hs: seq<Host>) returns (r: seq<Host>)
      requires forall h :: h in hs ==> h in genNodeCerts && genNodeCerts[h] == Missing(master, h)
      ensures r == Lacking(master, hs)
    {
      r := [];
      for i := 0 to |hs|
        invariant r == Lacking(master, hs[..i])
      {
        assert hs[..i + 1][..i] == hs[..i];
        if genNodeCerts[hs[i]] && hs[i] !in hs[..i] {
          r := r + [hs[i]];
        }
      }
      assert hs[..|hs|] == hs;
    }

    /** The script task: once for the play, when its first host is the first etcd host. */
    method Generate(play: seq<Host>) returns (ok: bool)
      requires groups.etcd != [] && play != []
      requires FactsFor(play, World(stores, next))
      modifies `stores, `next
      ensures match Generated(groups, play, World(old(stores), old(next)))
              case None => !ok && stores == old(stores) && next == old(next)
              case Some(w) => ok && World(stores, next) == w
    {
      var first := groups.etcd[0];
      if !genCerts || play[0] != first {
        return true;
      }
      var masters := Selected(groups.etcd);
      var hosts := Selected(groups.cluster + groups.reflectors);
      var made := RunScript(master, next, masters, hosts);
      if made.None? {
        return false;
      }
      stores := stores[first := made.value.0];
      next := made.value.1;
      return true;
    }

    /** `all_node_certs`: the authority and every client's pair, each client once. */
    method AllNodeCerts() returns (names: seq<File>)
      ensures forall f :: f in names <==> IsNodeCert(groups, f)
    {
      names := [CaCert];
      var hosts := groups.cluster + groups.reflectors;
      for i := 0 to |hosts|
        invariant forall f :: f in names <==>
          f == CaCert || (f != CaKey && f.role == Node && f.host in hosts[..i])
      {
        if hosts[i] !in hosts[..i] {
          names := names + [CertOf(Node, hosts[i]), KeyOf(Node, hosts[i])];
        }
        assert hosts[..i + 1] == hosts[..i] + [hosts[i]];
      }
      assert hosts[..|hosts|] == hosts;
    }

    /** `tar` over a list of names: what is there is packed. */
    method Pack(source: Store, names: seq<File>) returns (data: Store)
      ensures data == map f | f in source && f in names :: source[f]
    {
      data := map[];
      for i := 0 to |names|
        invariant data == map f | f in source && f in names[..i] :: source[f]
      {
        if names[i] in source {
          data := data[names[i] := source[names[i]]];
        }
        assert names[..i + 1] == names[..i] + [names[i]];
      }
      assert names[..|names|] == names;
    }

    /** Archives for the hosts that sync, taken from the first etcd host: an etcd host is sent
        `my_master_certs` and `all_node_certs`, another host `my_node_certs`. */
    method Gather(play: seq<Host>, ghost before: World)
      requires groups.etcd != [] && FactsFor(play, before)
      requires forall h :: h in play ==> h in groups.All()
      modifies `masterData, `nodeData
      ensures var m := StoreOf(World(stores, next), groups.etcd[0]);
        forall h :: h in play && Receives(groups, master, before, h) ==>
          if h in groups.etcd then h in masterData && masterData[h] == Sent(groups, m, h)
          else h in nodeData && nodeData[h] == Sent(groups, m, h)
    {
      masterData, nodeData := map[], map[];
      var first := groups.etcd[0];
      var source := if first in stores then stores[first] else map[];
      var allNodeCerts := AllNodeCerts();
      for i := 0 to |play|
        invariant forall h :: h in play[..i] && Receives(groups, master, before, h) ==>
          if h in groups.etcd then h in masterData && masterData[h] == Sent(groups, source, h)
          else h in nodeData && nodeData[h] == Sent(groups, source, h)
      {
        var h := play[i];
        assert h in play && h in groups.All();
        assert Receives(groups, master, before, h) <==> h != first && syncCerts[h];
        GatherOne(h, source, allNodeCerts);
        assert play[..i + 1] == play[..i] + [h];
      }
      assert play[..|play|] == play;
    }

    /** The two gathering tasks for one host. */
    method GatherOne(h: Host, source: Store, allNodeCerts: seq<File>)
      requires groups.etcd != [] && h in groups.All() && h in syncCerts
      requires forall f :: f in allNodeCerts <==> IsNodeCert(groups, f)
      modifies `masterData, `nodeData
      ensures masterData == if h in groups.etcd && syncCerts[h] && h != groups.etcd[0]
        then old(masterData)[h := Sent(groups, source, h)] else old(masterData)
      ensures nodeData == if h !in groups.etcd && syncCerts[h]
        then old(nodeData)[h := Sent(groups, source, h)] else old(nodeData)
    {
      if h in groups.etcd && syncCerts[h] && h != groups.etcd[0] {
        MasterNamesWanted(groups, h, allNodeCerts);
        var data := Pack(source, MyMasterCerts(h) + allNodeCerts);
        assert data == Sent(groups, source, h);
        masterData := masterData[h := data];
      }
      if (h in groups.reflectors || h in groups.cluster) && syncCerts[h] && h !in groups.etcd {
        NodeNamesWanted(groups, h);
        var data := Pack(source, MyNodeCerts(h));
        assert data == Sent(groups, source, h);
        nodeData := nodeData[h := data];
      }
    }

    /** Unpacks each host's archive over its directory. */
    method Unpack(play: seq<Host>, ghost before: World)
      requires groups.etcd != [] && FactsFor(play, before)
      requires var m := StoreOf(World(stores, next), groups.etcd[0]);
        forall h :: h in play && Receives(groups, master, before, h) ==>
          if h in groups.etcd then h in masterData && masterData[h] == Sent(groups, m, h)
          else h in nodeData && nodeData[h] == Sent(groups, m, h)
      modifies `stores
      ensures World(stores, next) == Copied(groups, play, master, before, World(old(stores), next))
    {
      ghost var w := World(stores, next);
      ghost var part := w;
      CopiedNone(groups, master, before, w);
      for i := 0 to |play|
        invariant World(stores, next) == part
        invariant part == Copied(groups, play[..i], master, before, w)
      {
        var h := play[i];
        assert h in play;
        CopiedStep(groups, play[..i], master, before, w, h);
        assert play[..i + 1] == play[..i] + [h];
        part := Copied(groups, play[..i + 1], master, before, w);
        if syncCerts[h] && h != groups.etcd[0] {
          UnpackOne(h, if h in groups.etcd then masterData[h] else nodeData[h]);
        }
      }
      assert play[..|play|] == play;
    }

    method UnpackOne(h: Host, data: Store)
      modifies `stores
      ensures stores == old(stores)[h := StoreOf(World(old(stores), next), h) + data]
    {
      var own := if h in stores then stores[h] else map[];
      stores := stores[h := own + data];
    }

    /** One run of the role's certificate tasks over a play. */
    method RunRole(play: seq<Host>) returns (ok: bool)
      requires groups.etcd != [] && play != [] && forall h :: h in play ==> h in groups.All()
      modifies this
      ensures match RoleRun(groups, play, World(old(stores), old(next)))
              case None => !ok && stores == old(stores) && next == old(next)
              case Some(w) => ok && World(stores, next) == w
    {
      ghost var before := World(stores, next);
      CheckCerts(play);
      ok := Generate(play);
      if ok {
        Gather(play, before);
        Unpack(play, before);
      }
    }
  }

  lemma CopiedNone(g: Groups, found: Store, before: World, w: World)
    requires g.etcd != []
    ensures Copied(g, [], found, before, w) == w
  {
    assert Copied(g, [], found, before, w).stores == w.stores;
  }

  lemma ArrivalsStep(g: Groups, play: seq<Host>, found: Store, before: World, w: World, h: Host)
    requires g.etcd != []
    ensures Arrivals(g, play + [h], found, before, w) ==
      if Receives(g, found, before, h)
      then Arrivals(g, play, found, before, w)[h := StoreOf(w, h) + Sent(g, StoreOf(w, g.etcd[0]), h)]
      else Arrivals(g, play, found, before, w)
  {
    assert forall x :: x in play + [h] <==> x in play || x == h;
  }

  lemma CopiedOwn(g: Groups, play: seq<Host>, found: Store, before: World, w: World, h: Host, data: Store)
    requires g.etcd != [] && data == Sent(g, StoreOf(w, g.etcd[0]), h)
    ensures StoreOf(Copied(g, play, found, before, w), h) + data == StoreOf(w, h) + data
  {
    AddedTwice(StoreOf(w, h), data);
  }

  lemma OverwriteOne(stores: map<Host, Store>, arrived: map<Host, Store>, h: Host, own: Store)
    ensures stores + arrived[h := own] == (stores + arrived)[h := own]
  {
  }

  lemma AddedTwice(own: Store, data: Store)
    ensures own + data + data == own + data
  {
  }

  lemma CopiedStep(g: Groups, play: seq<Host>, found: Store, before: World, w: World, h: Host)
    requires g.etcd != []
    ensures var c := Copied(g, play, found, before, w);
      Copied(g, play + [h], found, before, w) ==
        if Receives(g, found, before, h)
        then World(c.stores[h := StoreOf(c, h) + Sent(g, StoreOf(w, g.etcd[0]), h)], c.next) else c
  {
    var data := Sent(g, StoreOf(w, g.etcd[0]), h);
    ArrivalsStep(g, play, found, before, w, h);
    CopiedOwn(g, play, found, before, w, h, data);
    OverwriteOne(w.stores, Arrivals(g, play, found, before, w), h, StoreOf(w, h) + data);
  }
}
