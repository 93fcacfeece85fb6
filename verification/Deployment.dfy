/** From the inventory builder to the hosts: what the etcd role does over the groups that a
    history of builder runs has left. */
module Deployment {
  import opened Dicts
  import opened InventorySpec
  import opened RoleHistory
  import opened RoleLayout
  import opened RoleSeparation
  import EtcdCerts
  import opened EtcdConvergence

  type Groups = EtcdCerts.Groups
  type World = EtcdCerts.World

  /** The hosts of a group that lists its children. */
  function HostsOfChildren(cfg: Config, children: seq<string>): seq<string> {
    if children == [] then [] else Members(cfg, children[0]) + HostsOfChildren(cfg, children[1..])
  }

  /** The groups that Ansible reads from the inventory. */
  function GroupsIn(cfg: Config): Groups {
    EtcdCerts.Groups(Members(cfg, ETCD), HostsOfChildren(cfg, Members(cfg, CLUSTER)), Members(cfg, REFLECTOR))
  }

  lemma ClusterHosts(cfg: Config)
    requires Members(cfg, CLUSTER) == [NODE, MASTER]
    ensures GroupsIn(cfg).cluster == Members(cfg, NODE) + Members(cfg, MASTER)
  {
    assert [NODE, MASTER][1..] == [MASTER] && [MASTER][1..] == [];
    assert HostsOfChildren(cfg, [MASTER]) == Members(cfg, MASTER);
  }

  const Bare: World := EtcdCerts.World(map[], 0)

  function NodeKey(h: string): EtcdCerts.File {
    EtcdCerts.KeyOf(EtcdCerts.Node, h)
  }

  lemma ServersAmong(hosts: seq<string>, n: nat, h: string)
    requires h in Take(hosts, n)
    ensures h in hosts
  {
  }

  lemma InvCovers(cfg: Config)
    requires Inv(cfg) && Members(cfg, ALL) != []
    ensures var g := GroupsIn(cfg);
      && g.etcd != [] && g.etcd[0] == Members(cfg, ALL)[0]
      && g.cluster + g.reflectors != []
      && EtcdCovered(g)
  {
    var g, hosts := GroupsIn(cfg), Members(cfg, ALL);
    ClusterHosts(cfg);
    assert g.etcd[0] == hosts[0];
    forall h | h in g.etcd ensures h in g.Clients() {
      ServersAmong(hosts, 3, h);
      assert h in hosts;
    }
    assert hosts[0] in hosts && hosts[0] in g.Clients();
    assert g.cluster + g.reflectors != [] by {
      assert hosts[0] in g.cluster || hosts[0] in g.reflectors;
    }
  }

  lemma InvHosts(cfg: Config, h: string)
    requires Inv(cfg) && Members(cfg, ALL) != []
    ensures h in GroupsIn(cfg).All() <==> h in Members(cfg, ALL)
  {
    var hosts := Members(cfg, ALL);
    ClusterHosts(cfg);
    if h in Members(cfg, REFLECTOR) || h in Members(cfg, ETCD) {
      ServersAmong(hosts, 3, h);
    } else if h in Members(cfg, MASTER) {
      ServersAmong(hosts, 5, h);
    }
  }

  /** Any inventory that a history of builder runs leaves can be deployed on bare hosts: the
      cluster playbook gives every host of `all` its certificates under one authority, and
      repeating it generates and copies nothing. */
  lemma HistoriesDeploy(runs: seq<Run>)
    requires UpdateRuns(runs) && Members(History(runs), ALL) != []
    ensures var g := GroupsIn(History(runs));
      && g.etcd != [] && g.cluster + g.reflectors != [] && EtcdCovered(g)
      && (forall h :: h in g.All() <==> h in Members(History(runs), ALL))
      && Sound(g.etcd, Playbook(g, Bare))
      && (forall h :: h in Members(History(runs), ALL) ==> Converged(g.etcd, Playbook(g, Bare), h))
      && Playbook(g, Playbook(g, Bare)) == Playbook(g, Bare)
  {
    var cfg := History(runs);
    EmptyInv();
    RunsKeepInv(Empty(), runs);
    InvCovers(cfg);
    forall h ensures h in GroupsIn(cfg).All() <==> h in Members(cfg, ALL) {
      InvHosts(cfg, h);
    }
    EmptyIsSound(GroupsIn(cfg).etcd, 0);
    ClusterPlaybook(GroupsIn(cfg), Bare);
  }

  /***** Growth *****/

  /** Runs that only add hosts, with any thresholds and prefixes. */
  ghost predicate AddRuns(runs: seq<Run>) {
    UpdateRuns(runs) && forall i :: 0 <= i < |runs| ==> AddOnly(runs[i].args)
  }

  lemma {:induction false} AddRunsExtend(cfg: Config, runs: seq<Run>)
    requires Inv(cfg) && AddRuns(runs)
    ensures Inv(After(cfg, runs))
    ensures Members(cfg, ALL) <= Members(After(cfg, runs), ALL)
  {
    RunsKeepInv(cfg, runs);
    if runs == [] {
    } else {
      var init, last := runs[..|runs| - 1], runs[|runs| - 1];
      AddRunsExtend(cfg, init);
      SavedExtends(After(cfg, init), last);
      PrefixTransitive(Members(cfg, ALL), Members(After(cfg, init), ALL), Members(After(cfg, runs), ALL));
    }
  }

  lemma PrefixTransitive(a: seq<string>, b: seq<string>, c: seq<string>)
    requires a <= b <= c
    ensures a <= c
  {
  }

  lemma SameFront(a: seq<string>, b: seq<string>, n: nat)
    requires a <= b && n <= |a|
    ensures Take(a, n) == Take(b, n)
  {
  }

  /** Hosts added to a deployed inventory of three hosts or more: the etcd group stays, and the
      next playbook run gives the new hosts their certificates under the old authority and
      changes no file of any host. */
  lemma GrowthDeploys(runs: seq<Run>, more: seq<Run>)
    requires UpdateRuns(runs) && AddRuns(more) && |Members(History(runs), ALL)| >= 3
    ensures var cfg, cfg' := History(runs), After(History(runs), more);
      var g, g' := GroupsIn(cfg), GroupsIn(cfg');
      && g.etcd != [] && g'.etcd == g.etcd
      && g.cluster + g.reflectors != [] && g'.cluster + g'.reflectors != []
      && Members(cfg, ALL) <= Members(cfg', ALL)
      && (forall h :: Included(EtcdCerts.StoreOf(Playbook(g, Bare), h),
                               EtcdCerts.StoreOf(Playbook(g', Playbook(g, Bare)), h)))
      && forall h :: h in Members(cfg', ALL) ==> Converged(g'.etcd, Playbook(g', Playbook(g, Bare)), h)
  {
    var cfg, cfg' := History(runs), After(History(runs), more);
    HistoriesDeploy(runs);
    EmptyInv();
    RunsKeepInv(Empty(), runs);
    AddRunsExtend(cfg, more);
    SameFront(Members(cfg, ALL), Members(cfg', ALL), 3);
    InvCovers(cfg');
    forall h ensures h in GroupsIn(cfg').All() <==> h in Members(cfg', ALL) {
      InvHosts(cfg', h);
    }
    ClusterPlaybook(GroupsIn(cfg'), Playbook(GroupsIn(cfg), Bare));
  }

  /***** The scaling playbook *****/

  /** The first worker, who leads the play of the scaling playbook. */
  ghost predicate WorkerLeads(cfg: Config, x: string) {
    Members(cfg, NODE) != [] && Members(cfg, NODE)[0] == x
  }

  lemma LeaderStays(cfg: Config, env: Env, c: Config, x: string)
    requires Inv(cfg) && Stepped(cfg, env, c) && Members(cfg, ALL) <= Members(c, ALL)
    requires WorkerLeads(cfg, x)
    ensures WorkerLeads(c, x)
  {
    RoleNames();
    var workers, live := Members(cfg, NODE), Live(At(c, ALL));
    assert x in workers;
    assert x in Members(cfg, ALL);
    assert x in live;
    KeptFirst(workers, live);
    KeepDistinct(workers, live);
    ExtendDistinct(Keep(workers, live),
                   Assigned(env, Members(c, ALL), Members(c, ETCD), Members(c, MASTER), NODE));
  }

  lemma KeptFirst(s: seq<string>, ks: set<string>)
    requires s != [] && s[0] in ks
    ensures Keep(s, ks) != [] && Keep(s, ks)[0] == s[0]
  {
    KeepPrefix(s, 1, ks);
    KeepNext(s, ks, 0);
    assert Keep(s[..0], ks) == [];
  }

  lemma SavedLeader(cfg: Config, run: Run, x: string)
    requires Inv(cfg) && UpdateRun(run) && AddOnly(run.args) && WorkerLeads(cfg, x)
    ensures WorkerLeads(Saved(cfg, run), x)
  {
    SavedExtends(cfg, run);
    if Saved(cfg, run) != cfg {
      UpdateSteps(cfg, run.env, run.args, Saved(cfg, run));
      LeaderStays(cfg, run.env, Saved(cfg, run), x);
    }
  }

  lemma {:induction false} LeaderAfter(cfg: Config, runs: seq<Run>, x: string)
    requires Inv(cfg) && AddRuns(runs) && WorkerLeads(cfg, x)
    ensures WorkerLeads(After(cfg, runs), x)
  {
    if runs == [] {
    } else {
      var init, last := runs[..|runs| - 1], runs[|runs| - 1];
      LeaderAfter(cfg, init, x);
      RunsKeepInv(cfg, init);
      SavedLeader(After(cfg, init), last, x);
    }
  }

  lemma BuiltLeader(run: Run, built: Config)
    requires FirstBuild(run, built) && |Members(built, ALL)| < run.env.Scale()
    ensures WorkerLeads(built, Members(built, ALL)[0])
  {
    GrowingStart(run, built);
    OnlyAssignedWorkers(built, run.env);
    FreshWorkers(run.env, Members(built, ALL));
  }

  lemma GrewLeader(first: Run, runs: seq<Run>, built: Config, cfg: Config)
    requires Grew(first, runs, built, cfg) && |Members(built, ALL)| < first.env.Scale()
    ensures WorkerLeads(cfg, Members(built, ALL)[0])
  {
    GrowingStart(first, built);
    BuiltLeader(first, built);
    LeaderAfter(built, runs, Members(built, ALL)[0]);
  }

  /** In an inventory that only grew, the first worker is the first etcd host exactly when the
      inventory was built below scale. */
  lemma LeaderOfGrowth(first: Run, runs: seq<Run>, built: Config, cfg: Config)
    requires Grew(first, runs, built, cfg) && Members(cfg, NODE) != []
    ensures Inv(cfg) && Members(cfg, ALL) != [] && Members(cfg, ETCD) != []
    ensures Members(cfg, NODE)[0] == Members(cfg, ETCD)[0] <==> |Members(built, ALL)| < first.env.Scale()
  {
    GrewKeeps(first, runs, built, cfg);
    if |Members(built, ALL)| < first.env.Scale() {
      GrewLeader(first, runs, built, cfg);
    } else {
      assert Members(cfg, ETCD)[0] in Take(Members(cfg, ALL), 3);
      assert Members(cfg, NODE)[0] in Members(cfg, NODE);
    }
  }

  /** The scaling playbook runs the etcd role over the workers. In an inventory that only grew
      it gives all of them their certificates exactly when the inventory was built below scale,
      or when the first etcd host already has all their keys. */
  lemma ScalingPlay(first: Run, runs: seq<Run>, built: Config, cfg: Config, w: World)
    requires Grew(first, runs, built, cfg) && Members(cfg, NODE) != []
    requires Members(cfg, ETCD) != [] && Sound(Members(cfg, ETCD), w)
    ensures var g, play := GroupsIn(cfg), Members(cfg, NODE);
      && EtcdCerts.RoleRun(g, play, w).Some?
      && ((forall h :: h in play ==> Converged(g.etcd, EtcdCerts.RoleRun(g, play, w).value, h)) <==>
            || |Members(built, ALL)| < first.env.Scale()
            || forall h :: h in play ==> NodeKey(h) in EtcdCerts.StoreOf(w, g.etcd[0]))
  {
    LeaderOfGrowth(first, runs, built, cfg);
    InvCovers(cfg);
    WorkersPlay(cfg);
    PlayConverges(GroupsIn(cfg), Members(cfg, NODE), w);
  }

  lemma WorkersPlay(cfg: Config)
    requires Inv(cfg) && Members(cfg, ALL) != [] && Members(cfg, NODE) != []
    ensures PlayOf(GroupsIn(cfg), Members(cfg, NODE))
  {
    forall h | h in Members(cfg, NODE) ensures h in GroupsIn(cfg).All() {
      InvHosts(cfg, h);
    }
  }

  /** One of the workers, served or not. */
  lemma WorkerServed(first: Run, runs: seq<Run>, built: Config, cfg: Config, w: World, h: string)
    requires Grew(first, runs, built, cfg) && h in Members(cfg, NODE)
    requires |Members(built, ALL)| >= first.env.Scale()
    requires Members(cfg, ETCD) != [] && Sound(Members(cfg, ETCD), w)
    ensures var g := GroupsIn(cfg);
      && EtcdCerts.RoleRun(g, Members(cfg, NODE), w).Some?
      && (Converged(g.etcd, EtcdCerts.RoleRun(g, Members(cfg, NODE), w).value, h) <==>
            NodeKey(h) in EtcdCerts.StoreOf(w, g.etcd[0]))
  {
    LeaderOfGrowth(first, runs, built, cfg);
    InvCovers(cfg);
    WorkersPlay(cfg);
    ConvergedAfterRun(GroupsIn(cfg), Members(cfg, NODE), w, h);
  }

  lemma BuiltPlaybook(built: Config, h: string)
    requires Inv(built) && Members(built, ALL) != [] && h !in Members(built, ALL)
    ensures var g := GroupsIn(built);
      && g.etcd != [] && g.cluster + g.reflectors != []
      && Sound(g.etcd, Playbook(g, Bare))
      && NodeKey(h) !in EtcdCerts.StoreOf(Playbook(g, Bare), g.etcd[0])
  {
    var g := GroupsIn(built);
    InvCovers(built);
    InvHosts(built, h);
    EmptyIsSound(g.etcd, 0);
    PlaybookSafe(g, Bare);
    PlaybookKeys(g, Bare, h);
  }

  lemma SameEtcd(first: Run, runs: seq<Run>, built: Config, cfg: Config)
    requires Grew(first, runs, built, cfg) && |Members(built, ALL)| >= 3
    ensures Inv(built) && Inv(cfg)
    ensures Members(built, ALL) <= Members(cfg, ALL)
    ensures Members(cfg, ETCD) == Members(built, ETCD) != []
  {
    GrowingStart(first, built);
    AddRunsExtend(built, runs);
    SameFront(Members(built, ALL), Members(cfg, ALL), 3);
  }

  /** From scale on, a worker that was added after the cluster playbook ran is left without
      certificates by the scaling playbook. */
  lemma NewWorkerUnserved(first: Run, runs: seq<Run>, built: Config, cfg: Config, h: string)
    requires Grew(first, runs, built, cfg)
    requires |Members(built, ALL)| >= 3 && |Members(built, ALL)| >= first.env.Scale()
    requires h in Members(cfg, NODE) && h !in Members(built, ALL)
    ensures var g, g' := GroupsIn(built), GroupsIn(cfg);
      && g.etcd != [] && g.cluster + g.reflectors != [] && g'.etcd == g.etcd
      && EtcdCerts.RoleRun(g', Members(cfg, NODE), Playbook(g, Bare)).Some?
      && !Converged(g.etcd, EtcdCerts.RoleRun(g', Members(cfg, NODE), Playbook(g, Bare)).value, h)
  {
    SameEtcd(first, runs, built, cfg);
    BuiltPlaybook(built, h);
    WorkerServed(first, runs, built, cfg, Playbook(GroupsIn(built), Bare), h);
  }

  /** Two such runs: some addresses at scale, then one more. */
  lemma OneMoreWorker(env: Env, tokens: seq<string>, a: string) returns (built: Config, cfg: Config, h: string)
    requires WordPrefix(env.prefix) && Addressed(tokens) && IsAddress(a) && a !in tokens
    requires |tokens| >= 5 && |tokens| >= env.Scale()
    ensures Grew(Run(env, tokens, []), [Run(env, [a], [])], built, cfg)
    ensures |Members(built, ALL)| == |tokens| && h in Members(cfg, NODE) && h !in Members(built, ALL)
  {
    built := BuildsFirst(env, tokens);
    cfg := GrowsByOne(env, tokens, a, built);
    h := LastWorker(Run(env, tokens, []), Run(env, [a], []), built, cfg);
  }

  lemma LastWorker(first: Run, run: Run, built: Config, cfg: Config) returns (h: string)
    requires Grew(first, [run], built, cfg) && 5 <= |Members(built, ALL)| < |Members(cfg, ALL)|
    ensures h in Members(cfg, NODE) && h !in Members(built, ALL)
  {
    SameEtcd(first, [run], built, cfg);
    GrewOnce(first, run, built, cfg);
    h := Members(cfg, ALL)[|Members(built, ALL)|];
    LastIsNew(built, cfg);
    NewIsWorker(built, cfg, run, h);
  }

  lemma GrewOnce(first: Run, run: Run, built: Config, cfg: Config)
    requires Grew(first, [run], built, cfg)
    ensures UpdateRun(run) && cfg == Saved(built, run)
  {
    assert [run][0] == run;
    SavedOnce(built, run);
  }

  lemma LastIsNew(built: Config, cfg: Config)
    requires ValidConfig(cfg) && Members(built, ALL) <= Members(cfg, ALL)
    requires 5 <= |Members(built, ALL)| < |Members(cfg, ALL)|
    ensures var h := Members(cfg, ALL)[|Members(built, ALL)|];
      && h !in Members(built, ALL) && h in Members(cfg, ALL)
      && h !in Take(Members(cfg, ALL), 3) && h !in Take(Members(cfg, ALL), 5)
  {
    var n := |Members(built, ALL)|;
    DistinctHere(Members(cfg, ALL), n);
    assert Members(cfg, ALL)[..n] == Members(built, ALL);
    assert Take(Members(cfg, ALL), 5) <= Members(built, ALL) && Take(Members(cfg, ALL), 3) <= Members(built, ALL);
  }

  lemma NewIsWorker(built: Config, cfg: Config, run: Run, h: string)
    requires Inv(built) && UpdateRun(run) && cfg == Saved(built, run) != built
    requires h in Members(cfg, ALL) && h !in Take(Members(cfg, ALL), 3) && h !in Take(Members(cfg, ALL), 5)
    ensures h in Members(cfg, NODE)
  {
    UpdateSteps(built, run.env, run.args, cfg);
    InvStep(built, run.env, cfg);
    PlacementAfterRun(built, run.env, cfg, h);
  }
}
