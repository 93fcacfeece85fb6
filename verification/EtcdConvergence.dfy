/** What every sequence of role runs keeps, and when the hosts end up with their certificates. */
module EtcdConvergence {
  import opened Text
  import opened EtcdCerts

  /***** What every run keeps *****/

  /** A certificate directory made by one authority: every leaf has its key and a certificate
      for that key, with its subject, signed by the authority of the directory. */
  ghost predicate Authentic(m: Store, next: nat) {
    && (CaKey in m <==> CaCert in m)
    && (CaKey in m ==> m[CaKey].Key? && m[CaKey].id < next && m[CaCert] == Cert(Authority, m[CaKey].id, m[CaKey].id))
    && (forall r, h :: KeyOf(r, h) in m <==> CertOf(r, h) in m)
    && (forall r, h :: KeyOf(r, h) in m ==> Genuine(m, next, r, h))
  }

  ghost predicate Genuine(m: Store, next: nat, r: Role, h: Host) {
    && KeyOf(r, h) in m && CertOf(r, h) in m && CaKey in m
    && m[KeyOf(r, h)].Key? && m[KeyOf(r, h)].id < next && m[CaKey].Key?
    && m[CertOf(r, h)] == Cert(Leaf(r, CommonName(h)), m[KeyOf(r, h)].id, m[CaKey].id)
  }

  /** No two private keys of a directory are the same. */
  ghost predicate DistinctKeys(m: Store) {
    && (forall r, h, r', h' :: KeyOf(r, h) in m && KeyOf(r', h') in m && m[KeyOf(r, h)] == m[KeyOf(r', h')] ==>
         r == r' && h == h')
    && (forall r, h :: KeyOf(r, h) in m && CaKey in m ==> m[KeyOf(r, h)] != m[CaKey])
  }

  /** Members have their member and admin keys as soon as they have a node key, nobody else. */
  ghost predicate MembersServed(etcd: seq<Host>, m: Store) {
    forall h :: (KeyOf(Member, h) in m <==> h in etcd && KeyOf(Node, h) in m)
             && (KeyOf(Admin, h) in m <==> h in etcd && KeyOf(Node, h) in m)
  }

  ghost predicate Included(a: Store, b: Store) {
    forall f :: f in a ==> f in b && b[f] == a[f]
  }

  /** A host that has its node key has everything it is sent. */
  ghost predicate Complete(etcd: seq<Host>, own: Store, h: Host) {
    && CaCert in own && KeyOf(Node, h) in own && CertOf(Node, h) in own
    && (h in etcd ==>
         && CaKey in own
         && KeyOf(Member, h) in own && CertOf(Member, h) in own
         && KeyOf(Admin, h) in own && CertOf(Admin, h) in own)
  }

  ghost predicate Sound(etcd: seq<Host>, w: World)
    requires etcd != []
  {
    var m := StoreOf(w, etcd[0]);
    && Authentic(m, w.next) && DistinctKeys(m) && MembersServed(etcd, m)
    && (forall h :: Included(StoreOf(w, h), m))
    && (forall h :: KeyOf(Node, h) in StoreOf(w, h) ==> Complete(etcd, StoreOf(w, h), h))
  }

  /***** Generation *****/

  ghost predicate BenchOf(b: Bench, ca: nat, low: nat) {
    && low <= b.next
    && CaKey in b.files && b.files[CaKey] == Key(ca)
    && Authentic(b.files, b.next) && DistinctKeys(b.files)
    && forall r, h :: KeyOf(r, h) in b.files ==> low <= b.files[KeyOf(r, h)].id
  }

  lemma IssueKeeps(b: Bench, ca: nat, low: nat, r: Role, h: Host)
    requires BenchOf(b, ca, low)
    ensures BenchOf(Issue(b, ca, r, h), ca, low)
    ensures b.next < Issue(b, ca, r, h).next
    ensures Included(map[CaKey := b.files[CaKey], CaCert := b.files[CaCert]], Issue(b, ca, r, h).files)
    ensures forall r', h' :: KeyOf(r', h') in Issue(b, ca, r, h).files <==>
      KeyOf(r', h') in b.files || (r' == r && h' == h)
  {
    var b' := Issue(b, ca, r, h);
    forall r', h' | KeyOf(r', h') in b'.files ensures Genuine(b'.files, b'.next, r', h') {
      if KeyOf(r', h') != KeyOf(r, h) {
        assert Genuine(b.files, b.next, r', h');
      }
    }
  }

  lemma {:induction false} MembersIssued(b: Bench, ca: nat, low: nat, masters: seq<Host>)
    requires BenchOf(b, ca, low)
    ensures BenchOf(IssueMembers(b, ca, masters), ca, low)
    ensures forall r, h :: KeyOf(r, h) in IssueMembers(b, ca, masters).files <==>
      KeyOf(r, h) in b.files || (r != Node && h in masters)
  {
    if masters == [] {
    } else {
      var init, h := masters[..|masters| - 1], masters[|masters| - 1];
      assert masters == init + [h];
      MembersIssued(b, ca, low, init);
      var b1 := IssueMembers(b, ca, init);
      IssueKeeps(b1, ca, low, Member, h);
      IssueKeeps(Issue(b1, ca, Member, h), ca, low, Admin, h);
    }
  }

  lemma {:induction false} NodesIssued(b: Bench, ca: nat, low: nat, hosts: seq<Host>)
    requires BenchOf(b, ca, low)
    ensures BenchOf(IssueNodes(b, ca, hosts), ca, low)
    ensures forall r, h :: KeyOf(r, h) in IssueNodes(b, ca, hosts).files <==>
      KeyOf(r, h) in b.files || (r == Node && h in hosts)
  {
    if hosts == [] {
    } else {
      var init, h := hosts[..|hosts| - 1], hosts[|hosts| - 1];
      assert hosts == init + [h];
      NodesIssued(b, ca, low, init);
      IssueKeeps(IssueNodes(b, ca, init), ca, low, Node, h);
    }
  }

  lemma {:induction false} LackingIs(found: Store, hs: seq<Host>)
    ensures forall h :: h in Lacking(found, hs) <==> h in hs && Missing(found, h)
  {
    if hs == [] {
    } else {
      LackingIs(found, hs[..|hs| - 1]);
      assert hs == hs[..|hs| - 1] + [hs[|hs| - 1]];
    }
  }

  /** An authentic directory and a bench under its authority, without a leaf in common. */
  lemma JoinDirectories(m: Store, next: nat, b: Bench, ca: nat)
    requires Authentic(m, next) && DistinctKeys(m) && BenchOf(b, ca, next) && ca < b.next
    requires CaKey in m ==> m[CaKey] == Key(ca)
    requires CaKey !in m ==> next <= ca && forall r, h :: KeyOf(r, h) in b.files ==> b.files[KeyOf(r, h)].id != ca
    requires forall r, h :: KeyOf(r, h) in m ==> KeyOf(r, h) !in b.files
    ensures Authentic(m + b.files, b.next) && DistinctKeys(m + b.files)
    ensures Included(m, m + b.files)
    ensures forall r, h :: KeyOf(r, h) in m + b.files <==> KeyOf(r, h) in m || KeyOf(r, h) in b.files
  {
    var all := m + b.files;
    forall r, h | KeyOf(r, h) in all ensures Genuine(all, b.next, r, h) {
      if KeyOf(r, h) in b.files {
        assert Genuine(b.files, b.next, r, h);
      } else {
        assert Genuine(m, next, r, h);
        assert CertOf(r, h) !in b.files;
      }
    }
    forall f | f in m ensures f in all && all[f] == m[f] {
      match f {
        case CaKey =>
        case CaCert =>
        case KeyOf(r, h) =>
        case CertOf(r, h) => assert KeyOf(r, h) in m;
      }
    }
  }

  lemma BenchStarts(m: Store, next: nat)
    requires Authentic(m, next)
    ensures Authorized(m, next).Some?
    ensures var (b, ca) := Authorized(m, next).value;
      && BenchOf(b, ca, next) && ca < b.next
      && (CaKey in m ==> m[CaKey] == Key(ca))
      && (CaKey !in m ==> ca == next && b.next == next + 1)
      && forall r, h :: KeyOf(r, h) !in b.files
  {
  }

  /** The script never fails on an authentic directory, changes no file of it, and adds
      exactly the leaves it was asked for. */
  lemma ScriptExtends(m: Store, next: nat, masters: seq<Host>, hosts: seq<Host>)
    requires Authentic(m, next) && DistinctKeys(m)
    requires forall h :: h in masters ==> KeyOf(Member, h) !in m && KeyOf(Admin, h) !in m
    requires forall h :: h in hosts ==> KeyOf(Node, h) !in m
    ensures Script(m, next, masters, hosts).Some?
    ensures var (m', next') := Script(m, next, masters, hosts).value;
      && next <= next'
      && Authentic(m', next') && DistinctKeys(m') && Included(m, m') && CaKey in m'
      && forall r, h :: KeyOf(r, h) in m' <==>
           KeyOf(r, h) in m || (r != Node && h in masters) || (r == Node && h in hosts)
  {
    BenchStarts(m, next);
    var (b, ca) := Authorized(m, next).value;
    var low := if CaKey in m then next else next + 1;
    MembersIssued(b, ca, low, masters);
    var b1 := IssueMembers(b, ca, masters);
    NodesIssued(b1, ca, low, hosts);
    JoinDirectories(m, next, IssueNodes(b1, ca, hosts), ca);
  }

  /** Every etcd host is in the cluster or is a route reflector. */
  ghost predicate EtcdCovered(g: Groups) {
    forall h :: h in g.etcd ==> h in g.Clients()
  }

  /** Asking for everything that is missing completes the members and the clients. */
  lemma MissingIssued(g: Groups, m: Store, next: nat)
    requires g.etcd != [] && EtcdCovered(g)
    requires Authentic(m, next) && DistinctKeys(m) && MembersServed(g.etcd, m)
    ensures var r := Script(m, next, Lacking(m, g.etcd), Lacking(m, g.cluster + g.reflectors));
      && r.Some? && next <= r.value.1
      && Authentic(r.value.0, r.value.1) && DistinctKeys(r.value.0) && Included(m, r.value.0)
      && CaKey in r.value.0
      && forall q, h :: KeyOf(q, h) in r.value.0 <==>
           KeyOf(q, h) in m || (Missing(m, h) && if q == Node then h in g.Clients() else h in g.etcd)
  {
    LackingIs(m, g.etcd);
    LackingIs(m, g.cluster + g.reflectors);
    ScriptExtends(m, next, Lacking(m, g.etcd), Lacking(m, g.cluster + g.reflectors));
  }

  lemma MembersStayServed(g: Groups, m: Store, m': Store)
    requires EtcdCovered(g) && MembersServed(g.etcd, m)
    requires forall q, h :: KeyOf(q, h) in m' <==>
      KeyOf(q, h) in m || (Missing(m, h) && if q == Node then h in g.Clients() else h in g.etcd)
    ensures MembersServed(g.etcd, m')
    ensures forall h :: h in g.All() ==> KeyOf(Node, h) in m'
  {
    forall h ensures KeyOf(Member, h) in m' <==> h in g.etcd && KeyOf(Node, h) in m'
      ensures KeyOf(Admin, h) in m' <==> h in g.etcd && KeyOf(Node, h) in m'
    {
      assert KeyOf(Member, h) in m <==> h in g.etcd && KeyOf(Node, h) in m;
    }
  }

  /** What generation leaves: the stores of the others, and on the first etcd host `m'`. */
  ghost predicate Extended(g: Groups, w: World, w': World)
    requires g.etcd != []
  {
    var m, m' := StoreOf(w, g.etcd[0]), StoreOf(w', g.etcd[0]);
    && (forall h :: h != g.etcd[0] ==> StoreOf(w', h) == StoreOf(w, h))
    && Authentic(m', w'.next) && DistinctKeys(m') && MembersServed(g.etcd, m') && Included(m, m')
  }

  lemma GenerationIssues(g: Groups, play: seq<Host>, w: World)
    requires play != [] && g.etcd != [] && EtcdCovered(g) && Sound(g.etcd, w) && Generates(g, play, w)
    ensures Generated(g, play, w).Some?
    ensures Extended(g, w, Generated(g, play, w).value)
    ensures CaKey in StoreOf(Generated(g, play, w).value, g.etcd[0])
    ensures forall h :: h in g.All() ==> KeyOf(Node, h) in StoreOf(Generated(g, play, w).value, g.etcd[0])
  {
    var m := StoreOf(w, g.etcd[0]);
    MissingIssued(g, m, w.next);
    var (files, next) := Script(m, w.next, Lacking(m, g.etcd), Lacking(m, g.cluster + g.reflectors)).value;
    MembersStayServed(g, m, files);
    OneStore(g, w, files, next);
  }

  lemma OneStore(g: Groups, w: World, files: Store, next: nat)
    requires g.etcd != []
    requires Authentic(files, next) && DistinctKeys(files) && MembersServed(g.etcd, files)
    requires Included(StoreOf(w, g.etcd[0]), files)
    ensures Extended(g, w, World(w.stores[g.etcd[0] := files], next))
  {
  }

  /** Generation on the first etcd host: its files stay, and every host of the inventory that
      lacked a node key gets one, if the script runs at all. */
  lemma GenerationExtends(g: Groups, play: seq<Host>, w: World)
    requires play != [] && g.etcd != [] && EtcdCovered(g) && Sound(g.etcd, w)
    ensures Generated(g, play, w).Some?
    ensures var w' := Generated(g, play, w).value;
      && Extended(g, w, w')
      && (Generates(g, play, w) ==>
           CaKey in StoreOf(w', g.etcd[0]) && forall h :: h in g.All() ==> KeyOf(Node, h) in StoreOf(w', g.etcd[0]))
      && (!Generates(g, play, w) ==> w' == w)
  {
    if Generates(g, play, w) {
      GenerationIssues(g, play, w);
    }
  }

  /***** Copies *****/

  lemma CopiedAt(g: Groups, play: seq<Host>, found: Store, before: World, w: World, h: Host)
    requires g.etcd != []
    ensures Copied(g, play, found, before, w).next == w.next
    ensures StoreOf(Copied(g, play, found, before, w), h) ==
      if h in play && Receives(g, found, before, h)
      then StoreOf(w, h) + Sent(g, StoreOf(w, g.etcd[0]), h) else StoreOf(w, h)
  {
  }

  lemma SentComplete(g: Groups, m: Store, next: nat, own: Store, h: Host)
    requires Authentic(m, next) && MembersServed(g.etcd, m) && EtcdCovered(g)
    requires h in g.All() && KeyOf(Node, h) in m
    ensures Complete(g.etcd, own + Sent(g, m, h), h)
  {
    assert Genuine(m, next, Node, h);
    assert h in g.Clients();
    if h in g.etcd {
      assert Genuine(m, next, Member, h) && Genuine(m, next, Admin, h);
    }
  }

  lemma SentIncluded(g: Groups, m: Store, own: Store, h: Host)
    requires Included(own, m)
    ensures Included(own + Sent(g, m, h), m)
    ensures Included(own, own + Sent(g, m, h))
  {
  }

  /***** One run *****/

  /** The hosts of a play belong to the inventory. */
  ghost predicate PlayOf(g: Groups, play: seq<Host>) {
    play != [] && forall h :: h in play ==> h in g.All()
  }

  /** A host's store after the copies, told from what it and the first etcd host held before
      (`own`, `found`) and what that host holds now. */
  function AfterCopy(g: Groups, found: Store, master: Store, own: Store, play: seq<Host>, h: Host): Store {
    if h in play && NeedsSync(found, own, h) then own + Sent(g, master, h) else own
  }

  lemma GeneratedElsewhere(g: Groups, play: seq<Host>, w: World, h: Host)
    requires g.etcd != [] && play != [] && Generated(g, play, w).Some? && h != g.etcd[0]
    ensures StoreOf(Generated(g, play, w).value, h) == StoreOf(w, h)
  {
  }

  lemma RunAt(g: Groups, play: seq<Host>, w: World, h: Host)
    requires g.etcd != [] && play != [] && Generated(g, play, w).Some?
    ensures RoleRun(g, play, w).Some?
    ensures var w', made := RoleRun(g, play, w).value, Generated(g, play, w).value;
      && w'.next == made.next
      && StoreOf(w', g.etcd[0]) == StoreOf(made, g.etcd[0])
      && (h != g.etcd[0] ==>
           var m, m' := StoreOf(w, g.etcd[0]), StoreOf(made, g.etcd[0]);
           StoreOf(w', h) == AfterCopy(g, m, m', StoreOf(w, h), play, h))
  {
    var made := Generated(g, play, w).value;
    CopiedAt(g, play, StoreOf(w, g.etcd[0]), w, made, h);
    CopiedAt(g, play, StoreOf(w, g.etcd[0]), w, made, g.etcd[0]);
    if h != g.etcd[0] {
      GeneratedElsewhere(g, play, w, h);
    }
  }

  /** Each host after a run: nothing it had is lost or changed, and it still agrees with the
      first etcd host. */
  lemma HostAfterRun(g: Groups, play: seq<Host>, w: World, h: Host)
    requires g.etcd != [] && PlayOf(g, play) && EtcdCovered(g) && Sound(g.etcd, w)
    ensures RoleRun(g, play, w).Some?
    ensures var w' := RoleRun(g, play, w).value;
      && Included(StoreOf(w, h), StoreOf(w', h))
      && Included(StoreOf(w', h), StoreOf(w', g.etcd[0]))
      && (KeyOf(Node, h) in StoreOf(w', h) ==> Complete(g.etcd, StoreOf(w', h), h))
  {
    GenerationExtends(g, play, w);
    RunAt(g, play, w, h);
    var m' := StoreOf(Generated(g, play, w).value, g.etcd[0]);
    var own := StoreOf(w, h);
    assert Included(own, m') by {
      assert Included(own, StoreOf(w, g.etcd[0]));
    }
    SentIncluded(g, m', own, h);
    if h == g.etcd[0] {
      FirstComplete(g, m', Generated(g, play, w).value.next);
    } else if h in play && NeedsSync(StoreOf(w, g.etcd[0]), own, h) {
      if KeyOf(Node, h) in own + Sent(g, m', h) {
        SentComplete(g, m', Generated(g, play, w).value.next, own, h);
      }
    } else {
      assert KeyOf(Node, h) in own ==> Complete(g.etcd, own, h);
    }
  }

  lemma FirstComplete(g: Groups, m: Store, next: nat)
    requires g.etcd != [] && Authentic(m, next) && MembersServed(g.etcd, m)
    ensures KeyOf(Node, g.etcd[0]) in m ==> Complete(g.etcd, m, g.etcd[0])
  {
    var first := g.etcd[0];
    if KeyOf(Node, first) in m {
      assert KeyOf(Member, first) in m && KeyOf(Admin, first) in m;
      assert Genuine(m, next, Node, first) && Genuine(m, next, Member, first) && Genuine(m, next, Admin, first);
    }
  }

  /** A run keeps everything, and no host loses or changes a file; in particular the authority
      and every key and certificate once made stay for ever. */
  lemma RunKeepsSound(g: Groups, play: seq<Host>, w: World)
    requires g.etcd != [] && PlayOf(g, play) && EtcdCovered(g) && Sound(g.etcd, w)
    ensures RoleRun(g, play, w).Some?
    ensures Sound(g.etcd, RoleRun(g, play, w).value)
    ensures forall h :: Included(StoreOf(w, h), StoreOf(RoleRun(g, play, w).value, h))
  {
    GenerationExtends(g, play, w);
    RunAt(g, play, w, g.etcd[0]);
    var w' := RoleRun(g, play, w).value;
    forall h ensures Included(StoreOf(w, h), StoreOf(w', h))
      ensures Included(StoreOf(w', h), StoreOf(w', g.etcd[0]))
      ensures KeyOf(Node, h) in StoreOf(w', h) ==> Complete(g.etcd, StoreOf(w', h), h)
    {
      HostAfterRun(g, play, w, h);
    }
  }

  /***** Convergence *****/

  /** The host holds its node key and certificate and the authority of the first etcd host,
      which signed it; an etcd host holds its member and admin pairs as well. */
  ghost predicate Converged(etcd: seq<Host>, w: World, h: Host)
    requires etcd != []
  {
    && Complete(etcd, StoreOf(w, h), h)
    && Included(StoreOf(w, h), StoreOf(w, etcd[0]))
    && Genuine(StoreOf(w, etcd[0]), w.next, Node, h)
    && (h in etcd ==>
         Genuine(StoreOf(w, etcd[0]), w.next, Member, h) && Genuine(StoreOf(w, etcd[0]), w.next, Admin, h))
  }

  lemma ConvergedIf(etcd: seq<Host>, w: World, h: Host)
    requires etcd != [] && Sound(etcd, w)
    ensures Converged(etcd, w, h) <==> KeyOf(Node, h) in StoreOf(w, h)
  {
    if KeyOf(Node, h) in StoreOf(w, h) {
      var m := StoreOf(w, etcd[0]);
      assert Included(StoreOf(w, h), m);
      assert Genuine(m, w.next, Node, h);
      if h in etcd {
        assert KeyOf(Member, h) in m && KeyOf(Admin, h) in m;
        assert Genuine(m, w.next, Member, h) && Genuine(m, w.next, Admin, h);
      }
    }
  }

  lemma ConvergedAfterRun(g: Groups, play: seq<Host>, w: World, h: Host)
    requires g.etcd != [] && PlayOf(g, play) && EtcdCovered(g) && Sound(g.etcd, w) && h in play
    ensures RoleRun(g, play, w).Some?
    ensures Converged(g.etcd, RoleRun(g, play, w).value, h) <==>
      play[0] == g.etcd[0] || KeyOf(Node, h) in StoreOf(w, g.etcd[0])
  {
    RunKeepsSound(g, play, w);
    GenerationExtends(g, play, w);
    RunAt(g, play, w, h);
    var w' := RoleRun(g, play, w).value;
    ConvergedIf(g.etcd, w', h);
    var m, m' := StoreOf(w, g.etcd[0]), StoreOf(w', g.etcd[0]);
    assert h in g.All();
    if KeyOf(Node, h) in m' && h != g.etcd[0] {
      SentComplete(g, m', w'.next, StoreOf(w, h), h);
    }
    assert Included(StoreOf(w', h), m');
  }

  /** A run over a play gives all its hosts their certificates exactly when the play starts
      with the first etcd host, or that host already has the keys of all of them. */
  lemma PlayConverges(g: Groups, play: seq<Host>, w: World)
    requires g.etcd != [] && PlayOf(g, play) && EtcdCovered(g) && Sound(g.etcd, w)
    ensures RoleRun(g, play, w).Some?
    ensures (forall h :: h in play ==> Converged(g.etcd, RoleRun(g, play, w).value, h)) <==>
      play[0] == g.etcd[0] || forall h :: h in play ==> KeyOf(Node, h) in StoreOf(w, g.etcd[0])
  {
    RunKeepsSound(g, play, w);
    forall h | h in play
      ensures Converged(g.etcd, RoleRun(g, play, w).value, h) <==>
        play[0] == g.etcd[0] || KeyOf(Node, h) in StoreOf(w, g.etcd[0])
    {
      ConvergedAfterRun(g, play, w, h);
    }
  }

  /** Once the first etcd host has a key for every host of the inventory and the hosts of a
      play have converged, a run over it generates nothing and copies nothing. */
  lemma QuietRerun(g: Groups, play: seq<Host>, w: World)
    requires g.etcd != [] && PlayOf(g, play) && EtcdCovered(g) && Sound(g.etcd, w)
    requires forall h :: h in g.All() ==> KeyOf(Node, h) in StoreOf(w, g.etcd[0])
    requires forall h :: h in play ==> Converged(g.etcd, w, h)
    ensures !NeedsGeneration(g, StoreOf(w, g.etcd[0]))
    ensures forall h :: h in play ==> !NeedsSync(StoreOf(w, g.etcd[0]), StoreOf(w, h), h)
    ensures RoleRun(g, play, w) == Some(w)
  {
    var m := StoreOf(w, g.etcd[0]);
    assert play[0] in play;
    assert Genuine(m, w.next, Node, play[0]);
    forall h | h in play ensures !NeedsSync(m, StoreOf(w, h), h) {
      assert Included(StoreOf(w, h), m);
    }
    NothingCopied(g, play, m, w);
  }

  lemma NothingCopied(g: Groups, play: seq<Host>, found: Store, w: World)
    requires g.etcd != []
    requires forall h :: h in play ==> !Receives(g, found, w, h)
    ensures Copied(g, play, found, w, w) == w
  {
    assert Copied(g, play, found, w, w).stores == w.stores;
  }

  /***** Histories *****/

  /** One run of the role: the groups of the inventory at that time, and the hosts of the play. */
  datatype RoleCall = RoleCall(groups: Groups, play: seq<Host>)

  ghost predicate Calls(etcd: seq<Host>, calls: seq<RoleCall>) {
    forall i :: 0 <= i < |calls| ==>
      calls[i].groups.etcd == etcd && PlayOf(calls[i].groups, calls[i].play) && EtcdCovered(calls[i].groups)
  }

  function AfterCalls(w: World, calls: seq<RoleCall>): World
    requires forall i :: 0 <= i < |calls| ==> calls[i].play != [] && calls[i].groups.etcd != []
  {
    if calls == [] then w
    else
      var last := calls[|calls| - 1];
      Applied(last.groups, last.play, AfterCalls(w, calls[..|calls| - 1]))
  }

  /** Over every history of role runs with the same etcd hosts, whatever else the inventory and
      the plays were: one authority signs everything, hosts agree on what they hold, a host
      with a key is complete, and no file of any host is ever lost or changed. */
  lemma {:induction false} EveryRoleHistory(etcd: seq<Host>, w: World, calls: seq<RoleCall>)
    requires etcd != [] && Sound(etcd, w) && Calls(etcd, calls)
    ensures Sound(etcd, AfterCalls(w, calls))
    ensures forall h :: Included(StoreOf(w, h), StoreOf(AfterCalls(w, calls), h))
  {
    if calls == [] {
    } else {
      var init, last := calls[..|calls| - 1], calls[|calls| - 1];
      EveryRoleHistory(etcd, w, init);
      var w' := AfterCalls(w, init);
      RunKeepsSound(last.groups, last.play, w');
      forall h ensures Included(StoreOf(w, h), StoreOf(AfterCalls(w, calls), h)) {
        assert Included(StoreOf(w, h), StoreOf(w', h));
      }
    }
  }

  lemma EmptyIsSound(etcd: seq<Host>, next: nat)
    requires etcd != []
    ensures Sound(etcd, World(map[], next))
  {
  }

  /** A run of the role over a play; a failed one leaves the hosts as they are. */
  function Applied(g: Groups, play: seq<Host>, w: World): World
    requires play != [] && g.etcd != []
  {
    match RoleRun(g, play, w)
    case None => w
    case Some(w') => w'
  }

  /** The role as the cluster playbook applies it: over the etcd hosts, then over the rest. */
  function Playbook(g: Groups, w: World): World
    requires g.etcd != [] && g.cluster + g.reflectors != []
  {
    Applied(g, g.cluster + g.reflectors, Applied(g, g.etcd, w))
  }

  lemma PlaybookRuns(g: Groups, w: World)
    requires g.etcd != [] && g.cluster + g.reflectors != [] && EtcdCovered(g) && Sound(g.etcd, w)
    ensures PlayOf(g, g.etcd) && PlayOf(g, g.cluster + g.reflectors)
    ensures RoleRun(g, g.etcd, w).Some? && Sound(g.etcd, RoleRun(g, g.etcd, w).value)
    ensures RoleRun(g, g.cluster + g.reflectors, RoleRun(g, g.etcd, w).value) == Some(Playbook(g, w))
  {
    RunKeepsSound(g, g.etcd, w);
    RunKeepsSound(g, g.cluster + g.reflectors, RoleRun(g, g.etcd, w).value);
  }

  lemma PlaybookSafe(g: Groups, w: World)
    requires g.etcd != [] && g.cluster + g.reflectors != [] && EtcdCovered(g) && Sound(g.etcd, w)
    ensures Sound(g.etcd, Playbook(g, w))
    ensures forall h :: Included(StoreOf(w, h), StoreOf(Playbook(g, w), h))
  {
    PlaybookRuns(g, w);
    var w1 := RoleRun(g, g.etcd, w).value;
    RunKeepsSound(g, g.etcd, w);
    RunKeepsSound(g, g.cluster + g.reflectors, w1);
    IncludedTransitive(w, w1, Playbook(g, w));
  }

  lemma PlaybookConverges(g: Groups, w: World, h: Host)
    requires g.etcd != [] && g.cluster + g.reflectors != [] && EtcdCovered(g) && Sound(g.etcd, w)
    requires h in g.All()
    ensures KeyOf(Node, h) in StoreOf(Playbook(g, w), g.etcd[0])
    ensures Converged(g.etcd, Playbook(g, w), h)
  {
    PlaybookRuns(g, w);
    KeysAfterGeneration(g, w);
    SecondPlay(g, RoleRun(g, g.etcd, w).value, h);
  }

  lemma SecondPlay(g: Groups, w: World, h: Host)
    requires g.etcd != [] && EtcdCovered(g) && Sound(g.etcd, w)
    requires PlayOf(g, g.cluster + g.reflectors) && h in g.All()
    requires KeyOf(Node, h) in StoreOf(w, g.etcd[0])
    ensures RoleRun(g, g.cluster + g.reflectors, w).Some?
    ensures var w' := RoleRun(g, g.cluster + g.reflectors, w).value;
      KeyOf(Node, h) in StoreOf(w', g.etcd[0]) && Converged(g.etcd, w', h)
  {
    var rest := g.cluster + g.reflectors;
    assert h in rest;
    ConvergedAfterRun(g, rest, w, h);
    KeyStays(g, rest, w, h);
  }

  lemma KeyStays(g: Groups, play: seq<Host>, w: World, h: Host)
    requires g.etcd != [] && PlayOf(g, play) && EtcdCovered(g) && Sound(g.etcd, w)
    requires KeyOf(Node, h) in StoreOf(w, g.etcd[0])
    ensures RoleRun(g, play, w).Some?
    ensures KeyOf(Node, h) in StoreOf(RoleRun(g, play, w).value, g.etcd[0])
  {
    RunKeepsSound(g, play, w);
    assert Included(StoreOf(w, g.etcd[0]), StoreOf(RoleRun(g, play, w).value, g.etcd[0]));
  }

  /** From any state that earlier runs can have left (in particular from empty hosts, or after
      cluster hosts were added), the cluster playbook gives every host of the inventory its
      certificates, keeps every file that was there, and done again changes nothing. */
  lemma ClusterPlaybook(g: Groups, w: World)
    requires g.etcd != [] && g.cluster + g.reflectors != [] && EtcdCovered(g) && Sound(g.etcd, w)
    ensures Sound(g.etcd, Playbook(g, w))
    ensures forall h :: Included(StoreOf(w, h), StoreOf(Playbook(g, w), h))
    ensures forall h :: h in g.All() ==> Converged(g.etcd, Playbook(g, w), h)
    ensures Playbook(g, Playbook(g, w)) == Playbook(g, w)
  {
    PlaybookSafe(g, w);
    forall h | h in g.All()
      ensures KeyOf(Node, h) in StoreOf(Playbook(g, w), g.etcd[0]) && Converged(g.etcd, Playbook(g, w), h)
    {
      PlaybookConverges(g, w, h);
    }
    PlaybookQuiet(g, Playbook(g, w));
  }

  lemma IncludedTransitive(a: World, b: World, c: World)
    requires forall h :: Included(StoreOf(a, h), StoreOf(b, h))
    requires forall h :: Included(StoreOf(b, h), StoreOf(c, h))
    ensures forall h :: Included(StoreOf(a, h), StoreOf(c, h))
  {
    forall h ensures Included(StoreOf(a, h), StoreOf(c, h)) {
      assert Included(StoreOf(a, h), StoreOf(b, h)) && Included(StoreOf(b, h), StoreOf(c, h));
    }
  }

  lemma PlaybookQuiet(g: Groups, w: World)
    requires g.etcd != [] && g.cluster + g.reflectors != [] && EtcdCovered(g) && Sound(g.etcd, w)
    requires forall h :: h in g.All() ==> KeyOf(Node, h) in StoreOf(w, g.etcd[0])
    requires forall h :: h in g.All() ==> Converged(g.etcd, w, h)
    ensures Playbook(g, w) == w
  {
    PlaybookRuns(g, w);
    QuietRerun(g, g.etcd, w);
    QuietRerun(g, g.cluster + g.reflectors, w);
  }

  lemma KeysAfterGeneration(g: Groups, w: World)
    requires g.etcd != [] && EtcdCovered(g) && Sound(g.etcd, w)
    ensures RoleRun(g, g.etcd, w).Some?
    ensures forall h :: h in g.All() ==> KeyOf(Node, h) in StoreOf(RoleRun(g, g.etcd, w).value, g.etcd[0])
  {
    assert PlayOf(g, g.etcd);
    GenerationExtends(g, g.etcd, w);
    RunAt(g, g.etcd, w, g.etcd[0]);
  }

  /***** Without the covering hypothesis *****/

  /** An etcd host that is neither in the cluster nor a route reflector never gets a node key:
      it is left out of the list the script works on, so generation is found to be needed and
      is repeated on every run. */
  lemma UncoveredNeverServed(g: Groups, play: seq<Host>, w: World, h: Host)
    requires g.etcd != [] && play != [] && h in g.etcd && h !in g.Clients()
    requires KeyOf(Node, h) !in StoreOf(w, g.etcd[0]) && RoleRun(g, play, w).Some?
    ensures NeedsGeneration(g, StoreOf(w, g.etcd[0]))
    ensures KeyOf(Node, h) !in StoreOf(RoleRun(g, play, w).value, g.etcd[0])
  {
    var first := g.etcd[0];
    var m := StoreOf(w, first);
    assert h in g.All() && Missing(m, h);
    var made := Generated(g, play, w).value;
    CopiedAt(g, play, m, w, made, first);
    if Generates(g, play, w) {
      var masters, hosts := Lacking(m, g.etcd), Lacking(m, g.cluster + g.reflectors);
      LackingIs(m, g.cluster + g.reflectors);
      var (b, ca) := Authorized(m, w.next).value;
      KeysIssued(b, ca, masters, hosts, h);
    }
  }

  lemma {:induction false} UncoveredEverAfter(etcd: seq<Host>, w: World, calls: seq<RoleCall>, h: Host)
    requires etcd != [] && h in etcd && KeyOf(Node, h) !in StoreOf(w, etcd[0])
    requires forall i :: 0 <= i < |calls| ==>
      calls[i].groups.etcd == etcd && calls[i].play != [] && h !in calls[i].groups.Clients()
    ensures KeyOf(Node, h) !in StoreOf(AfterCalls(w, calls), etcd[0])
  {
    if calls == [] {
    } else {
      var init, last := calls[..|calls| - 1], calls[|calls| - 1];
      UncoveredEverAfter(etcd, w, init, h);
      UncoveredAfter(last.groups, last.play, AfterCalls(w, init), h);
    }
  }

  lemma UncoveredAfter(g: Groups, play: seq<Host>, w: World, h: Host)
    requires g.etcd != [] && play != [] && h in g.etcd && h !in g.Clients()
    requires KeyOf(Node, h) !in StoreOf(w, g.etcd[0])
    ensures KeyOf(Node, h) !in StoreOf(Applied(g, play, w), g.etcd[0])
  {
    if RoleRun(g, play, w).Some? {
      UncoveredNeverServed(g, play, w, h);
    }
  }

  /** From bare hosts the cluster playbook gives every host its certificates exactly when every
      etcd host is in the cluster or is a route reflector. */
  lemma ConvergesIfCovered(g: Groups, next: nat)
    requires g.etcd != [] && g.cluster + g.reflectors != []
    ensures (forall h :: h in g.All() ==> Converged(g.etcd, Playbook(g, World(map[], next)), h)) <==> EtcdCovered(g)
  {
    var bare := World(map[], next);
    if EtcdCovered(g) {
      EmptyIsSound(g.etcd, next);
      ClusterPlaybook(g, bare);
    } else {
      var h :| h in g.etcd && h !in g.Clients();
      UncoveredAfter(g, g.etcd, bare, h);
      UncoveredAfter(g, g.cluster + g.reflectors, Applied(g, g.etcd, bare), h);
      assert h in g.All() && !Converged(g.etcd, Playbook(g, bare), h);
    }
  }

  /***** Nobody else is served *****/

  lemma NodeKeysAfter(g: Groups, play: seq<Host>, w: World, h: Host)
    requires play != [] && g.etcd != [] && EtcdCovered(g) && Sound(g.etcd, w)
    ensures KeyOf(Node, h) in StoreOf(Applied(g, play, w), g.etcd[0]) ==>
      KeyOf(Node, h) in StoreOf(w, g.etcd[0]) || h in g.All()
  {
    GenerationExtends(g, play, w);
    RunAt(g, play, w, g.etcd[0]);
    if Generates(g, play, w) {
      MissingIssued(g, StoreOf(w, g.etcd[0]), w.next);
    }
  }

  /** The playbook makes node keys for the hosts of the inventory only. */
  lemma PlaybookKeys(g: Groups, w: World, h: Host)
    requires g.etcd != [] && g.cluster + g.reflectors != [] && EtcdCovered(g) && Sound(g.etcd, w)
    ensures KeyOf(Node, h) in StoreOf(Playbook(g, w), g.etcd[0]) ==>
      KeyOf(Node, h) in StoreOf(w, g.etcd[0]) || h in g.All()
  {
    PlaybookRuns(g, w);
    NodeKeysAfter(g, g.etcd, w, h);
    NodeKeysAfter(g, g.cluster + g.reflectors, Applied(g, g.etcd, w), h);
  }

  /***** Keys that the script issues *****/

  lemma KeysIssued(b: Bench, ca: nat, masters: seq<Host>, hosts: seq<Host>, h: Host)
    requires h !in hosts && KeyOf(Node, h) !in b.files
    ensures KeyOf(Node, h) !in IssueNodes(IssueMembers(b, ca, masters), ca, hosts).files
  {
    MemberKeysOnly(b, ca, masters, h);
    NodeKeysOnly(IssueMembers(b, ca, masters), ca, hosts, h);
  }

  lemma {:induction false} MemberKeysOnly(b: Bench, ca: nat, masters: seq<Host>, h: Host)
    ensures KeyOf(Node, h) in IssueMembers(b, ca, masters).files <==> KeyOf(Node, h) in b.files
  {
    if masters == [] {
    } else {
      MemberKeysOnly(b, ca, masters[..|masters| - 1], h);
    }
  }

  lemma {:induction false} NodeKeysOnly(b: Bench, ca: nat, hosts: seq<Host>, h: Host)
    ensures KeyOf(Node, h) in IssueNodes(b, ca, hosts).files <==> KeyOf(Node, h) in b.files || h in hosts
  {
    if hosts == [] {
    } else {
      NodeKeysOnly(b, ca, hosts[..|hosts| - 1], h);
    }
  }
}
