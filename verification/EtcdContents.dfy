/** What each host holds, file by file: nothing beyond its share after any history of runs, and
    from bare hosts exactly its share; and what a run does to stale files. */
module EtcdContents {
  import opened Text
  import opened EtcdCerts
  import opened EtcdConvergence

  /***** Names *****/

  /** The common name of a host is its name up to the first dot. */
  lemma CommonNameIs(stem: string, rest: string)
    requires '.' !in stem && (rest == "" || rest[0] == '.')
    ensures CommonName(stem + rest) == stem
  {
    if rest == "" {
      assert stem + rest == stem;
      SplitNoSeparator(stem, '.');
    } else {
      assert stem + rest == stem + ['.'] + rest[1..];
      SplitAtSeparator(stem, '.', rest[1..]);
    }
  }

  /***** Nothing beyond its share *****/

  /** A worker may hold the certificate of the authority and its own node pair. */
  ghost predicate WorkerFile(h: Host, f: File) {
    f == CaCert || f == KeyOf(Node, h) || f == CertOf(Node, h)
  }

  /** An etcd host may hold the authority, its own member and admin pairs and all node pairs. */
  ghost predicate ServerFile(h: Host, f: File) {
    match f
    case CaKey => true
    case CaCert => true
    case KeyOf(r, x) => r != Node ==> x == h
    case CertOf(r, x) => r != Node ==> x == h
  }

  /** No host but the first etcd host holds more than its share: a host outside the etcd group
      has no key of the authority and no pair of another host; another etcd host has no member or
      admin pair but its own. */
  ghost predicate Modest(etcd: seq<Host>, w: World)
    requires etcd != []
  {
    && (forall h, f :: h !in etcd && f in StoreOf(w, h) ==> WorkerFile(h, f))
    && (forall h, f :: h in etcd && h != etcd[0] && f in StoreOf(w, h) ==> ServerFile(h, f))
  }

  lemma SentIsModest(g: Groups, m: Store, h: Host, f: File)
    requires f in Sent(g, m, h)
    ensures h !in g.etcd ==> WorkerFile(h, f)
    ensures h in g.etcd ==> ServerFile(h, f)
  {
  }

  lemma RunIsModest(g: Groups, play: seq<Host>, w: World)
    requires g.etcd != [] && play != [] && Modest(g.etcd, w)
    ensures Modest(g.etcd, Applied(g, play, w))
  {
    if RoleRun(g, play, w).Some? {
      var w' := RoleRun(g, play, w).value;
      forall h, f | h != g.etcd[0] && f in StoreOf(w', h)
        ensures f in StoreOf(w, h) || f in Sent(g, StoreOf(w', g.etcd[0]), h)
      {
        RunAt(g, play, w, h);
      }
      forall h, f | h !in g.etcd && f in StoreOf(w', h) ensures WorkerFile(h, f) {
        if f !in StoreOf(w, h) {
          SentIsModest(g, StoreOf(w', g.etcd[0]), h, f);
        }
      }
      forall h, f | h in g.etcd && h != g.etcd[0] && f in StoreOf(w', h) ensures ServerFile(h, f) {
        if f !in StoreOf(w, h) {
          SentIsModest(g, StoreOf(w', g.etcd[0]), h, f);
        }
      }
    }
  }

  /** Over every history of role runs with the same etcd hosts, from bare hosts or any modest
      state, every host but the first etcd host keeps to its share. */
  lemma {:induction false} EveryHistoryIsModest(etcd: seq<Host>, w: World, calls: seq<RoleCall>)
    requires etcd != [] && Modest(etcd, w)
    requires forall i :: 0 <= i < |calls| ==> calls[i].groups.etcd == etcd && calls[i].play != []
    ensures Modest(etcd, AfterCalls(w, calls))
  {
    if calls == [] {
    } else {
      var init, last := calls[..|calls| - 1], calls[|calls| - 1];
      EveryHistoryIsModest(etcd, w, init);
      RunIsModest(last.groups, last.play, AfterCalls(w, init));
    }
  }

  lemma BareIsModest(etcd: seq<Host>, next: nat)
    requires etcd != []
    ensures Modest(etcd, World(map[], next))
  {
  }

  /***** Exactly its share *****/

  /** The share of the first etcd host: the authority, the member and admin pairs of all etcd
      hosts, and the node pairs of all clients. */
  ghost predicate FirstShare(g: Groups, f: File) {
    match f
    case CaKey => true
    case CaCert => true
    case KeyOf(r, x) => if r == Node then x in g.Clients() else x in g.etcd
    case CertOf(r, x) => if r == Node then x in g.Clients() else x in g.etcd
  }

  ghost predicate Share(g: Groups, h: Host, f: File)
    requires g.etcd != []
  {
    if h == g.etcd[0] then FirstShare(g, f)
    else if h in g.etcd then FirstShare(g, f) && ServerFile(h, f)
    else WorkerFile(h, f)
  }

  lemma FirstRunFiles(g: Groups, next: nat, f: File)
    requires g.etcd != [] && EtcdCovered(g)
    ensures RoleRun(g, g.etcd, World(map[], next)).Some?
    ensures f in StoreOf(RoleRun(g, g.etcd, World(map[], next)).value, g.etcd[0]) <==> FirstShare(g, f)
  {
    var bare := World(map[], next);
    GeneratedFiles(g, next, f);
    RunAt(g, g.etcd, bare, g.etcd[0]);
  }

  /** A directory with an authority and exactly these keys holds exactly the share. */
  lemma KeysDecide(g: Groups, m: Store, next: nat, f: File)
    requires Authentic(m, next) && CaKey in m
    requires forall q, h :: KeyOf(q, h) in m <==> (if q == Node then h in g.Clients() else h in g.etcd)
    ensures f in m <==> FirstShare(g, f)
  {
    match f
    case CaKey =>
    case CaCert =>
    case KeyOf(r, x) =>
    case CertOf(r, x) => assert KeyOf(r, x) in m <==> CertOf(r, x) in m;
  }

  lemma GeneratedFiles(g: Groups, next: nat, f: File)
    requires g.etcd != [] && EtcdCovered(g)
    ensures Generated(g, g.etcd, World(map[], next)).Some?
    ensures f in StoreOf(Generated(g, g.etcd, World(map[], next)).value, g.etcd[0]) <==> FirstShare(g, f)
  {
    EmptyIsSound(g.etcd, next);
    MissingIssued(g, map[], next);
    var r := Script(map[], next, Lacking(map[], g.etcd), Lacking(map[], g.cluster + g.reflectors)).value;
    KeysDecide(g, r.0, r.1, f);
    GeneratedOn(g, World(map[], next));
  }

  lemma GeneratedOn(g: Groups, bare: World)
    requires g.etcd != [] && bare.stores == map[]
    requires Script(map[], bare.next, Lacking(map[], g.etcd), Lacking(map[], g.cluster + g.reflectors)).Some?
    ensures Generated(g, g.etcd, bare).Some?
    ensures StoreOf(Generated(g, g.etcd, bare).value, g.etcd[0]) ==
      Script(map[], bare.next, Lacking(map[], g.etcd), Lacking(map[], g.cluster + g.reflectors)).value.0
  {
    assert StoreOf(bare, g.etcd[0]) == map[];
  }

  lemma SentShare(g: Groups, m: Store, h: Host, f: File)
    requires g.etcd != [] && EtcdCovered(g) && h in g.All() && h != g.etcd[0]
    requires f in m <==> FirstShare(g, f)
    ensures f in Sent(g, m, h) <==> Share(g, h, f)
  {
  }

  /** On bare hosts the first play leaves an etcd host what it is sent, and other hosts bare. */
  lemma FirstPlayAt(g: Groups, bare: World, w1: World, h: Host)
    requires g.etcd != [] && bare.stores == map[] && h != g.etcd[0]
    requires RoleRun(g, g.etcd, bare) == Some(w1)
    ensures StoreOf(w1, h) == if h in g.etcd then Sent(g, StoreOf(w1, g.etcd[0]), h) else map[]
  {
    RunAt(g, g.etcd, bare, h);
    var sent := Sent(g, StoreOf(w1, g.etcd[0]), h);
    assert map[] + sent == sent;
  }

  /** The second play generates nothing. */
  lemma SecondPlayAt(g: Groups, w1: World, w2: World, h: Host)
    requires g.etcd != [] && g.cluster + g.reflectors != []
    requires !NeedsGeneration(g, StoreOf(w1, g.etcd[0]))
    requires RoleRun(g, g.cluster + g.reflectors, w1) == Some(w2)
    ensures var m := StoreOf(w1, g.etcd[0]);
      && StoreOf(w2, g.etcd[0]) == m
      && (h != g.etcd[0] ==>
           StoreOf(w2, h) == AfterCopy(g, m, m, StoreOf(w1, h), g.cluster + g.reflectors, h))
  {
    RunAt(g, g.cluster + g.reflectors, w1, h);
  }

  /** A store that is empty or what was sent becomes what was sent. */
  lemma CopyOnce(g: Groups, m: Store, own: Store, play: seq<Host>, h: Host)
    requires own == Sent(g, m, h) || (own == map[] && h in play)
    ensures AfterCopy(g, m, m, own, play, h) == Sent(g, m, h)
  {
    assert map[] + Sent(g, m, h) == Sent(g, m, h);
    assert Sent(g, m, h) + Sent(g, m, h) == Sent(g, m, h);
  }

  lemma SecondStore(g: Groups, bare: World, w1: World, w2: World, h: Host)
    requires g.etcd != [] && g.cluster + g.reflectors != [] && bare.stores == map[] && h != g.etcd[0]
    requires h in g.All() && !NeedsGeneration(g, StoreOf(w1, g.etcd[0]))
    requires RoleRun(g, g.etcd, bare) == Some(w1) && RoleRun(g, g.cluster + g.reflectors, w1) == Some(w2)
    ensures StoreOf(w2, h) == Sent(g, StoreOf(w1, g.etcd[0]), h)
  {
    FirstPlayAt(g, bare, w1, h);
    SecondPlayAt(g, w1, w2, h);
    assert h !in g.etcd ==> h in g.cluster + g.reflectors;
    CopyOnce(g, StoreOf(w1, g.etcd[0]), StoreOf(w1, h), g.cluster + g.reflectors, h);
  }

  lemma NothingLeftToGenerate(g: Groups, bare: World, w1: World)
    requires g.etcd != [] && EtcdCovered(g) && Sound(g.etcd, bare) && RoleRun(g, g.etcd, bare) == Some(w1)
    ensures !NeedsGeneration(g, StoreOf(w1, g.etcd[0]))
  {
    KeysAfterGeneration(g, bare);
    assert g.etcd[0] in g.etcd;
    RunKeepsSound(g, g.etcd, bare);
    assert Genuine(StoreOf(w1, g.etcd[0]), w1.next, Node, g.etcd[0]);
  }

  /** On bare hosts the cluster playbook gives every host exactly its share. */
  lemma BareStore(g: Groups, next: nat, h: Host, f: File)
    requires g.etcd != [] && g.cluster + g.reflectors != [] && EtcdCovered(g) && h in g.All()
    ensures f in StoreOf(Playbook(g, World(map[], next)), h) <==> Share(g, h, f)
  {
    var bare := World(map[], next);
    EmptyIsSound(g.etcd, next);
    PlaybookRuns(g, bare);
    var w1 := RoleRun(g, g.etcd, bare).value;
    FirstRunFiles(g, next, f);
    NothingLeftToGenerate(g, bare, w1);
    if h == g.etcd[0] {
      SecondPlayAt(g, w1, Playbook(g, bare), h);
    } else {
      SecondStore(g, bare, w1, Playbook(g, bare), h);
      SentShare(g, StoreOf(w1, g.etcd[0]), h, f);
    }
  }

  /***** Stale files *****/

  lemma HeldKeyStays(g: Groups, play: seq<Host>, w: World, h: Host)
    requires g.etcd != [] && play != [] && Generated(g, play, w).Some?
    requires KeyOf(Node, h) in StoreOf(w, g.etcd[0])
    ensures var m, m' := StoreOf(w, g.etcd[0]), StoreOf(Generated(g, play, w).value, g.etcd[0]);
      KeyOf(Node, h) in m' && m'[KeyOf(Node, h)] == m[KeyOf(Node, h)]
  {
    var m := StoreOf(w, g.etcd[0]);
    if Generates(g, play, w) {
      var masters, hosts := Lacking(m, g.etcd), Lacking(m, g.cluster + g.reflectors);
      LackingIs(m, g.cluster + g.reflectors);
      var (b, ca) := Authorized(m, w.next).value;
      KeysIssued(b, ca, masters, hosts, h);
    }
  }

  lemma KeySent(g: Groups, m: Store, own: Store, h: Host)
    requires h in g.All() && (h in g.etcd ==> h in g.Clients()) && KeyOf(Node, h) in m
    ensures KeyOf(Node, h) in own + Sent(g, m, h)
    ensures (own + Sent(g, m, h))[KeyOf(Node, h)] == m[KeyOf(Node, h)]
  {
  }

  /** From any state at all, after a run that succeeds a host of the play has the node key that
      the first etcd host held for it, whatever key it had before. */
  lemma StaleKeyReplaced(g: Groups, play: seq<Host>, w: World, h: Host)
    requires g.etcd != [] && PlayOf(g, play) && EtcdCovered(g) && h in play
    requires RoleRun(g, play, w).Some? && KeyOf(Node, h) in StoreOf(w, g.etcd[0])
    ensures var w' := RoleRun(g, play, w).value;
      && KeyOf(Node, h) in StoreOf(w', h)
      && StoreOf(w', h)[KeyOf(Node, h)] == StoreOf(w, g.etcd[0])[KeyOf(Node, h)]
  {
    HeldKeyStays(g, play, w, h);
    RunAt(g, play, w, h);
    if h != g.etcd[0] {
      KeySent(g, StoreOf(Generated(g, play, w).value, g.etcd[0]), StoreOf(w, h), h);
    }
  }

  /** From any state at all, a host of the play that had no certificate of the authority has that
      of the first etcd host after a run that succeeds. */
  lemma MissingAuthoritySent(g: Groups, play: seq<Host>, w: World, h: Host)
    requires g.etcd != [] && PlayOf(g, play) && h in play && h != g.etcd[0]
    requires RoleRun(g, play, w).Some? && CaCert !in StoreOf(w, h)
    ensures var w' := RoleRun(g, play, w).value;
      var m := StoreOf(w', g.etcd[0]);
      CaCert in m ==> CaCert in StoreOf(w', h) && StoreOf(w', h)[CaCert] == m[CaCert]
  {
    RunAt(g, play, w, h);
  }

  /** A host that has the certificate of the authority and the key that the first etcd host holds
      for it is left alone, whatever else it has. */
  lemma UpToDateUntouched(g: Groups, play: seq<Host>, w: World, h: Host)
    requires g.etcd != [] && play != [] && h != g.etcd[0] && RoleRun(g, play, w).Some?
    requires KeyOf(Node, h) in StoreOf(w, g.etcd[0]) && KeyOf(Node, h) in StoreOf(w, h) && CaCert in StoreOf(w, h)
    requires StoreOf(w, h)[KeyOf(Node, h)] == StoreOf(w, g.etcd[0])[KeyOf(Node, h)]
    ensures StoreOf(RoleRun(g, play, w).value, h) == StoreOf(w, h)
  {
    RunAt(g, play, w, h);
  }

  /***** The authority *****/

  /** The script fails exactly when there is a key of the authority without a certificate, or
      something that is no key in its place; then the run changes nothing. */
  lemma ScriptFails(installed: Store, next: nat, masters: seq<Host>, hosts: seq<Host>)
    ensures Script(installed, next, masters, hosts).None? <==>
      CaKey in installed && (CaCert !in installed || !installed[CaKey].Key?)
  {
  }

  /** Where there is no key of the authority a new authority is made, signed by itself. */
  lemma NewAuthority(installed: Store, next: nat, masters: seq<Host>, hosts: seq<Host>)
    requires CaKey !in installed
    ensures var files := Script(installed, next, masters, hosts).value.0;
      && CaKey in files && files[CaKey] == Key(next)
      && CaCert in files && files[CaCert] == Cert(Authority, next, next)
  {
    var (b, ca) := Authorized(installed, next).value;
    AuthorityStays(b, ca, masters, hosts);
  }

  lemma AuthorityStays(b: Bench, ca: nat, masters: seq<Host>, hosts: seq<Host>)
    requires CaKey in b.files && CaCert in b.files
    ensures var done := IssueNodes(IssueMembers(b, ca, masters), ca, hosts);
      && CaKey in done.files && done.files[CaKey] == b.files[CaKey]
      && CaCert in done.files && done.files[CaCert] == b.files[CaCert]
  {
    AuthorityStaysMembers(b, ca, masters);
    AuthorityStaysNodes(IssueMembers(b, ca, masters), ca, hosts);
  }

  lemma {:induction false} AuthorityStaysMembers(b: Bench, ca: nat, masters: seq<Host>)
    requires CaKey in b.files && CaCert in b.files
    ensures var done := IssueMembers(b, ca, masters);
      && CaKey in done.files && done.files[CaKey] == b.files[CaKey]
      && CaCert in done.files && done.files[CaCert] == b.files[CaCert]
  {
    if masters == [] {
    } else {
      AuthorityStaysMembers(b, ca, masters[..|masters| - 1]);
    }
  }

  lemma {:induction false} AuthorityStaysNodes(b: Bench, ca: nat, hosts: seq<Host>)
    requires CaKey in b.files && CaCert in b.files
    ensures var done := IssueNodes(b, ca, hosts);
      && CaKey in done.files && done.files[CaKey] == b.files[CaKey]
      && CaCert in done.files && done.files[CaCert] == b.files[CaCert]
  {
    if hosts == [] {
    } else {
      AuthorityStaysNodes(b, ca, hosts[..|hosts| - 1]);
    }
  }

  /** A play that starts with the first etcd host makes the authority anew where that host has
      neither of its files, even if it holds every node key. */
  lemma LostAuthorityRemade(g: Groups, play: seq<Host>, w: World)
    requires g.etcd != [] && play != [] && play[0] == g.etcd[0]
    requires CaKey !in StoreOf(w, g.etcd[0]) && CaCert !in StoreOf(w, g.etcd[0])
    ensures RoleRun(g, play, w).Some?
    ensures var m := StoreOf(RoleRun(g, play, w).value, g.etcd[0]);
      && CaKey in m && m[CaKey] == Key(w.next)
      && CaCert in m && m[CaCert] == Cert(Authority, w.next, w.next)
  {
    var m := StoreOf(w, g.etcd[0]);
    var masters, hosts := Lacking(m, g.etcd), Lacking(m, g.cluster + g.reflectors);
    NewAuthority(m, w.next, masters, hosts);
    RunAt(g, play, w, g.etcd[0]);
  }

  /** The script is asked for each host once, in the order of the groups. */
  lemma {:induction false} LackingOnce(found: Store, hs: seq<Host>)
    ensures forall i, j :: 0 <= i < j < |Lacking(found, hs)| ==> Lacking(found, hs)[i] != Lacking(found, hs)[j]
    ensures |Lacking(found, hs)| <= |hs|
  {
    if hs == [] {
    } else {
      var init, last := hs[..|hs| - 1], hs[|hs| - 1];
      LackingOnce(found, init);
      LackingIs(found, init);
      assert last !in init ==> last !in Lacking(found, init);
    }
  }
}
