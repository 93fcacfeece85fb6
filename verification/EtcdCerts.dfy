/** The certificates of the etcd role: what each host holds, what one run of the role
    generates and copies, and what every sequence of runs keeps. */
module EtcdCerts {
  import opened Text

  type Host = string

  datatype Role = Member | Admin | Node

  /** The files of a certificate directory. */
  datatype File = CaKey | CaCert | KeyOf(role: Role, host: Host) | CertOf(role: Role, host: Host)

  datatype Subject = Authority | Leaf(role: Role, cn: string)

  /** Contents: a private key, or a certificate for a key signed by another. A content stands
      for its checksum. */
  datatype Blob = Key(id: nat) | Cert(subject: Subject, key: nat, signer: nat)

  type Store = map<File, Blob>

  /** The inventory groups: etcd, the kubernetes cluster, and calico-rr. */
  datatype Groups = Groups(etcd: seq<Host>, cluster: seq<Host>, reflectors: seq<Host>) {
    function All(): set<Host> {
      (set h | h in etcd) + Clients()
    }

    /** The hosts that node certificates are generated for. */
    function Clients(): set<Host> {
      (set h | h in cluster) + (set h | h in reflectors)
    }
  }

  /** The stores of all hosts, and the next key id that openssl draws. */
  datatype World = World(stores: map<Host, Store>, next: nat)

  function StoreOf(w: World, h: Host): Store {
    if h in w.stores then w.stores[h] else map[]
  }

  /** `${host%%.*}` */
  function CommonName(h: Host): string {
    Split(h, '.')[0]
  }

  /***** The generation script *****/

  /** The working directory of the script. */
  datatype Bench = Bench(files: Store, next: nat)

  function Issue(b: Bench, ca: nat, role: Role, h: Host): Bench {
    Bench(b.files[KeyOf(role, h) := Key(b.next)][CertOf(role, h) := Cert(Leaf(role, CommonName(h)), b.next, ca)],
          b.next + 1)
  }

  function IssueMembers(b: Bench, ca: nat, masters: seq<Host>): Bench {
    if masters == [] then b
    else
      var h := masters[|masters| - 1];
      Issue(Issue(IssueMembers(b, ca, masters[..|masters| - 1]), ca, Member, h), ca, Admin, h)
  }

  function IssueNodes(b: Bench, ca: nat, hosts: seq<Host>): Bench {
    if hosts == [] then b
    else Issue(IssueNodes(b, ca, hosts[..|hosts| - 1]), ca, Node, hosts[|hosts| - 1])
  }

  /** The authority on the bench: the installed one, or a new one. A key without its
      certificate stops the script. */
  function Authorized(installed: Store, next: nat): Option<(Bench, nat)> {
    if CaKey !in installed then
      Some((Bench(map[CaKey := Key(next), CaCert := Cert(Authority, next, next)], next + 1), next))
    else if CaCert !in installed || !installed[CaKey].Key? then None
    else Some((Bench(map[CaKey := installed[CaKey], CaCert := installed[CaCert]], next), installed[CaKey].id))
  }

  /** The directory after the script, and the next key id. */
  function Script(installed: Store, next: nat, masters: seq<Host>, hosts: seq<Host>): Option<(Store, nat)> {
    match Authorized(installed, next)
    case None => None
    case Some((bench, ca)) =>
      var done := IssueNodes(IssueMembers(bench, ca, masters), ca, hosts);
      Some((installed + done.files, done.next))
  }

  /** Member and admin pairs. */
  method SignMembers(bench: Bench, ca: nat, masters: seq<Host>) returns (r: Bench)
    ensures r == IssueMembers(bench, ca, masters)
  {
    var files, drawn := bench.files, bench.next;
    for i := 0 to |masters|
      invariant Bench(files, drawn) == IssueMembers(bench, ca, masters[..i])
    {
      var host := masters[i];
      assert masters[..i + 1][..i] == masters[..i];
      var cn := CommonName(host);
      files := files[KeyOf(Member, host) := Key(drawn)];
      files := files[CertOf(Member, host) := Cert(Leaf(Member, cn), drawn, ca)];
      drawn := drawn + 1;
      files := files[KeyOf(Admin, host) := Key(drawn)];
      files := files[CertOf(Admin, host) := Cert(Leaf(Admin, cn), drawn, ca)];
      drawn := drawn + 1;
    }
    assert masters[..|masters|] == masters;
    return Bench(files, drawn);
  }

  /** Node pairs. */
  method SignNodes(bench: Bench, ca: nat, hosts: seq<Host>) returns (r: Bench)
    ensures r == IssueNodes(bench, ca, hosts)
  {
    var files, drawn := bench.files, bench.next;
    for i := 0 to |hosts|
      invariant Bench(files, drawn) == IssueNodes(bench, ca, hosts[..i])
    {
      var host := hosts[i];
      assert hosts[..i + 1][..i] == hosts[..i];
      files := files[KeyOf(Node, host) := Key(drawn)];
      files := files[CertOf(Node, host) := Cert(Leaf(Node, CommonName(host)), drawn, ca)];
      drawn := drawn + 1;
    }
    assert hosts[..|hosts|] == hosts;
    return Bench(files, drawn);
  }

  method RunScript(installed: Store, next: nat, masters: seq<Host>, hosts: seq<Host>)
    returns (r: Option<(Store, nat)>)
    ensures r == Script(installed, next, masters, hosts)
  {
    var bench: Bench, ca: nat;
    if CaKey in installed {
      if CaCert !in installed || !installed[CaKey].Key? {
        return None;
      }
      bench, ca := Bench(map[CaKey := installed[CaKey], CaCert := installed[CaCert]], next), installed[CaKey].id;
    } else {
      bench, ca := Bench(map[CaKey := Key(next), CaCert := Cert(Authority, next, next)], next + 1), next;
    }
    bench := SignMembers(bench, ca, masters);
    bench := SignNodes(bench, ca, hosts);
    return Some((installed + bench.files, bench.next));
  }

  /***** One run of the role *****/

  /** What the first etcd host is seen to lack. */
  predicate Missing(found: Store, h: Host) {
    KeyOf(Node, h) !in found
  }

  predicate NeedsGeneration(g: Groups, found: Store) {
    CaCert !in found || exists h :: h in g.All() && Missing(found, h)
  }

  /** A host syncs when its key is about to be generated, when it lacks the authority or its
      key, or when its key differs from the one on the first etcd host. */
  predicate NeedsSync(found: Store, own: Store, h: Host) {
    || Missing(found, h)
    || CaCert !in own
    || KeyOf(Node, h) !in own
    || own[KeyOf(Node, h)] != found[KeyOf(Node, h)]
  }

  /** The hosts of `hs` that need a key, each once, in order. */
  function Lacking(found: Store, hs: seq<Host>): seq<Host> {
    if hs == [] then []
    else
      var init, last := hs[..|hs| - 1], hs[|hs| - 1];
      Lacking(found, init) + if Missing(found, last) && last !in init then [last] else []
  }

  /** `run_once` tasks look at the first host of the play only; delegation does not change
      whose name they compare with the first etcd host. */
  predicate Generates(g: Groups, play: seq<Host>, w: World)
    requires play != [] && g.etcd != []
  {
    NeedsGeneration(g, StoreOf(w, g.etcd[0])) && play[0] == g.etcd[0]
  }

  function Generated(g: Groups, play: seq<Host>, w: World): Option<World>
    requires play != [] && g.etcd != []
  {
    var first := g.etcd[0];
    var found := StoreOf(w, first);
    if !Generates(g, play, w) then Some(w)
    else match Script(found, w.next, Lacking(found, g.etcd), Lacking(found, g.cluster + g.reflectors))
      case None => None
      case Some((files, next)) => Some(World(w.stores[first := files], next))
  }

  /** The files an etcd member, or another host, is sent. */
  predicate Wanted(g: Groups, h: Host, f: File) {
    if h in g.etcd then
      || f == CaKey || f == CaCert
      || (f.role != Node && f.host == h)
      || (f.role == Node && f.host in g.Clients())
    else
      f == CaCert || (f != CaKey && f.role == Node && f.host == h)
  }

  function Sent(g: Groups, master: Store, h: Host): Store {
    map f | f in master && Wanted(g, h, f) :: master[f]
  }

  predicate Receives(g: Groups, found: Store, w: World, h: Host)
    requires g.etcd != []
  {
    h != g.etcd[0] && NeedsSync(found, StoreOf(w, h), h)
  }

  /** The new stores of the hosts that are sent something: `found` and `before` are what was
      seen before generation. */
  function Arrivals(g: Groups, play: seq<Host>, found: Store, before: World, w: World): map<Host, Store>
    requires g.etcd != []
  {
    map h | h in play && Receives(g, found, before, h) :: StoreOf(w, h) + Sent(g, StoreOf(w, g.etcd[0]), h)
  }

  function Copied(g: Groups, play: seq<Host>, found: Store, before: World, w: World): World
    requires g.etcd != []
  {
    World(w.stores + Arrivals(g, play, found, before, w), w.next)
  }

  function RoleRun(g: Groups, play: seq<Host>, w: World): Option<World>
    requires play != [] && g.etcd != []
  {
    match Generated(g, play, w)
    case None => None
    case Some(w') => Some(Copied(g, play, StoreOf(w, g.etcd[0]), w, w'))
  }
}
