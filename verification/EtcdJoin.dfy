/** Joining members to a running etcd cluster, one host at a time. */
module EtcdJoin {
  import opened Text
  import opened Dicts

  type Host = string

  /** How far a member has come; a member that never started shows neither name nor client URL. */
  datatype Status = Unstarted | Follower | Leader

  /** A member: the id the cluster gave it, the name it was added under, and its two URLs. */
  datatype Member = Member(id: string, name: string, peer: string, client: string) {
    /** A line of `member list`. */
    function Line(status: Status): string {
      if status == Unstarted then id + ("[unstarted]: peerURLs=" + peer)
      else id + (": name=" + (name + (" peerURLs=" + (peer + (" clientURLs=" + (client + Role(status)))))))
    }
  }

  function Role(status: Status): string {
    if status == Leader then " isLeader=true" else " isLeader=false"
  }

  /** What one listing shows of each member; it may change from one listing to the next. */
  type View = Member -> Status

  /** The etcd group, in order, the address each host is reached at, and the id each has as a
      member, or will be given. */
  datatype Group = Group(hosts: seq<Host>, addresses: map<Host, string>, ids: map<Host, string>) {
    ghost predicate Valid() {
      && Distinct(hosts)
      && forall h :: h in hosts ==> h in addresses && h in ids && ',' !in addresses[h]
    }
  }

  /***** Index-based names *****/

  function IndexOf(hosts: seq<Host>, h: Host): (i: nat)
    requires h in hosts
    ensures i < |hosts| && hosts[i] == h
  {
    if hosts[0] == h then 0 else 1 + IndexOf(hosts[1..], h)
  }

  /** `"etcd" + loop.index` */
  function NameAt(i: nat): string {
    "etcd" + Decimal(i + 1)
  }

  function PeerUrl(address: string): string {
    "https://" + (address + ":2380")
  }

  function ClientUrl(address: string): string {
    "https://" + (address + ":2379")
  }

  function MemberOf(g: Group, h: Host): Member
    requires g.Valid() && h in g.hosts
  {
    Member(g.ids[h], NameAt(IndexOf(g.hosts, h)), PeerUrl(g.addresses[h]), ClientUrl(g.addresses[h]))
  }

  /** `name=url`, as a cluster list writes a member. */
  function Entry(m: Member): string {
    m.name + "=" + m.peer
  }

  /***** grep *****/

  /** A regular expression whose only special character is the dot. */
  predicate MatchesAt(pattern: string, text: string, i: nat) {
    && i + |pattern| <= |text|
    && forall j :: 0 <= j < |pattern| ==> pattern[j] == '.' || pattern[j] == text[i + j]
  }

  predicate Grep(pattern: string, text: string) {
    exists i :: 0 <= i <= |text| && MatchesAt(pattern, text, i)
  }

  /** `member list | grep -q address` */
  predicate Listed(members: seq<Member>, view: View, address: string) {
    exists k :: 0 <= k < |members| && Grep(address, members[k].Line(view(members[k])))
  }

  lemma Regroup(a: string, b: string, c: string)
    ensures a + b + c == a + (b + c)
  {
  }

  /** A pattern without a dot matches exactly the texts that contain it. */
  lemma GrepIs(pattern: string, text: string)
    requires '.' !in pattern
    ensures Grep(pattern, text) <==> exists before, after :: text == before + pattern + after
  {
    if Grep(pattern, text) {
      var i :| 0 <= i <= |text| && MatchesAt(pattern, text, i);
      assert text[i..i + |pattern|] == pattern;
      assert text == text[..i] + pattern + text[i + |pattern|..];
    }
    forall before, after | text == before + pattern + after ensures Grep(pattern, text) {
      assert MatchesAt(pattern, text, |before|);
    }
  }

  /** A dot matches any one character. */
  lemma DotMatches(a: string, b: string, c: char)
    ensures Grep(a + "." + b, a + [c] + b)
  {
    var pattern, text := a + "." + b, a + [c] + b;
    assert MatchesAt(pattern, text, 0);
  }

  /** What matches a part of a text matches the text. */
  lemma GrepPart(a: string, before: string, text: string, after: string)
    requires Grep(a, text)
    ensures Grep(a, before + (text + after))
  {
    var i :| 0 <= i <= |text| && MatchesAt(a, text, i);
    var whole := before + (text + after);
    forall j | 0 <= j < |a| ensures a[j] == '.' || a[j] == whole[|before| + i + j] {
      assert a[j] == '.' || a[j] == text[i + j];
    }
    assert MatchesAt(a, whole, |before| + i);
  }

  lemma GrepRest(a: string, before: string, text: string)
    requires Grep(a, text)
    ensures Grep(a, before + text)
  {
    GrepPart(a, before, text, "");
    assert text + "" == text;
  }

  lemma GrepStart(a: string, text: string, after: string)
    requires Grep(a, text)
    ensures Grep(a, text + after)
  {
    GrepPart(a, "", text, after);
    assert "" + (text + after) == text + after;
  }

  /** What matches the peer URL of a member matches its line, started or not. */
  lemma PeerInLine(m: Member, status: Status, a: string)
    requires Grep(a, m.peer)
    ensures Grep(a, m.Line(status))
  {
    if status == Unstarted {
      GrepRest(a, "[unstarted]: peerURLs=", m.peer);
      GrepRest(a, m.id, "[unstarted]: peerURLs=" + m.peer);
    } else {
      var rest := " clientURLs=" + (m.client + Role(status));
      GrepPart(a, " peerURLs=", m.peer, rest);
      UrlsInLine(m, status, a);
    }
  }

  lemma UrlsInLine(m: Member, status: Status, a: string)
    requires status != Unstarted
    requires Grep(a, " peerURLs=" + (m.peer + (" clientURLs=" + (m.client + Role(status)))))
    ensures Grep(a, m.Line(status))
  {
    var urls := " peerURLs=" + (m.peer + (" clientURLs=" + (m.client + Role(status))));
    GrepRest(a, m.name, urls);
    GrepRest(a, ": name=", m.name + urls);
    GrepRest(a, m.id, ": name=" + (m.name + urls));
  }

  /** Every line of a member holds its address. */
  lemma OwnLineMatches(g: Group, h: Host, status: Status)
    requires g.Valid() && h in g.hosts
    ensures Grep(g.addresses[h], MemberOf(g, h).Line(status))
  {
    var a := g.addresses[h];
    assert MatchesAt(a, a, 0);
    GrepPart(a, "https://", a, ":2380");
    PeerInLine(MemberOf(g, h), status, a);
  }

  /***** The protocol *****/

  /** The members, who was found among them, who was added in which order, and the cluster
      list last written into each host's configuration. */
  datatype Cluster = Cluster(
    members: seq<Member>, found: map<Host, bool>, added: seq<Host>, config: map<Host, string>)

  /** What the tasks start from: the members, the cluster list in each host's configuration, and
      what the listings to come will show. */
  datatype Start = Start(members: seq<Member>, config: map<Host, string>, views: nat -> View)

  function Checked(g: Group, members: seq<Member>, view: View): map<Host, bool>
    requires g.Valid()
  {
    map h | h in g.hosts :: Listed(members, view, g.addresses[h])
  }

  predicate IsRecorded(found: map<Host, bool>, h: Host) {
    h in found && found[h]
  }

  /** The hosts recorded as members, in group order. */
  function Recorded(hosts: seq<Host>, found: map<Host, bool>): seq<Host> {
    if hosts == [] then []
    else
      var init, last := Recorded(hosts[..|hosts| - 1], found), hosts[|hosts| - 1];
      if IsRecorded(found, last) then init + [last] else init
  }

  function Entries(g: Group, hs: seq<Host>): (r: seq<string>)
    requires g.Valid() && forall h :: h in hs ==> h in g.hosts
    ensures |r| == |hs|
    ensures forall i :: 0 <= i < |hs| ==> r[i] == Entry(MemberOf(g, hs[i]))
  {
    seq(|hs|, i requires 0 <= i < |hs| => Entry(MemberOf(g, hs[i])))
  }

  lemma {:induction false} RecordedIs(hosts: seq<Host>, found: map<Host, bool>)
    ensures forall h :: h in Recorded(hosts, found) <==> h in hosts && IsRecorded(found, h)
    ensures Distinct(hosts) ==> Distinct(Recorded(hosts, found))
  {
    if hosts == [] {
    } else {
      var init, last := hosts[..|hosts| - 1], hosts[|hosts| - 1];
      RecordedIs(init, found);
      assert hosts == init + [last];
      if Distinct(hosts) {
        DistinctHere(hosts, |hosts| - 1);
        if IsRecorded(found, last) {
          DistinctPush(Recorded(init, found), last);
        }
      }
    }
  }

  /** The list rendered while `target` joins: the recorded members, then the joiner. */
  function InitialCluster(g: Group, found: map<Host, bool>, target: Host): string
    requires g.Valid() && target in g.hosts
  {
    RecordedIs(g.hosts, found);
    Join(Entries(g, Recorded(g.hosts, found) + [target]), ",")
  }

  function JoinOne(g: Group, c: Cluster, target: Host, view: View): Cluster
    requires g.Valid() && target in g.hosts
  {
    var members := c.members + [MemberOf(g, target)];
    Cluster(members,
            c.found[target := Listed(members, view, g.addresses[target])],
            c.added + [target],
            c.config[target := InitialCluster(g, c.found, target)])
  }

  /** One turn of the loop: a host that is not recorded joins, if the cluster is healthy. */
  function Turn(g: Group, healthy: bool, c: Cluster, h: Host, view: View): Cluster
    requires g.Valid() && h in g.hosts
  {
    if healthy && !IsRecorded(c.found, h) then JoinOne(g, c, h, view) else c
  }

  /** The loop over the group, after `n` of its hosts; `views(n)` is what the check after the
      `n`th of them sees. */
  function JoinLoop(g: Group, healthy: bool, c: Cluster, n: nat, views: nat -> View): Cluster
    requires g.Valid() && n <= |g.hosts|
  {
    if n == 0 then c
    else Turn(g, healthy, JoinLoop(g, healthy, c, n - 1, views), g.hosts[n - 1], views(n))
  }

  /** The membership check, then the loop. */
  function Joined(g: Group, healthy: bool, start: Start, n: nat): Cluster
    requires g.Valid() && n <= |g.hosts|
  {
    var checked := Checked(g, start.members, start.views(0));
    JoinLoop(g, healthy, Cluster(start.members, checked, [], start.config), n, start.views)
  }

  lemma RecordedPart(hosts: seq<Host>, found: map<Host, bool>, n: nat)
    requires n <= |hosts|
    ensures forall h :: h in Recorded(hosts[..n], found) ==> h in hosts
  {
    RecordedIs(hosts[..n], found);
  }

  /** What the template has written after the first `n` hosts. */
  ghost function RenderedFirst(g: Group, found: map<Host, bool>, n: nat): string
    requires g.Valid() && n <= |g.hosts|
  {
    RecordedPart(g.hosts, found, n);
    Terminated(Entries(g, Recorded(g.hosts[..n], found)))
  }

  lemma EntriesPush(g: Group, hs: seq<Host>, h: Host)
    requires g.Valid() && h in g.hosts && forall x :: x in hs ==> x in g.hosts
    ensures Entries(g, hs + [h]) == Entries(g, hs) + [Entry(MemberOf(g, h))]
  {
  }

  lemma RecordedNext(hosts: seq<Host>, found: map<Host, bool>, i: nat)
    requires i < |hosts|
    ensures Recorded(hosts[..i + 1], found) ==
      if IsRecorded(found, hosts[i]) then Recorded(hosts[..i], found) + [hosts[i]]
      else Recorded(hosts[..i], found)
  {
    assert hosts[..i + 1][..i] == hosts[..i] && hosts[..i + 1][i] == hosts[i];
  }

  lemma RenderedStep(g: Group, found: map<Host, bool>, i: nat)
    requires g.Valid() && i < |g.hosts|
    ensures var h := g.hosts[i];
      RenderedFirst(g, found, i + 1) ==
        if IsRecorded(found, h) then RenderedFirst(g, found, i) + (Entry(MemberOf(g, h)) + ",")
        else RenderedFirst(g, found, i)
  {
    var h := g.hosts[i];
    RecordedNext(g.hosts, found, i);
    RecordedPart(g.hosts, found, i);
    if IsRecorded(found, h) {
      EntriesPush(g, Recorded(g.hosts[..i], found), h);
      TerminatedPush(Entries(g, Recorded(g.hosts[..i], found)), Entry(MemberOf(g, h)));
      Regroup(RenderedFirst(g, found, i), Entry(MemberOf(g, h)), ",");
    }
  }

  lemma RenderedAll(g: Group, found: map<Host, bool>, target: Host)
    requires g.Valid() && target in g.hosts
    ensures RenderedFirst(g, found, |g.hosts|) + Entry(MemberOf(g, target)) == InitialCluster(g, found, target)
  {
    assert g.hosts[..|g.hosts|] == g.hosts;
    RecordedIs(g.hosts, found);
    EntriesPush(g, Recorded(g.hosts, found), target);
    TerminatedJoin(Entries(g, Recorded(g.hosts, found)), Entry(MemberOf(g, target)));
  }

  /***** The program *****/

  class JoinPlay {
    const group: Group
    var members: seq<Member>
    var found: map<Host, bool>
    var added: seq<Host>
    var config: map<Host, string>

    constructor (group: Group, members: seq<Member>, config: map<Host, string>)
      ensures this.group == group && this.members == members && this.config == config && added == []
    {
      this.group := group;
      this.members, this.config := members, config;
      found, added := map[], [];
    }

    ghost function State(): Cluster
      reads this
    {
      Cluster(members, found, added, config)
    }

    method CheckMembership(view: View)
      requires group.Valid()
      modifies `found
      ensures found == Checked(group, members, view)
    {
      found := map[];
      for i := 0 to |group.hosts|
        invariant found == map h | h in group.hosts[..i] :: Listed(members, view, group.addresses[h])
      {
        var h := group.hosts[i];
        found := found[h := Listed(members, view, group.addresses[h])];
        assert group.hosts[..i + 1] == group.hosts[..i] + [h];
      }
      assert group.hosts[..|group.hosts|] == group.hosts;
    }

    /** The template for the joiner's cluster list: an entry and a comma for each recorded
        host, and the joiner's own entry after the last host. */
    method RenderInitialCluster(target: Host) returns (r: string)
      requires group.Valid() && target in group.hosts
      ensures r == InitialCluster(group, found, target)
    {
      r := "";
      for i := 0 to |group.hosts|
        invariant r == RenderedFirst(group, found, i)
      {
        var h := group.hosts[i];
        RenderedStep(group, found, i);
        IndexOfAt(group.hosts, i);
        if IsRecorded(found, h) {
          var entry := NameAt(i) + "=" + PeerUrl(group.addresses[h]);
          r := r + (entry + ",");
        }
      }
      r := r + Entry(MemberOf(group, target));
      RenderedAll(group, found, target);
    }

    /** join_etcd_member.yml */
    method JoinMember(target: Host, view: View)
      requires group.Valid() && target in group.hosts
      modifies this
      ensures State() == JoinOne(group, old(State()), target, view)
    {
      members := members + [MemberOf(group, target)];
      added := added + [target];
      var rendered := RenderInitialCluster(target);
      config := config[target := rendered];
      found := found[target := Listed(members, view, group.addresses[target])];
    }

    method JoinMembers(healthy: bool, views: nat -> View)
      requires group.Valid() && added == []
      modifies this
      ensures State() == Joined(group, healthy, Start(old(members), old(config), views), |group.hosts|)
    {
      CheckMembership(views(0));
      ghost var start := State();
      for i := 0 to |group.hosts|
        invariant State() == JoinLoop(group, healthy, start, i, views)
      {
        var h := group.hosts[i];
        if healthy && !IsRecorded(found, h) {
          JoinMember(h, views(i + 1));
        }
      }
    }
  }

  lemma IndexOfAt(hosts: seq<Host>, i: nat)
    requires Distinct(hosts) && i < |hosts|
    ensures IndexOf(hosts, hosts[i]) == i
  {
    DistinctAt(hosts, IndexOf(hosts, hosts[i]), i);
  }

  /** Each part followed by a comma. */
  function Terminated(parts: seq<string>): string {
    if parts == [] then "" else parts[0] + "," + Terminated(parts[1..])
  }

  lemma {:induction false} TerminatedPush(parts: seq<string>, part: string)
    ensures Terminated(parts + [part]) == Terminated(parts) + part + ","
  {
    if parts == [] {
    } else {
      assert (parts + [part])[1..] == parts[1..] + [part];
      TerminatedPush(parts[1..], part);
    }
  }

  lemma {:induction false} TerminatedJoin(parts: seq<string>, last: string)
    ensures Terminated(parts) + last == Join(parts + [last], ",")
  {
    if parts == [] {
    } else {
      assert (parts + [last])[1..] == parts[1..] + [last];
      TerminatedJoin(parts[1..], last);
    }
  }

  /***** What every step keeps *****/

  lemma MemberOfInjective(g: Group, h: Host, h': Host)
    requires g.Valid() && h in g.hosts && h' in g.hosts
    requires MemberOf(g, h).name == MemberOf(g, h').name
    ensures h == h'
  {
    var i, j := IndexOf(g.hosts, h), IndexOf(g.hosts, h');
    assert NameAt(i)[4..] == Decimal(i + 1) && NameAt(j)[4..] == Decimal(j + 1);
    DecimalInjective(i + 1, j + 1);
  }

  /** The starting members are hosts of the group, each once, under their index-based names. */
  ghost predicate Named(g: Group, members: seq<Member>)
    requires g.Valid()
  {
    && Distinct(members)
    && forall k :: 0 <= k < |members| ==> exists h :: h in g.hosts && members[k] == MemberOf(g, h)
  }

  /** The hosts that the first check does not find. */
  function Missing(g: Group, start: Start): set<Host>
    requires g.Valid()
  {
    set h | h in g.hosts && !Listed(start.members, start.views(0), g.addresses[h])
  }

  function MembersOf(g: Group, hs: seq<Host>): (ms: seq<Member>)
    requires g.Valid() && forall h :: h in hs ==> h in g.hosts
    ensures |ms| == |hs|
    ensures forall i :: 0 <= i < |hs| ==> ms[i] == MemberOf(g, hs[i])
  {
    seq(|hs|, i requires 0 <= i < |hs| => MemberOf(g, hs[i]))
  }

  lemma MembersPush(g: Group, hs: seq<Host>, h: Host)
    requires g.Valid() && h in g.hosts && forall x :: x in hs ==> x in g.hosts
    ensures MembersOf(g, hs + [h]) == MembersOf(g, hs) + [MemberOf(g, h)]
  {
  }

  /** The joiners among the first `n` hosts of the group. */
  function Joiners(g: Group, missing: set<Host>, n: nat): (hs: seq<Host>)
    requires g.Valid() && n <= |g.hosts|
    ensures forall h :: h in hs ==> h in g.hosts
  {
    Keep(g.hosts[..n], missing)
  }

  lemma JoinersDistinct(g: Group, missing: set<Host>, n: nat)
    requires g.Valid() && n <= |g.hosts|
    ensures Distinct(Joiners(g, missing, n))
  {
    DistinctPart(g.hosts, 0, n);
    assert g.hosts[0..n] == g.hosts[..n];
    KeepDistinct(g.hosts[..n], missing);
  }

  /** What a healthy loop has done after `n` hosts: exactly those the first check missed were
      added, in group order, under their index-based names, and exactly the hosts it found or
      that were added since are recorded. */
  ghost predicate StepDone(g: Group, members: seq<Member>, missing: set<Host>, c: Cluster, n: nat)
    requires g.Valid() && n <= |g.hosts|
  {
    && c.added == Joiners(g, missing, n)
    && c.members == members + MembersOf(g, Joiners(g, missing, n))
    && forall h :: h in g.hosts ==> (IsRecorded(c.found, h) <==> h !in missing || h in g.hosts[..n])
  }

  lemma JoinersGrow(g: Group, members: seq<Member>, missing: set<Host>, n: nat)
    requires g.Valid() && n < |g.hosts|
    ensures var h := g.hosts[n];
      if h in missing
      then Joiners(g, missing, n + 1) == Joiners(g, missing, n) + [h] &&
           members + MembersOf(g, Joiners(g, missing, n)) + [MemberOf(g, h)] ==
             members + MembersOf(g, Joiners(g, missing, n + 1))
      else Joiners(g, missing, n + 1) == Joiners(g, missing, n)
  {
    KeepNext(g.hosts, missing, n);
    MembersPush(g, Joiners(g, missing, n), g.hosts[n]);
  }

  lemma JoinerIsListed(g: Group, c: Cluster, h: Host, view: View)
    requires g.Valid() && h in g.hosts
    ensures JoinOne(g, c, h, view).found == c.found[h := true]
  {
    var members' := c.members + [MemberOf(g, h)];
    OwnLineMatches(g, h, view(MemberOf(g, h)));
    assert members'[|c.members|] == MemberOf(g, h);
  }

  lemma TurnDone(g: Group, members: seq<Member>, missing: set<Host>, c: Cluster, n: nat, view: View)
    requires g.Valid() && n < |g.hosts| && StepDone(g, members, missing, c, n)
    ensures StepDone(g, members, missing, Turn(g, true, c, g.hosts[n], view), n + 1)
  {
    var h := g.hosts[n];
    NextSlice(g.hosts, n);
    DistinctHere(g.hosts, n);
    JoinersGrow(g, members, missing, n);
    JoinerIsListed(g, c, h, view);
  }

  lemma StartDone(g: Group, start: Start)
    requires g.Valid()
    ensures StepDone(g, start.members, Missing(g, start), Joined(g, true, start, 0), 0)
  {
    assert start.members + [] == start.members;
  }

  lemma {:induction false} EveryStep(g: Group, start: Start, n: nat)
    requires g.Valid() && n <= |g.hosts|
    ensures StepDone(g, start.members, Missing(g, start), Joined(g, true, start, n), n)
  {
    if n == 0 {
      StartDone(g, start);
    } else {
      EveryStep(g, start, n - 1);
      TurnDone(g, start.members, Missing(g, start), Joined(g, true, start, n - 1), n - 1, start.views(n));
    }
  }

  /** No host outside the cluster is taken for a member: its address does not match the line
      of any member in the first listing. */
  ghost predicate NoFalseMatch(g: Group, start: Start)
    requires g.Valid()
  {
    forall h :: h in g.hosts && MemberOf(g, h) !in start.members ==> h in Missing(g, start)
  }

  lemma MemberIsListed(g: Group, start: Start, h: Host)
    requires g.Valid() && h in g.hosts && MemberOf(g, h) in start.members
    ensures h !in Missing(g, start)
  {
    var k :| 0 <= k < |start.members| && start.members[k] == MemberOf(g, h);
    OwnLineMatches(g, h, start.views(0)(start.members[k]));
  }

  lemma MemberAfter(g: Group, members: seq<Member>, hs: seq<Host>, h: Host)
    requires g.Valid() && h in g.hosts && forall x :: x in hs ==> x in g.hosts
    ensures MemberOf(g, h) in members + MembersOf(g, hs) <==> MemberOf(g, h) in members || h in hs
  {
    if h in hs {
      var i :| 0 <= i < |hs| && hs[i] == h;
      assert MembersOf(g, hs)[i] == MemberOf(g, h);
    } else if MemberOf(g, h) in MembersOf(g, hs) {
      var i :| 0 <= i < |hs| && MembersOf(g, hs)[i] == MemberOf(g, h);
      MemberOfInjective(g, hs[i], h);
    }
  }

  /** Who is a member after `n` hosts. */
  lemma MembersAfter(g: Group, start: Start, n: nat, h: Host)
    requires g.Valid() && n <= |g.hosts| && h in g.hosts
    ensures MemberOf(g, h) in Joined(g, true, start, n).members <==>
      MemberOf(g, h) in start.members || (h in g.hosts[..n] && h in Missing(g, start))
  {
    EveryStep(g, start, n);
    MemberAfter(g, start.members, Joiners(g, Missing(g, start), n), h);
  }

  /** With no false match, after every step the recorded hosts are exactly the members. */
  lemma RecordedAreMembers(g: Group, start: Start, n: nat, h: Host)
    requires g.Valid() && n <= |g.hosts| && NoFalseMatch(g, start) && h in g.hosts
    ensures var c := Joined(g, true, start, n);
      IsRecorded(c.found, h) <==> MemberOf(g, h) in c.members
  {
    EveryStep(g, start, n);
    MembersAfter(g, start, n, h);
    if MemberOf(g, h) in start.members {
      MemberIsListed(g, start, h);
    }
  }

  /** The loop ends with every host of the group a member exactly when the first check takes
      no host outside the cluster for a member. */
  lemma AllJoin(g: Group, start: Start)
    requires g.Valid()
    ensures var c := Joined(g, true, start, |g.hosts|);
      (forall h :: h in g.hosts ==> MemberOf(g, h) in c.members) <==> NoFalseMatch(g, start)
  {
    var n := |g.hosts|;
    assert g.hosts[..n] == g.hosts;
    forall h | h in g.hosts
      ensures MemberOf(g, h) in Joined(g, true, start, n).members <==>
        MemberOf(g, h) in start.members || h in Missing(g, start)
    {
      MembersAfter(g, start, n, h);
    }
  }

  /** One `member add` for each host that was not a member, in group order, and no other. */
  lemma AddedOnce(g: Group, start: Start)
    requires g.Valid() && NoFalseMatch(g, start)
    ensures var c := Joined(g, true, start, |g.hosts|);
      && Distinct(c.added)
      && forall h :: h in c.added <==> h in g.hosts && MemberOf(g, h) !in start.members
  {
    var n := |g.hosts|;
    EveryStep(g, start, n);
    JoinersDistinct(g, Missing(g, start), n);
    assert g.hosts[..n] == g.hosts;
    forall h | h in g.hosts ensures h !in Missing(g, start) <==> MemberOf(g, h) in start.members {
      if MemberOf(g, h) in start.members {
        MemberIsListed(g, start, h);
      }
    }
  }

  /** An unhealthy cluster is left alone. */
  lemma {:induction false} UnhealthyUntouched(g: Group, start: Start, n: nat)
    requires g.Valid() && n <= |g.hosts|
    ensures Joined(g, false, start, n) ==
      Cluster(start.members, Checked(g, start.members, start.views(0)), [], start.config)
  {
    if n == 0 {
    } else {
      UnhealthyUntouched(g, start, n - 1);
    }
  }

  /***** The rendered cluster list *****/

  lemma NameHasNoMarks(i: nat)
    ensures ',' !in NameAt(i) && '=' !in NameAt(i)
  {
    forall c | c in Decimal(i + 1) ensures IsDigit(c) {
      var k :| 0 <= k < |Decimal(i + 1)| && Decimal(i + 1)[k] == c;
    }
  }

  lemma EntryHasNoComma(g: Group, h: Host)
    requires g.Valid() && h in g.hosts
    ensures ',' !in Entry(MemberOf(g, h))
  {
    NameHasNoMarks(IndexOf(g.hosts, h));
  }

  lemma EntryInjective(g: Group, h: Host, h': Host)
    requires g.Valid() && h in g.hosts && h' in g.hosts
    requires Entry(MemberOf(g, h)) == Entry(MemberOf(g, h'))
    ensures h == h'
  {
    var m, m' := MemberOf(g, h), MemberOf(g, h');
    NameHasNoMarks(IndexOf(g.hosts, h));
    NameHasNoMarks(IndexOf(g.hosts, h'));
    assert Entry(m) == m.name + ['='] + m.peer && Entry(m') == m'.name + ['='] + m'.peer;
    SplitAtSeparator(m.name, '=', m.peer);
    SplitAtSeparator(m'.name, '=', m'.peer);
    assert Split(Entry(m), '=')[0] == m.name && Split(Entry(m'), '=')[0] == m'.name;
    MemberOfInjective(g, h, h');
  }

  /** The list written while a host joins, read back at its commas, names every current member
      and the joiner, each exactly once, with the name and URL it was added under. */
  lemma RenderedCluster(g: Group, start: Start, n: nat, target: Host)
    requires g.Valid() && n <= |g.hosts| && NoFalseMatch(g, start) && Named(g, start.members)
    requires target in g.hosts && MemberOf(g, target) !in Joined(g, true, start, n).members
    ensures var c := Joined(g, true, start, n);
      var entries := Split(InitialCluster(g, c.found, target), ',');
      && Distinct(entries)
      && (forall h :: h in g.hosts ==>
           (Entry(MemberOf(g, h)) in entries <==> MemberOf(g, h) in c.members || h == target))
      && (forall m :: m in c.members ==> Entry(m) in entries)
      && (forall e :: e in entries ==> exists h :: h in g.hosts && e == Entry(MemberOf(g, h)))
  {
    var c := Joined(g, true, start, n);
    RecordedAreMembers(g, start, n, target);
    RecordedIs(g.hosts, c.found);
    var hs := Recorded(g.hosts, c.found) + [target];
    SplitEntries(g, hs);
    DistinctPush(Recorded(g.hosts, c.found), target);
    EntriesDistinct(g, hs);
    forall h | h in g.hosts
      ensures Entry(MemberOf(g, h)) in Entries(g, hs) <==> MemberOf(g, h) in c.members || h == target
    {
      EntryIn(g, hs, h);
      RecordedAreMembers(g, start, n, h);
    }
    forall m | m in c.members ensures Entry(m) in Entries(g, hs) {
      var h := MemberHost(g, start, n, m);
    }
  }

  /** Every member is a host of the group under its index-based name. */
  lemma MemberHost(g: Group, start: Start, n: nat, m: Member) returns (h: Host)
    requires g.Valid() && n <= |g.hosts| && Named(g, start.members)
    requires m in Joined(g, true, start, n).members
    ensures h in g.hosts && m == MemberOf(g, h)
  {
    EveryStep(g, start, n);
    var hs := Joiners(g, Missing(g, start), n);
    if m in start.members {
      var k :| 0 <= k < |start.members| && start.members[k] == m;
      h :| h in g.hosts && start.members[k] == MemberOf(g, h);
    } else {
      var k :| 0 <= k < |hs| && MembersOf(g, hs)[k] == m;
      h := hs[k];
    }
  }

  lemma SplitEntries(g: Group, hs: seq<Host>)
    requires g.Valid() && hs != [] && forall x :: x in hs ==> x in g.hosts
    ensures Split(Join(Entries(g, hs), ","), ',') == Entries(g, hs)
  {
    forall i | 0 <= i < |hs| ensures ',' !in Entries(g, hs)[i] {
      EntryHasNoComma(g, hs[i]);
    }
    SplitOfJoin(Entries(g, hs), ',');
  }

  lemma EntryIn(g: Group, hs: seq<Host>, h: Host)
    requires g.Valid() && h in g.hosts && forall x :: x in hs ==> x in g.hosts
    ensures Entry(MemberOf(g, h)) in Entries(g, hs) <==> h in hs
  {
    if h in hs {
      var i :| 0 <= i < |hs| && hs[i] == h;
      assert Entries(g, hs)[i] == Entry(MemberOf(g, h));
    } else if Entry(MemberOf(g, h)) in Entries(g, hs) {
      var i :| 0 <= i < |hs| && Entries(g, hs)[i] == Entry(MemberOf(g, h));
      EntryInjective(g, hs[i], h);
    }
  }

  lemma EntriesDistinct(g: Group, hs: seq<Host>)
    requires g.Valid() && Distinct(hs) && forall x :: x in hs ==> x in g.hosts
    ensures Distinct(Entries(g, hs))
  {
    forall i, j | 0 <= i < j < |hs| ensures Differ(Entries(g, hs), i, j) {
      if Entries(g, hs)[i] == Entries(g, hs)[j] {
        EntryInjective(g, hs[i], hs[j]);
        DistinctAt(hs, i, j);
      }
    }
  }
}
