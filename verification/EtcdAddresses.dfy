/** When the membership check of the join protocol takes one host for another. It searches the
    whole member list for an address, reading the dots of the address as wildcards. */
module EtcdAddresses {
  import opened Text
  import opened EtcdJoin

  /** Digits in groups that single dots separate, as an IPv4 address is written. */
  ghost predicate Dotted(a: string) {
    && a != "" && IsDigit(a[0]) && IsDigit(a[|a| - 1])
    && (forall i :: 0 <= i < |a| ==> IsDigit(a[i]) || a[i] == '.')
    && (forall i, j :: 0 <= i < j < |a| && j == i + 1 && a[i] == '.' ==> a[j] != '.')
  }

  /** Every host has a dotted address that is longer than the number in any member's name. */
  ghost predicate DottedGroup(g: Group)
    requires g.Valid()
  {
    && (forall h :: h in g.hosts ==> Dotted(g.addresses[h]))
    && (forall h, h' :: h in g.hosts && h' in g.hosts ==>
         |Decimal(IndexOf(g.hosts, h') + 1)| < |g.addresses[h]|)
  }

  const PEER_PORT := ":2380"
  const CLIENT_PORT := ":2379"

  /***** Where a pattern can match *****/

  /** Two characters or more, none of them a digit. */
  ghost predicate Separator(sep: string) {
    |sep| >= 2 && forall c :: c in sep ==> !IsDigit(c)
  }

  lemma MatchShifts(a: string, x: string, y: string, i: nat)
    ensures i + |a| <= |x| ==> (MatchesAt(a, x + y, i) <==> MatchesAt(a, x, i))
    ensures MatchesAt(a, x + y, |x| + i) <==> MatchesAt(a, y, i)
  {
    if MatchesAt(a, x + y, |x| + i) {
      forall j | 0 <= j < |a| ensures a[j] == '.' || a[j] == y[i + j] {
        assert a[j] == '.' || a[j] == (x + y)[|x| + i + j];
      }
    }
  }

  /** A match starts and ends on a digit and spans no two characters that are not digits. */
  lemma NoMatchAcross(a: string, x: string, sep: string, y: string, i: nat)
    requires Dotted(a) && Separator(sep)
    requires i < |x| + |sep| && |x| < i + |a|
    ensures !MatchesAt(a, x + (sep + y), i)
  {
    var text := x + (sep + y);
    if i < |x| {
      var gap := |x| - i;
      assert text[i + gap] == sep[0] && sep[0] in sep;
      assert gap + 1 < |a| ==> text[i + (gap + 1)] == sep[1] && sep[1] in sep;
      assert gap + 1 < |a| && a[gap] == '.' ==> a[gap + 1] != '.';
    } else {
      assert text[i + 0] == sep[i - |x|] && sep[i - |x|] in sep;
    }
  }

  /** A dotted pattern matches on one side of a separator, or not at all. */
  lemma GrepAcross(a: string, x: string, sep: string, y: string)
    requires Dotted(a) && Separator(sep)
    ensures Grep(a, x + (sep + y)) <==> Grep(a, x) || Grep(a, y)
  {
    var text := x + (sep + y);
    if Grep(a, text) {
      var i :| 0 <= i <= |text| && MatchesAt(a, text, i);
      if i + |a| <= |x| {
        MatchShifts(a, x, sep + y, i);
      } else if i < |x| + |sep| {
        NoMatchAcross(a, x, sep, y, i);
      } else {
        MatchShifts(a, x, sep + y, i - |x|);
        MatchShifts(a, sep, y, i - |x| - |sep|);
      }
    }
    if Grep(a, x) {
      GrepStart(a, x, sep + y);
    }
    if Grep(a, y) {
      GrepRest(a, sep, y);
      GrepRest(a, x, sep + y);
    }
  }

  lemma TooShort(a: string, text: string)
    requires |text| < |a|
    ensures !Grep(a, text)
  {
  }

  /***** Where an address matches a line *****/

  /** The line shows the id, the address with the peer port and, once the member has started,
      with the client port. */
  predicate Shows(id: string, address: string, status: Status, a: string) {
    || Grep(a, id)
    || Grep(a, address + PEER_PORT)
    || (status != Unstarted && Grep(a, address + CLIENT_PORT))
  }

  /** A line between separators: id, number, address and peer port, address and client port. */
  lemma PartsGrep(a: string, id: string, s1: string, digits: string, s2: string, peer: string, s3: string,
                  client: string, s4: string)
    requires Dotted(a) && Separator(s1) && Separator(s2) && Separator(s3) && Separator(s4) && |digits| < |a|
    ensures Grep(a, id + (s1 + (digits + (s2 + (peer + (s3 + (client + s4))))))) <==>
      Grep(a, id) || Grep(a, peer) || Grep(a, client)
  {
    TooShort(a, "");
    TooShort(a, digits);
    assert client + (s4 + "") == client + s4;
    GrepAcross(a, client, s4, "");
    GrepAcross(a, peer, s3, client + s4);
    GrepAcross(a, digits, s2, peer + (s3 + (client + s4)));
    GrepAcross(a, id, s1, digits + (s2 + (peer + (s3 + (client + s4)))));
  }

  lemma Regroup4(a: string, b: string, c: string, d: string)
    ensures a + ((b + c) + d) == (a + b) + (c + d)
  {
  }

  lemma UnstartedMark()
    ensures Separator("[unstarted]: peerURLs=" + "https://")
  {
  }

  lemma NameMark()
    ensures Separator(": name=" + "etcd")
  {
  }

  lemma PeerMark()
    ensures Separator(" peerURLs=" + "https://")
  {
  }

  lemma ClientMark()
    ensures Separator(" clientURLs=" + "https://")
  {
  }

  lemma RoleMark(status: Status)
    ensures Separator(Role(status))
  {
  }

  lemma UnstartedGrep(a: string, m: Member, address: string)
    requires Dotted(a) && m.peer == PeerUrl(address)
    ensures Grep(a, m.Line(Unstarted)) <==> Shows(m.id, address, Unstarted, a)
  {
    UnstartedMark();
    Regroup("[unstarted]: peerURLs=", "https://", address + PEER_PORT);
    GrepAcross(a, m.id, "[unstarted]: peerURLs=" + "https://", address + PEER_PORT);
  }

  lemma StartedLine(m: Member, status: Status, digits: string, peer: string, client: string)
    requires status != Unstarted && m.name == "etcd" + digits
    requires m.peer == "https://" + peer && m.client == "https://" + client
    ensures m.Line(status) ==
      m.id + ((": name=" + "etcd") + (digits + ((" peerURLs=" + "https://") +
        (peer + ((" clientURLs=" + "https://") + (client + Role(status)))))))
  {
    var role := Role(status);
    Regroup4(" clientURLs=", "https://", client, role);
    var u3 := (" clientURLs=" + "https://") + (client + role);
    Regroup4(" peerURLs=", "https://", peer, u3);
    var u2 := (" peerURLs=" + "https://") + (peer + u3);
    Regroup4(": name=", "etcd", digits, u2);
  }

  lemma StartedGrep(a: string, m: Member, status: Status, digits: string, address: string)
    requires Dotted(a) && |digits| < |a| && status != Unstarted && m.name == "etcd" + digits
    requires m.peer == PeerUrl(address) && m.client == ClientUrl(address)
    ensures Grep(a, m.Line(status)) <==> Shows(m.id, address, status, a)
  {
    NameMark();
    PeerMark();
    ClientMark();
    RoleMark(status);
    StartedLine(m, status, digits, address + PEER_PORT, address + CLIENT_PORT);
    PartsGrep(a, m.id, ": name=" + "etcd", digits, " peerURLs=" + "https://", address + PEER_PORT,
              " clientURLs=" + "https://", address + CLIENT_PORT, Role(status));
  }

  /** An address matches a member's line only in its id and in its address with a port. */
  lemma LineGrep(g: Group, h: Host, h': Host, status: Status)
    requires g.Valid() && DottedGroup(g) && h in g.hosts && h' in g.hosts
    ensures Grep(g.addresses[h], MemberOf(g, h').Line(status)) <==>
      Shows(g.ids[h'], g.addresses[h'], status, g.addresses[h])
  {
    var m := MemberOf(g, h');
    if status == Unstarted {
      UnstartedGrep(g.addresses[h], m, g.addresses[h']);
    } else {
      StartedGrep(g.addresses[h], m, status, Decimal(IndexOf(g.hosts, h') + 1), g.addresses[h']);
    }
  }

  /***** Who never joins *****/

  /** The first listing shows the address of `h` in the line of `h'`. */
  predicate Shadowed(g: Group, start: Start, h: Host, h': Host)
    requires g.Valid() && h in g.hosts && h' in g.hosts
  {
    Shows(g.ids[h'], g.addresses[h'], start.views(0)(MemberOf(g, h')), g.addresses[h])
  }

  /** No address of a host outside the cluster matches an id of a member, or a member's address
      with a port. */
  ghost predicate NoShadow(g: Group, start: Start)
    requires g.Valid()
  {
    forall h, h' :: h in g.hosts && h' in g.hosts && MemberOf(g, h) !in start.members ==>
      MemberOf(g, h') in start.members ==> !Shadowed(g, start, h, h')
  }

  lemma LineOf(g: Group, start: Start, h: Host, h': Host)
    requires g.Valid() && DottedGroup(g) && h in g.hosts && h' in g.hosts
    ensures Grep(g.addresses[h], MemberOf(g, h').Line(start.views(0)(MemberOf(g, h')))) <==> Shadowed(g, start, h, h')
  {
    LineGrep(g, h, h', start.views(0)(MemberOf(g, h')));
  }

  lemma FoundBy(g: Group, start: Start, h: Host) returns (h': Host)
    requires g.Valid() && DottedGroup(g) && Named(g, start.members) && h in g.hosts && h !in Missing(g, start)
    ensures h' in g.hosts && MemberOf(g, h') in start.members && Shadowed(g, start, h, h')
  {
    var k :| 0 <= k < |start.members|
      && Grep(g.addresses[h], start.members[k].Line(start.views(0)(start.members[k])));
    h' :| h' in g.hosts && start.members[k] == MemberOf(g, h');
    LineOf(g, start, h, h');
  }

  lemma FoundIf(g: Group, start: Start, h: Host, h': Host)
    requires g.Valid() && h in g.hosts && h' in g.hosts && MemberOf(g, h') in start.members
    requires Grep(g.addresses[h], MemberOf(g, h').Line(start.views(0)(MemberOf(g, h'))))
    ensures h !in Missing(g, start)
  {
    var k :| 0 <= k < |start.members| && start.members[k] == MemberOf(g, h');
  }

  lemma MissingIs(g: Group, start: Start, h: Host)
    requires g.Valid() && DottedGroup(g) && Named(g, start.members) && h in g.hosts
    ensures h !in Missing(g, start) <==>
      exists h' :: h' in g.hosts && MemberOf(g, h') in start.members && Shadowed(g, start, h, h')
  {
    if h !in Missing(g, start) {
      var h' := FoundBy(g, start, h);
    }
    forall h' | h' in g.hosts && MemberOf(g, h') in start.members && Shadowed(g, start, h, h')
      ensures h !in Missing(g, start)
    {
      LineOf(g, start, h, h');
      FoundIf(g, start, h, h');
    }
  }

  /** Told from the ids and the addresses alone: the loop ends with every host a member exactly
      when no address of a host outside the cluster matches an id of a member, or a member's
      address with its peer port or, once it has started, its client port. */
  lemma AddressesDecide(g: Group, start: Start)
    requires g.Valid() && DottedGroup(g) && Named(g, start.members)
    ensures var c := Joined(g, true, start, |g.hosts|);
      (forall h :: h in g.hosts ==> MemberOf(g, h) in c.members) <==> NoShadow(g, start)
  {
    AllJoin(g, start);
    forall h | h in g.hosts
      ensures h !in Missing(g, start) <==>
        exists h' :: h' in g.hosts && MemberOf(g, h') in start.members && Shadowed(g, start, h, h')
    {
      MissingIs(g, start, h);
    }
  }

  /** The tail of a member's address, a dot, and digits that one of its ports completes. */
  predicate PortCompletes(address: string, status: Status, a: string, x: string, y: string, p: string) {
    && address == x + y
    && a == y + "." + p
    && (p <= "2380" || (status != Unstarted && p <= "2379"))
  }

  /** A host whose address is contained in a member's address never joins; nor does one whose
      address a port of the member completes. */
  lemma ShadowedNeverJoins(g: Group, start: Start, n: nat, h: Host, h': Host, x: string, y: string, p: string)
    requires g.Valid() && n <= |g.hosts| && h in g.hosts && h' in g.hosts
    requires MemberOf(g, h) !in start.members && MemberOf(g, h') in start.members
    requires
      || g.addresses[h'] == x + g.addresses[h] + y
      || PortCompletes(g.addresses[h'], start.views(0)(MemberOf(g, h')), g.addresses[h], x, y, p)
    ensures MemberOf(g, h) !in Joined(g, true, start, n).members
  {
    var a, address, status := g.addresses[h], g.addresses[h'], start.views(0)(MemberOf(g, h'));
    if address == x + a + y {
      assert MatchesAt(a, a, 0);
      GrepPart(a, x, a, y + PEER_PORT);
      assert x + (a + (y + PEER_PORT)) == address + PEER_PORT;
    } else if p <= "2380" {
      PortMatches(x, y, p, "2380");
      assert ":" + "2380" == PEER_PORT;
    } else {
      PortMatches(x, y, p, "2379");
      assert ":" + "2379" == CLIENT_PORT;
    }
    ShownIsFound(g, h', status, a);
    FoundIf(g, start, h, h');
    MembersAfter(g, start, n, h);
  }

  lemma PortMatches(x: string, y: string, p: string, port: string)
    requires p <= port
    ensures Grep(y + "." + p, x + y + (":" + port))
  {
    var a, text := y + "." + p, x + y + (":" + port);
    forall j | 0 <= j < |a| ensures a[j] == '.' || a[j] == text[|x| + j] {
      if j < |y| {
        assert a[j] == y[j];
      } else if j > |y| {
        assert a[j] == p[j - |y| - 1];
      }
    }
    assert MatchesAt(a, text, |x|);
  }

  lemma ShownIsFound(g: Group, h: Host, status: Status, a: string)
    requires g.Valid() && h in g.hosts
    requires Grep(a, g.addresses[h] + PEER_PORT) || (status != Unstarted && Grep(a, g.addresses[h] + CLIENT_PORT))
    ensures Grep(a, MemberOf(g, h).Line(status))
  {
    var m := MemberOf(g, h);
    if Grep(a, g.addresses[h] + PEER_PORT) {
      GrepRest(a, "https://", g.addresses[h] + PEER_PORT);
      PeerInLine(m, status, a);
    } else {
      GrepRest(a, "https://", g.addresses[h] + CLIENT_PORT);
      GrepPart(a, " clientURLs=", m.client, Role(status));
      GrepRest(a, m.peer, " clientURLs=" + (m.client + Role(status)));
      GrepRest(a, " peerURLs=", m.peer + (" clientURLs=" + (m.client + Role(status))));
      UrlsInLine(m, status, a);
    }
  }
}
