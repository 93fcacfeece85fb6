/** The configuration that the join protocol writes for each joiner. */
module EtcdConfig {
  import opened Text
  import opened Dicts
  import opened EtcdJoin

  /** How a cluster list names the host at place `i` of the group. */
  function Listing(i: nat, address: string): string {
    "etcd" + Decimal(i + 1) + "=https://" + address + ":2380"
  }

  lemma EntryText(g: Group, h: Host)
    requires g.Valid() && h in g.hosts
    ensures Entry(MemberOf(g, h)) == Listing(IndexOf(g.hosts, h), g.addresses[h])
  {
  }

  /** The entries name exactly these hosts of the group, each once. */
  ghost predicate EntriesName(g: Group, entries: seq<string>, named: set<Host>)
    requires g.Valid()
  {
    && Distinct(entries)
    && (forall h :: h in g.hosts ==> (Listing(IndexOf(g.hosts, h), g.addresses[h]) in entries <==> h in named))
    && (forall e :: e in entries ==> exists h :: h in g.hosts && e == Listing(IndexOf(g.hosts, h), g.addresses[h]))
  }

  /** The list, split at its commas, names exactly these hosts. */
  ghost predicate Names(g: Group, text: string, named: set<Host>)
    requires g.Valid()
  {
    EntriesName(g, Split(text, ','), named)
  }

  lemma EntriesNameIf(g: Group, entries: seq<string>, named: set<Host>)
    requires g.Valid() && Distinct(entries)
    requires forall h :: h in g.hosts ==> (Entry(MemberOf(g, h)) in entries <==> h in named)
    requires forall e :: e in entries ==> exists h :: h in g.hosts && e == Entry(MemberOf(g, h))
    ensures EntriesName(g, entries, named)
  {
    forall h | h in g.hosts ensures Listing(IndexOf(g.hosts, h), g.addresses[h]) in entries <==> h in named {
      EntryText(g, h);
    }
    forall e | e in entries ensures exists h :: h in g.hosts && e == Listing(IndexOf(g.hosts, h), g.addresses[h]) {
      var h :| h in g.hosts && e == Entry(MemberOf(g, h));
      EntryText(g, h);
    }
  }

  /** The hosts that are members after `n` turns. */
  ghost function MemberHosts(g: Group, start: Start, n: nat): set<Host>
    requires g.Valid() && n <= |g.hosts|
  {
    set h | h in g.hosts && MemberOf(g, h) in Joined(g, true, start, n).members
  }

  lemma RenderedNames(g: Group, start: Start, k: nat)
    requires g.Valid() && k < |g.hosts| && NoFalseMatch(g, start) && Named(g, start.members)
    requires MemberOf(g, g.hosts[k]) !in Joined(g, true, start, k).members
    ensures Names(g, InitialCluster(g, Joined(g, true, start, k).found, g.hosts[k]),
                  MemberHosts(g, start, k) + {g.hosts[k]})
  {
    RenderedCluster(g, start, k, g.hosts[k]);
    EntriesNameIf(g, Split(InitialCluster(g, Joined(g, true, start, k).found, g.hosts[k]), ','),
                  MemberHosts(g, start, k) + {g.hosts[k]});
  }

  /***** Turns and configurations *****/

  /** A turn writes the configuration of the joiner, and no other. */
  lemma TurnConfig(g: Group, c: Cluster, h: Host, view: View)
    requires g.Valid() && h in g.hosts
    ensures Turn(g, true, c, h, view).config ==
      if IsRecorded(c.found, h) then c.config else c.config[h := InitialCluster(g, c.found, h)]
  {
  }

  lemma JoinedNext(g: Group, start: Start, n: nat)
    requires g.Valid() && n < |g.hosts|
    ensures Joined(g, true, start, n + 1) ==
      Turn(g, true, Joined(g, true, start, n), g.hosts[n], start.views(n + 1))
  {
  }

  /** Whether the host at place `k` joins is settled by the first check. */
  lemma TurnJoins(g: Group, start: Start, k: nat)
    requires g.Valid() && k < |g.hosts|
    ensures IsRecorded(Joined(g, true, start, k).found, g.hosts[k]) <==> g.hosts[k] !in Missing(g, start)
  {
    EveryStep(g, start, k);
    DistinctHere(g.hosts, k);
  }

  /** The configurations after `n` turns, told from the turns. */
  lemma {:induction false} ConfigWritten(g: Group, start: Start, n: nat, k: nat)
    requires g.Valid() && k < n <= |g.hosts| && g.hosts[k] in Missing(g, start)
    ensures g.hosts[k] in Joined(g, true, start, n).config
    ensures Joined(g, true, start, n).config[g.hosts[k]] ==
      InitialCluster(g, Joined(g, true, start, k).found, g.hosts[k])
  {
    JoinedNext(g, start, n - 1);
    TurnConfig(g, Joined(g, true, start, n - 1), g.hosts[n - 1], start.views(n));
    if k == n - 1 {
      TurnJoins(g, start, k);
    } else {
      ConfigWritten(g, start, n - 1, k);
      DistinctAt(g.hosts, k, n - 1);
    }
  }

  lemma {:induction false} ConfigKept(g: Group, start: Start, n: nat, x: Host)
    requires g.Valid() && n <= |g.hosts| && (x in Missing(g, start) ==> x !in g.hosts[..n])
    ensures var config := Joined(g, true, start, n).config;
      && (x in config <==> x in start.config)
      && (x in config ==> config[x] == start.config[x])
  {
    if n == 0 {
    } else {
      NextSlice(g.hosts, n - 1);
      ConfigKept(g, start, n - 1, x);
      JoinedNext(g, start, n - 1);
      TurnConfig(g, Joined(g, true, start, n - 1), g.hosts[n - 1], start.views(n));
      TurnJoins(g, start, n - 1);
    }
  }

  /** The configuration of the host at place `k` is that of a joiner at its turn. */
  ghost predicate Configured(g: Group, start: Start, c: Cluster, k: nat)
    requires g.Valid() && k < |g.hosts|
  {
    && g.hosts[k] in c.config
    && Names(g, c.config[g.hosts[k]], MemberHosts(g, start, k) + {g.hosts[k]})
  }

  lemma JoinerConfigured(g: Group, start: Start, n: nat, k: nat)
    requires g.Valid() && k < n <= |g.hosts| && NoFalseMatch(g, start) && Named(g, start.members)
    requires MemberOf(g, g.hosts[k]) !in start.members
    ensures Configured(g, start, Joined(g, true, start, n), k)
  {
    ConfigWritten(g, start, n, k);
    MembersAfter(g, start, k, g.hosts[k]);
    DistinctHere(g.hosts, k);
    RenderedNames(g, start, k);
  }

  /** After any number of turns every host that was added has a configuration, and its list names
      exactly the members at its turn and the host itself, each once, as
      `etcd<place>=https://<address>:2380`; every other host has the configuration it had. */
  lemma EveryConfig(g: Group, start: Start, n: nat)
    requires g.Valid() && n <= |g.hosts| && NoFalseMatch(g, start) && Named(g, start.members)
    ensures var c := Joined(g, true, start, n);
      && (forall k :: 0 <= k < n && g.hosts[k] in c.added ==> Configured(g, start, c, k))
      && (forall x :: x in c.added ==> x in g.hosts[..n])
      && (forall x :: x !in c.added ==> (x in c.config <==> x in start.config))
      && (forall x :: x !in c.added && x in c.config && x in start.config ==> c.config[x] == start.config[x])
  {
    var c := Joined(g, true, start, n);
    AddedAre(g, start, n);
    forall k | 0 <= k < n && g.hosts[k] in c.added ensures Configured(g, start, c, k) {
      JoinerConfigured(g, start, n, k);
    }
    forall x | x !in c.added
      ensures x in c.config <==> x in start.config
      ensures x in c.config && x in start.config ==> c.config[x] == start.config[x]
    {
      ConfigKept(g, start, n, x);
    }
  }

  lemma AddedAre(g: Group, start: Start, n: nat)
    requires g.Valid() && n <= |g.hosts|
    ensures forall x :: x in Joined(g, true, start, n).added <==> x in g.hosts[..n] && x in Missing(g, start)
    ensures forall x :: x in Missing(g, start) ==> x in g.hosts && MemberOf(g, x) !in start.members
  {
    EveryStep(g, start, n);
    forall x | x in Missing(g, start) ensures x in g.hosts && MemberOf(g, x) !in start.members {
      if MemberOf(g, x) in start.members {
        MemberIsListed(g, start, x);
      }
    }
  }
}
