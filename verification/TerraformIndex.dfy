/** The dynamic inventory built from Terraform hosts: the overlay of floating addresses, the
    inverted group index, and the scan for one host. */
module TerraformIndex {
  import opened Text
  import opened Dicts

  type Attrs = map<string, string>

  datatype Record = Record(name: string, attrs: Attrs, groups: seq<string>)

  /** `host[1]['id']` on a host without an id. */
  datatype Failure = NoId

  datatype Entry = Hosts(hosts: seq<string>) | Meta(hostvars: map<string, Attrs>)

  const META := "_meta"

  /** What iter_host_ips writes. */
  const ADDRESS_FIELDS: seq<string> := ["access_ip_v4", "public_ipv4", "ansible_ssh_host"]

  /***** Specifications *****/

  function WithAddress(attrs: Attrs, ip: string): Attrs {
    attrs["access_ip_v4" := ip]["public_ipv4" := ip]["ansible_ssh_host" := ip]
  }

  /** One host as the queries see it: overlaid when there are floating addresses at all. */
  function Seen(r: Record, ips: map<string, string>): Result<Record, Failure> {
    if ips == map[] then Ok(r)
    else if "id" !in r.attrs then Err(NoId)
    else if r.attrs["id"] in ips then Ok(r.(attrs := WithAddress(r.attrs, ips[r.attrs["id"]])))
    else Ok(r)
  }

  function AllSeen(records: seq<Record>, ips: map<string, string>): Result<seq<Record>, Failure> {
    if records == [] then Ok([])
    else match AllSeen(records[..|records| - 1], ips)
      case Err(e) => Err(e)
      case Ok(done) =>
        match Seen(records[|records| - 1], ips)
        case Err(e) => Err(e)
        case Ok(r) => Ok(done + [r])
  }

  /** The names of the records that list a group, in record order. */
  function Listing(records: seq<Record>, group: string): seq<string> {
    if records == [] then []
    else
      var last := records[|records| - 1];
      Listing(records[..|records| - 1], group) + if group in last.groups then [last.name] else []
  }

  function GroupsOf(records: seq<Record>): (gs: set<string>)
    ensures forall g :: g in gs <==> exists i :: 0 <= i < |records| && g in records[i].groups
  {
    if records == [] then {}
    else
      var init, last := records[..|records| - 1], records[|records| - 1];
      assert forall i :: 0 <= i < |init| ==> init[i] == records[i];
      GroupsOf(init) + SetOf(last.groups)
  }

  /** The last record of each name. */
  function Hostvars(records: seq<Record>): map<string, Attrs> {
    if records == [] then map[]
    else
      var last := records[|records| - 1];
      Hostvars(records[..|records| - 1])[last.name := last.attrs]
  }

  function Grouping(records: seq<Record>): map<string, Entry> {
    map g | g in GroupsOf(records) :: Hosts(Listing(records, g))
  }

  function Index(records: seq<Record>): map<string, Entry> {
    Grouping(records)[META := Meta(Hostvars(records))]
  }

  /** The first record of that name, read lazily: records after it are never looked at. */
  function FirstNamed(records: seq<Record>, ips: map<string, string>, target: string): Result<Attrs, Failure> {
    if records == [] then Ok(map[])
    else match Seen(records[0], ips)
      case Err(e) => Err(e)
      case Ok(r) => if r.name == target then Ok(r.attrs) else FirstNamed(records[1..], ips, target)
  }

  /***** The program *****/

  method IterHostIp(host: Record, ips: map<string, string>) returns (r: Result<Record, Failure>)
    requires ips != map[]
    ensures r == Seen(host, ips)
  {
    if "id" !in host.attrs {
      return Err(NoId);
    }
    var hostId := host.attrs["id"];
    var attrs := host.attrs;
    if hostId in ips {
      var ip := ips[hostId];
      attrs := attrs["access_ip_v4" := ip];
      attrs := attrs["public_ipv4" := ip];
      attrs := attrs["ansible_ssh_host" := ip];
    }
    return Ok(Record(host.name, attrs, host.groups));
  }

  /** The next host of the stream that main() hands to a query. */
  method NextHost(host: Record, ips: map<string, string>) returns (r: Result<Record, Failure>)
    ensures r == Seen(host, ips)
  {
    if ips == map[] {
      return Ok(host);
    }
    r := IterHostIp(host, ips);
  }

  method QueryHost(hosts: seq<Record>, ips: map<string, string>, target: string) returns (r: Result<Attrs, Failure>)
    ensures r == FirstNamed(hosts, ips, target)
  {
    for i := 0 to |hosts|
      invariant FirstNamed(hosts, ips, target) == FirstNamed(hosts[i..], ips, target)
    {
      var host := NextHost(hosts[i], ips);
      if host.Err? {
        return Err(host.error);
      }
      if host.value.name == target {
        return Ok(host.value.attrs);
      }
    }
    return Ok(map[]);
  }

  function NamesIn(index: map<string, Entry>, g: string): seq<string> {
    if g in index && index[g].Hosts? then index[g].hosts else []
  }

  /** `index` with one more name in each of `groups`. */
  function Appended(index: map<string, Entry>, name: string, groups: set<string>): map<string, Entry> {
    map g | g in index.Keys + groups :: Hosts(NamesIn(index, g) + if g in groups then [name] else [])
  }

  lemma AppendedNone(index: map<string, Entry>, name: string)
    requires forall g :: g in index ==> index[g].Hosts?
    ensures Appended(index, name, {}) == index
  {
    forall g | g in index ensures Appended(index, name, {})[g] == index[g] {
      assert NamesIn(index, g) + [] == index[g].hosts;
    }
    assert Appended(index, name, {}).Keys == index.Keys;
  }

  lemma AppendedMore(index: map<string, Entry>, name: string, groups: set<string>, g: string)
    requires g !in groups
    ensures Appended(index, name, groups + {g}) ==
      Appended(index, name, groups)[g := Hosts(NamesIn(Appended(index, name, groups), g) + [name])]
  {
    var some, more := Appended(index, name, groups), Appended(index, name, groups + {g});
    assert NamesIn(index, g) + [] == NamesIn(index, g);
    assert NamesIn(some, g) == NamesIn(index, g);
    assert more.Keys == some.Keys + {g};
    assert forall h :: h in more && h != g ==> more[h] == some[h];
  }

  method AppendName(index: map<string, Entry>, group: string, name: string) returns (r: map<string, Entry>)
    requires group in index ==> index[group].Hosts?
    ensures r == index[group := Hosts(NamesIn(index, group) + [name])]
  {
    r := index;
    if group !in r {
      r := r[group := Hosts([])];
    }
    r := r[group := Hosts(r[group].hosts + [name])];
  }

  lemma AppendedStart(index: map<string, Entry>, name: string, groups: set<string>)
    requires forall g :: g in index ==> index[g].Hosts?
    ensures Appended(index, name, groups - groups) == index
    ensures groups - {} == groups
  {
    AppendedNone(index, name);
    assert groups - groups == {};
  }

  lemma AppendedStep(index: map<string, Entry>, name: string, groups: set<string>, todo: set<string>, g: string)
    requires g in todo && todo <= groups
    ensures Appended(index, name, groups - (todo - {g})) ==
      Appended(index, name, groups - todo)[g := Hosts(NamesIn(Appended(index, name, groups - todo), g) + [name])]
    ensures forall h :: h in Appended(index, name, groups - todo) ==> Appended(index, name, groups - todo)[h].Hosts?
  {
    AppendedMore(index, name, groups - todo, g);
    assert groups - (todo - {g}) == groups - todo + {g};
  }

  /** Adds one name to the groups it lists, each once, in any order. */
  method AddToGroups(index: map<string, Entry>, name: string, groups: set<string>) returns (r: map<string, Entry>)
    requires forall g :: g in index ==> index[g].Hosts?
    ensures r == Appended(index, name, groups)
  {
    r := index;
    var todo := groups;
    AppendedStart(index, name, groups);
    while todo != {}
      invariant todo <= groups
      invariant r == Appended(index, name, groups - todo)
      decreases |todo|
    {
      var group :| group in todo;
      AppendedStep(index, name, groups, todo, group);
      todo := todo - {group};
      r := AppendName(r, group, name);
    }
  }

  method QueryList(hosts: seq<Record>, ips: map<string, string>) returns (r: Result<map<string, Entry>, Failure>)
    ensures match AllSeen(hosts, ips)
            case Err(e) => r == Err(e)
            case Ok(records) =>
              && r == Ok(Index(records))
              && (ListsExactly(r.value, records) <==> META !in GroupsOf(records))
              && r.value.Keys == GroupsOf(records) + {META}
  {
    var groups: map<string, Entry> := map[];
    var meta: map<string, Attrs> := map[];
    ghost var seen: seq<Record> := [];
    for i := 0 to |hosts|
      invariant AllSeen(hosts[..i], ips) == Ok(seen)
      invariant groups == Grouping(seen)
      invariant meta == Hostvars(seen)
    {
      assert hosts[..i + 1][..i] == hosts[..i];
      var host := NextHost(hosts[i], ips);
      if host.Err? {
        AllSeenStops(hosts, ips, i + 1);
        return Err(host.error);
      }
      GroupingStep(seen, host.value);
      groups := AddToGroups(groups, host.value.name, SetOf(host.value.groups));
      meta := meta[host.value.name := host.value.attrs];
      seen := seen + [host.value];
    }
    assert hosts[..|hosts|] == hosts;
    IndexExact(seen);
    groups := groups[META := Meta(meta)];
    return Ok(groups);
  }

  lemma {:induction false} AllSeenStops(records: seq<Record>, ips: map<string, string>, n: nat)
    requires n <= |records| && AllSeen(records[..n], ips).Err?
    ensures AllSeen(records, ips) == AllSeen(records[..n], ips)
  {
    if n < |records| {
      assert records[..|records| - 1][..n] == records[..n];
      AllSeenStops(records[..|records| - 1], ips, n);
    } else {
      assert records[..n] == records;
    }
  }

  lemma {:induction false} ListingUnlisted(records: seq<Record>, g: string)
    requires g !in GroupsOf(records)
    ensures Listing(records, g) == []
  {
    if records == [] {
    } else {
      ListingUnlisted(records[..|records| - 1], g);
    }
  }

  lemma ListingStep(records: seq<Record>, r: Record, g: string)
    ensures Listing(records + [r], g) == NamesIn(Grouping(records), g) + if g in r.groups then [r.name] else []
  {
    assert (records + [r])[..|records|] == records;
    if g !in GroupsOf(records) {
      ListingUnlisted(records, g);
    }
  }

  lemma GroupsStep(records: seq<Record>, r: Record)
    ensures GroupsOf(records + [r]) == GroupsOf(records) + SetOf(r.groups)
    ensures Hostvars(records + [r]) == Hostvars(records)[r.name := r.attrs]
  {
    assert (records + [r])[..|records|] == records;
  }

  lemma GroupingAt(records: seq<Record>, r: Record, g: string)
    requires g in GroupsOf(records) + SetOf(r.groups)
    ensures Hosts(Listing(records + [r], g)) == Appended(Grouping(records), r.name, SetOf(r.groups))[g]
  {
    ListingStep(records, r, g);
  }

  lemma GroupingStep(records: seq<Record>, r: Record)
    ensures Hostvars(records + [r]) == Hostvars(records)[r.name := r.attrs]
    ensures Grouping(records + [r]) == Appended(Grouping(records), r.name, SetOf(r.groups))
  {
    GroupsStep(records, r);
    forall g | g in GroupsOf(records) + SetOf(r.groups)
      ensures Hosts(Listing(records + [r], g)) == Appended(Grouping(records), r.name, SetOf(r.groups))[g]
    {
      GroupingAt(records, r, g);
    }
    SameEntries(Grouping(records + [r]), Appended(Grouping(records), r.name, SetOf(r.groups)));
  }

  lemma SameEntries(a: map<string, Entry>, b: map<string, Entry>)
    requires a.Keys == b.Keys && forall g :: g in a ==> a[g] == b[g]
    ensures a == b
  {
  }

  /***** The index is exact *****/

  /** Every listed group holds precisely the records that list it, in record order. */
  ghost predicate ListsExactly(index: map<string, Entry>, records: seq<Record>) {
    forall g :: g in GroupsOf(records) ==> g in index && index[g] == Hosts(Listing(records, g))
  }

  lemma IndexExact(records: seq<Record>)
    ensures ListsExactly(Index(records), records) <==> META !in GroupsOf(records)
    ensures Index(records).Keys == GroupsOf(records) + {META}
  {
  }

  /** The sum of `f` over a set of groups, counted from one group to the next. */
  ghost function SizeSum(records: seq<Record>, groups: set<string>): nat {
    if groups == {} then 0
    else |Listing(records, Pick(groups))| + SizeSum(records, groups - {Pick(groups)})
  }

  ghost function Pick(groups: set<string>): (g: string)
    requires groups != {}
    ensures g in groups
  {
    var g :| g in groups; g
  }

  ghost function ListedSum(records: seq<Record>, groups: set<string>): nat {
    if records == [] then 0
    else ListedSum(records[..|records| - 1], groups) + |SetOf(records[|records| - 1].groups) * groups|
  }

  lemma {:induction false} SizeSumStep(records: seq<Record>, r: Record, groups: set<string>)
    ensures SizeSum(records + [r], groups) == SizeSum(records, groups) + |SetOf(r.groups) * groups|
  {
    if groups == {} {
      assert SetOf(r.groups) * groups == {};
    } else {
      var g := Pick(groups);
      SizeSumStep(records, r, groups - {g});
      assert (records + [r])[..|records|] == records;
      var mine, rest := SetOf(r.groups) * groups, SetOf(r.groups) * (groups - {g});
      if g in r.groups {
        assert mine == rest + {g};
      } else {
        assert mine == rest;
      }
    }
  }

  /** Conservation: over any set of groups, the sizes of the groups add up to the number of
      distinct memberships the records declare. */
  lemma {:induction false} MembershipsConserved(records: seq<Record>, groups: set<string>)
    ensures SizeSum(records, groups) == ListedSum(records, groups)
  {
    if records == [] {
      NoRecords(groups);
    } else {
      var init, last := records[..|records| - 1], records[|records| - 1];
      MembershipsConserved(init, groups);
      SizeSumStep(init, last, groups);
      assert init + [last] == records;
    }
  }

  /** The number of names an index holds in some groups. */
  ghost function NamesCount(index: map<string, Entry>, groups: set<string>): nat {
    if groups == {} then 0
    else |NamesIn(index, Pick(groups))| + NamesCount(index, groups - {Pick(groups)})
  }

  /** The number of memberships that the records declare, each counted once. */
  ghost function Memberships(records: seq<Record>): nat {
    if records == [] then 0
    else Memberships(records[..|records| - 1]) + |SetOf(records[|records| - 1].groups)|
  }

  lemma {:induction false} NamesCountIs(index: map<string, Entry>, records: seq<Record>, groups: set<string>)
    requires forall g :: g in groups ==> NamesIn(index, g) == Listing(records, g)
    ensures NamesCount(index, groups) == SizeSum(records, groups)
  {
    if groups == {} {
    } else {
      NamesCountIs(index, records, groups - {Pick(groups)});
    }
  }

  lemma {:induction false} ListedSumIs(records: seq<Record>, groups: set<string>)
    requires GroupsOf(records) <= groups
    ensures ListedSum(records, groups) == Memberships(records)
  {
    if records == [] {
    } else {
      var init, last := records[..|records| - 1], records[|records| - 1];
      assert SetOf(last.groups) <= groups;
      assert SetOf(last.groups) * groups == SetOf(last.groups);
      ListedSumIs(init, groups);
    }
  }

  /** Conservation over the whole index: with no group under the reserved name, it holds as many
      names as the records declare memberships. */
  lemma IndexConserved(records: seq<Record>)
    requires META !in GroupsOf(records)
    ensures NamesCount(Index(records), GroupsOf(records)) == Memberships(records)
  {
    var groups := GroupsOf(records);
    IndexExact(records);
    NamesCountIs(Index(records), records, groups);
    MembershipsConserved(records, groups);
    ListedSumIs(records, groups);
  }

  lemma {:induction false} NoRecords(groups: set<string>)
    ensures SizeSum([], groups) == 0
  {
    if groups == {} {
    } else {
      NoRecords(groups - {Pick(groups)});
    }
  }

  /***** Scan and index agree *****/

  ghost predicate UniqueNames(records: seq<Record>) {
    forall i, j :: 0 <= i < j < |records| ==> records[i].name != records[j].name
  }

  lemma {:induction false} HostvarsIs(records: seq<Record>, target: string)
    ensures target in Hostvars(records) <==> exists i :: 0 <= i < |records| && records[i].name == target
    ensures UniqueNames(records) ==> forall i :: 0 <= i < |records| && records[i].name == target ==>
      target in Hostvars(records) && Hostvars(records)[target] == records[i].attrs
  {
    if records == [] {
    } else {
      var n := |records| - 1;
      HostvarsIs(records[..n], target);
      assert forall i :: 0 <= i < n ==> records[..n][i] == records[i];
    }
  }

  lemma {:induction false} AllSeenIs(records: seq<Record>, ips: map<string, string>)
    requires AllSeen(records, ips).Ok?
    ensures |AllSeen(records, ips).value| == |records|
    ensures forall i :: 0 <= i < |records| ==> Seen(records[i], ips) == Ok(AllSeen(records, ips).value[i])
  {
    if records == [] {
    } else {
      AllSeenIs(records[..|records| - 1], ips);
    }
  }

  lemma {:induction false} FirstNamedIs(
    records: seq<Record>, seen: seq<Record>, ips: map<string, string>, target: string)
    requires |seen| == |records| && forall i :: 0 <= i < |records| ==> Seen(records[i], ips) == Ok(seen[i])
    ensures FirstNamed(records, ips, target).Ok?
    ensures var r := FirstNamed(records, ips, target).value;
      || (r == map[] && forall i :: 0 <= i < |seen| ==> seen[i].name != target)
      || (exists i :: 0 <= i < |seen| && seen[i].name == target && seen[i].attrs == r)
  {
    if records != [] && seen[0].name != target {
      FirstNamedIs(records[1..], seen[1..], ips, target);
      assert forall i :: 0 < i < |seen| ==> seen[i] == seen[1..][i - 1];
      assert forall i :: 0 <= i < |seen| - 1 ==> seen[1..][i] == seen[i + 1];
    }
  }

  /** With unique names, asking for one host gives its entry in the full listing, or nothing. */
  lemma ScanAgreesWithIndex(records: seq<Record>, ips: map<string, string>, target: string)
    requires UniqueNames(records) && AllSeen(records, ips).Ok?
    ensures Index(AllSeen(records, ips).value)[META].Meta?
    ensures var vars := Index(AllSeen(records, ips).value)[META].hostvars;
      FirstNamed(records, ips, target) == Ok(if target in vars then vars[target] else map[])
  {
    var seen := AllSeen(records, ips).value;
    AllSeenIs(records, ips);
    forall i | 0 <= i < |records| ensures seen[i].name == records[i].name {
      assert Seen(records[i], ips) == Ok(seen[i]);
    }
    assert UniqueNames(seen);
    HostvarsIs(seen, target);
    FirstNamedIs(records, seen, ips, target);
  }

  /***** Order *****/

  /** Places of records, in order. */
  ghost predicate Places(ps: seq<nat>, n: nat) {
    && (forall j :: 0 <= j < |ps| ==> ps[j] < n)
    && forall i, j :: 0 <= i < j < |ps| ==> ps[i] < ps[j]
  }

  /** The places of a list of names: whose they are, and that no other record lists the group. */
  ghost predicate Listed(records: seq<Record>, group: string, names: seq<string>, ps: seq<nat>) {
    && Places(ps, |records|) && |names| == |ps|
    && (forall j :: 0 <= j < |ps| ==> names[j] == records[ps[j]].name)
    && (forall i: nat :: i < |records| ==> (i in ps <==> group in records[i].groups))
  }

  lemma ListedPush(records: seq<Record>, r: Record, group: string, names: seq<string>, ps: seq<nat>)
    requires Listed(records, group, names, ps)
    ensures if group in r.groups then Listed(records + [r], group, names + [r.name], ps + [|records|])
            else Listed(records + [r], group, names, ps)
  {
    var more := records + [r];
    assert forall i :: 0 <= i < |records| ==> more[i] == records[i];
    assert |records| !in ps;
  }

  /** A group lists the names at exactly the places whose records list it, in record order. */
  lemma {:induction false} ListingPlaces(records: seq<Record>, group: string) returns (ps: seq<nat>)
    ensures Listed(records, group, Listing(records, group), ps)
  {
    if records == [] {
      ps := [];
    } else {
      var n := |records| - 1;
      ps := ListingPlaces(records[..n], group);
      ListedPush(records[..n], records[n], group, Listing(records[..n], group), ps);
      assert records[..n] + [records[n]] == records;
      if group in records[n].groups {
        ps := ps + [n];
      }
    }
  }

  /** Among records of the same name the scan answers with the first one. */
  lemma {:induction false} FirstNamedIsFirst(records: seq<Record>, ips: map<string, string>, i: nat)
    requires i < |records| && forall j :: 0 <= j < i ==> records[j].name != records[i].name
    requires forall j :: 0 <= j <= i ==> Seen(records[j], ips).Ok?
    ensures FirstNamed(records, ips, records[i].name) == Ok(Seen(records[i], ips).value.attrs)
  {
    SeenIsOverlaid(records[0], ips);
    if i == 0 {
    } else {
      FirstNamedIsFirst(records[1..], ips, i - 1);
    }
  }

  /** A record without an id that comes first is an error, as soon as there are floating
      addresses. */
  lemma {:induction false} FirstNamedFails(records: seq<Record>, ips: map<string, string>, target: string, i: nat)
    requires i < |records| && ips != map[] && "id" !in records[i].attrs
    requires forall j :: 0 <= j < i ==> records[j].name != target && "id" in records[j].attrs
    ensures FirstNamed(records, ips, target) == Err(NoId)
  {
    if i == 0 {
    } else {
      SeenIsOverlaid(records[0], ips);
      FirstNamedFails(records[1..], ips, target, i - 1);
    }
  }

  /** Among records of the same name the listing keeps the last one. */
  lemma {:induction false} HostvarsIsLast(records: seq<Record>, i: nat)
    requires i < |records| && forall j :: i < j < |records| ==> records[j].name != records[i].name
    ensures records[i].name in Hostvars(records) && Hostvars(records)[records[i].name] == records[i].attrs
  {
    var n := |records| - 1;
    if i == n {
    } else {
      assert forall j :: 0 <= j < n ==> records[..n][j] == records[j];
      HostvarsIsLast(records[..n], i);
    }
  }

  /** The listing fails exactly when there are floating addresses and some record has no id. */
  lemma {:induction false} ListingFails(records: seq<Record>, ips: map<string, string>)
    ensures AllSeen(records, ips).Ok? <==> ips == map[] || forall i :: 0 <= i < |records| ==> "id" in records[i].attrs
  {
    if records == [] {
    } else {
      var n := |records| - 1;
      ListingFails(records[..n], ips);
      assert forall j :: 0 <= j < n ==> records[..n][j] == records[j];
    }
  }

  /***** What the overlay changes *****/

  /** Only the three address fields change, and only for the hosts whose id is listed. */
  ghost predicate Overlaid(before: Record, after: Record, ips: map<string, string>) {
    && after.name == before.name && after.groups == before.groups
    && (ips != map[] ==> "id" in before.attrs)
    && (ips == map[] || before.attrs["id"] !in ips ==> after.attrs == before.attrs)
    && (ips != map[] && before.attrs["id"] in ips ==>
         && after.attrs.Keys == before.attrs.Keys + SetOf(ADDRESS_FIELDS)
         && forall k :: k in after.attrs ==>
              after.attrs[k] == if k in ADDRESS_FIELDS then ips[before.attrs["id"]] else before.attrs[k])
  }

  lemma SeenIsOverlaid(r: Record, ips: map<string, string>)
    requires Seen(r, ips).Ok?
    ensures Overlaid(r, Seen(r, ips).value, ips)
  {
    if ips != map[] && r.attrs["id"] in ips {
      assert ADDRESS_FIELDS[0] == "access_ip_v4" && ADDRESS_FIELDS[1] == "public_ipv4"
        && ADDRESS_FIELDS[2] == "ansible_ssh_host";
      assert forall k :: k in ADDRESS_FIELDS <==> k == "access_ip_v4" || k == "public_ipv4" || k == "ansible_ssh_host";
    }
  }

  lemma {:induction false} ListingAgree(a: seq<Record>, b: seq<Record>, g: string)
    requires |a| == |b|
    requires forall i :: 0 <= i < |a| ==> a[i].name == b[i].name && a[i].groups == b[i].groups
    ensures Listing(a, g) == Listing(b, g)
  {
    if a == [] {
    } else {
      var n := |a| - 1;
      assert a[..n] == a[..|a| - 1] && b[..n] == b[..|b| - 1];
      ListingAgree(a[..n], b[..n], g);
    }
  }

  /** The overlay leaves group membership alone; each host is overlaid by its own id. */
  lemma OverlayKeepsGroups(records: seq<Record>, ips: map<string, string>)
    requires AllSeen(records, ips).Ok?
    ensures var seen := AllSeen(records, ips).value;
      && |seen| == |records|
      && (forall i :: 0 <= i < |records| ==> Overlaid(records[i], seen[i], ips))
      && Grouping(seen) == Grouping(records)
  {
    var seen := AllSeen(records, ips).value;
    AllSeenIs(records, ips);
    forall i | 0 <= i < |records| ensures Overlaid(records[i], seen[i], ips) {
      SeenIsOverlaid(records[i], ips);
    }
    forall g ensures Listing(seen, g) == Listing(records, g) {
      ListingAgree(seen, records, g);
    }
    assert forall g :: g in GroupsOf(seen) <==> g in GroupsOf(records);
  }
}
