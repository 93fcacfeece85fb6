/** The network interfaces of a compute instance: a two-level tree flattened into dotted
    keys by Terraform and read back by parsing attribute lists twice. */
module TerraformTree {
  import opened Text
  import opened Dicts
  import opened TerraformAttrs

  const INTERFACE := "network_interface"
  const ACCESS := "access_config"

  /** An attribute read back: a text, or the list made of the nested dictionaries. */
  datatype AttrValue = Plain(text: string) | Table(rows: seq<Dict<string>>)

  /***** Reading: gce_host *****/

  function Lift(d: Dict<string>): Dict<AttrValue> {
    Dict(d.keys, map k | k in d.vals :: Plain(d.vals[k]))
  }

  function Undotted<V>(d: Dict<V>): set<string> {
    set k | k in d.vals && '.' !in k
  }

  /** One interface: its nested list is parsed, stored, and the dotted keys are dropped. */
  function Finished(entries: Dict<string>): Result<Dict<AttrValue>, Failure>
    requires entries.Valid()
  {
    match AttrDict(entries.keys, entries.vals, ACCESS)
    case Err(e) => Err(e)
    case Ok(configs) =>
      AttrDictValid(entries.keys, entries.vals, ACCESS);
      var full := Lift(entries).Put(ACCESS, Table(Values(configs)));
      Ok(full.Restrict(Undotted(full)))
  }

  ghost predicate AllValid(interfaces: seq<Dict<string>>) {
    forall i :: 0 <= i < |interfaces| ==> interfaces[i].Valid()
  }

  function Results(interfaces: seq<Dict<string>>): (rs: seq<Result<Dict<AttrValue>, Failure>>)
    requires AllValid(interfaces)
    ensures |rs| == |interfaces|
    ensures forall j :: 0 <= j < |rs| ==> rs[j] == Finished(interfaces[j])
  {
    seq(|interfaces|, j requires 0 <= j < |interfaces| => Finished(interfaces[j]))
  }

  /** All the values, or the first failure. */
  function Collect<T>(rs: seq<Result<T, Failure>>): Result<seq<T>, Failure> {
    if rs == [] then Ok([])
    else match Collect(rs[..|rs| - 1])
      case Err(e) => Err(e)
      case Ok(done) =>
        match rs[|rs| - 1]
        case Err(e) => Err(e)
        case Ok(v) => Ok(done + [v])
  }

  lemma CollectNext<T>(rs: seq<Result<T, Failure>>, i: nat, done: seq<T>)
    requires i < |rs| && Collect(rs[..i]) == Ok(done)
    ensures Collect(rs[..i + 1]) == match rs[i] case Err(e) => Err(e) case Ok(v) => Ok(done + [v])
  {
    assert rs[..i + 1][..i] == rs[..i];
  }

  lemma {:induction false} CollectStops<T>(rs: seq<Result<T, Failure>>, n: nat)
    requires n <= |rs| && Collect(rs[..n]).Err?
    ensures Collect(rs) == Collect(rs[..n])
  {
    if n < |rs| {
      var init := rs[..|rs| - 1];
      assert init[..n] == rs[..n];
      CollectStops(init, n);
    } else {
      assert rs[..n] == rs;
    }
  }

  lemma {:induction false} CollectAll<T>(rs: seq<Result<T, Failure>>)
    requires forall j :: 0 <= j < |rs| ==> rs[j].Ok?
    ensures Collect(rs).Ok? && |Collect(rs).value| == |rs|
    ensures forall j :: 0 <= j < |rs| ==> Collect(rs).value[j] == rs[j].value
  {
    if rs == [] {
    } else {
      CollectAll(rs[..|rs| - 1]);
    }
  }

  function Interfaces(source: Dict<string>): Result<seq<Dict<AttrValue>>, Failure>
    requires source.Valid()
  {
    match AttrDict(source.keys, source.vals, INTERFACE)
    case Err(e) => Err(e)
    case Ok(d) =>
      AttrDictValid(source.keys, source.vals, INTERFACE);
      Collect(Results(Values(d)))
  }

  /** Deletes the keys with a dot, one by one. */
  method DropDotted<V>(interface: Dict<V>) returns (r: Dict<V>)
    requires interface.Valid()
    ensures r == interface.Restrict(Undotted(interface))
  {
    ghost var plain := Undotted(interface);
    r := interface;
    PartlyRestrictedEnds(interface, plain);
    for i := 0 to |interface.keys|
      invariant r == PartlyRestricted(interface, plain, i)
    {
      PartlyRestrictedStep(interface, plain, i);
      if '.' in interface.keys[i] {
        r := r.Remove(interface.keys[i]);
      }
    }
  }

  lemma LiftValid(d: Dict<string>)
    requires d.Valid()
    ensures Lift(d).Valid()
  {
  }

  method FinishInterface(entries: Dict<string>) returns (r: Result<Dict<AttrValue>, Failure>)
    requires entries.Valid()
    ensures r == Finished(entries)
  {
    var rows := ParseAttrList(entries, ACCESS);
    if rows.Err? {
      return Err(rows.error);
    }
    LiftValid(entries);
    PutValid(Lift(entries), ACCESS, Table(rows.value));
    var interface := Lift(entries).Put(ACCESS, Table(rows.value));
    interface := DropDotted(interface);
    return Ok(interface);
  }

  method FinishAll(interfaces: seq<Dict<string>>) returns (r: Result<seq<Dict<AttrValue>>, Failure>)
    requires AllValid(interfaces)
    ensures r == Collect(Results(interfaces))
  {
    ghost var rs := Results(interfaces);
    var done := [];
    for i := 0 to |interfaces|
      invariant Collect(rs[..i]) == Ok(done)
    {
      var f := FinishInterface(interfaces[i]);
      CollectNext(rs, i, done);
      if f.Err? {
        CollectStops(rs, i + 1);
        return Err(f.error);
      }
      done := done + [f.value];
    }
    assert rs[..|rs|] == rs;
    return Ok(done);
  }

  method GceInterfaces(source: Dict<string>) returns (r: Result<seq<Dict<AttrValue>>, Failure>)
    requires source.Valid()
    ensures r == Interfaces(source)
  {
    AttrDictValid(source.keys, source.vals, INTERFACE);
    var interfaces := ParseAttrList(source, INTERFACE);
    if interfaces.Err? {
      return Err(interfaces.error);
    }
    r := FinishAll(interfaces.value);
  }

  /***** Writing: nested dictionaries under dotted keys *****/

  type Nested = map<string, map<string, string>>

  ghost predicate PlainIndices(d: Nested) {
    forall idx :: idx in d ==> '.' !in idx
  }

  lemma PathKeyInjective(prefix: string, i: string, k: string, i': string, k': string)
    requires '.' !in prefix && '.' !in i && '.' !in i'
    requires PathKey(prefix, i, k) == PathKey(prefix, i', k')
    ensures i == i' && k == k'
  {
    PathKeySplits(prefix, i, k);
    PathKeySplits(prefix, i', k');
  }

  ghost function PathSet(prefix: string, d: Nested): set<string> {
    set idx, k | idx in d && k in d[idx] :: PathKey(prefix, idx, k)
  }

  /** The leaf at a path. */
  ghost function Leaf(prefix: string, d: Nested, p: string): (v: string)
    requires p in PathSet(prefix, d)
    ensures exists idx, k :: idx in d && k in d[idx] && p == PathKey(prefix, idx, k) && v == d[idx][k]
  {
    var idx, k :| idx in d && k in d[idx] && p == PathKey(prefix, idx, k);
    d[idx][k]
  }

  /** Every leaf of a dictionary of dictionaries under its path. */
  ghost function Paths(prefix: string, d: Nested): map<string, string> {
    map p | p in PathSet(prefix, d) :: Leaf(prefix, d, p)
  }

  /** `prefix.#` */
  function CountKey(prefix: string): string {
    prefix + ['.'] + "#"
  }

  ghost predicate Under(prefix: string, k: string) {
    SplitOnce(k, '.').Some? && SplitOnce(k, '.').value.0 == prefix
  }

  /** A dictionary whose keys under `prefix`, in any order and among any others, are the
      paths of `d` and possibly the count. */
  ghost predicate Carries(source: Dict<string>, prefix: string, d: Nested)
    requires '.' !in prefix && PlainIndices(d)
  {
    && source.Valid()
    && (forall k :: k in source.keys && Under(prefix, k) ==> k == CountKey(prefix) || k in Paths(prefix, d))
    && (forall k :: k in Paths(prefix, d) ==> k in source.vals && source.vals[k] == Paths(prefix, d)[k])
  }

  lemma PathsAt(prefix: string, d: Nested, idx: string, k: string)
    requires '.' !in prefix && PlainIndices(d) && '.' !in idx
    ensures PathKey(prefix, idx, k) in Paths(prefix, d) <==> idx in d && k in d[idx]
    ensures idx in d && k in d[idx] ==> Paths(prefix, d)[PathKey(prefix, idx, k)] == d[idx][k]
  {
    var p := PathKey(prefix, idx, k);
    if p in PathSet(prefix, d) {
      var i', k' :| i' in d && k' in d[i'] && p == PathKey(prefix, i', k') && Leaf(prefix, d, p) == d[i'][k'];
      PathKeyInjective(prefix, i', k', idx, k);
    }
  }

  lemma PathIndexed(prefix: string, idx: string, k: string)
    requires '.' !in prefix && '.' !in idx
    ensures Indexed(prefix, PathKey(prefix, idx, k)) && Under(prefix, PathKey(prefix, idx, k))
    ensures PathKey(prefix, idx, k) != CountKey(prefix)
    ensures '.' in PathKey(prefix, idx, k)
  {
    PathKeySplits(prefix, idx, k);
    CountKeySplits(prefix);
    assert (idx + ['.'] + k)[|idx|] == '.';
    assert PathKey(prefix, idx, k)[|prefix|] == '.';
  }

  lemma CountKeySplits(prefix: string)
    requires '.' !in prefix
    ensures SplitOnce(CountKey(prefix), '.') == Some((prefix, "#"))
    ensures '.' in CountKey(prefix) && Indexed(prefix, CountKey(prefix))
  {
    SplitOnceAt(prefix, '.', "#");
    assert CountKey(prefix)[|prefix|] == '.';
  }

  lemma PathsIndexed(prefix: string, d: Nested, p: string)
    requires '.' !in prefix && PlainIndices(d) && p in Paths(prefix, d)
    ensures Indexed(prefix, p) && '.' in p
  {
    var idx, k :| idx in d && k in d[idx] && p == PathKey(prefix, idx, k);
    PathIndexed(prefix, idx, k);
  }

  lemma RegroupedEntry(source: Dict<string>, prefix: string, d: Nested, r: Dict<Dict<string>>, idx: string, k: string)
    requires '.' !in prefix && PlainIndices(d) && Carries(source, prefix, d)
    requires Groups(r, source.keys, source.vals, prefix)
    ensures Has(r, idx, k) <==> idx in d && k in d[idx]
    ensures Has(r, idx, k) ==> r.vals[idx].vals[k] == d[idx][k]
  {
    if '.' !in idx {
      PathsAt(prefix, d, idx, k);
      PathIndexed(prefix, idx, k);
    }
  }

  /** Grouping undoes flattening, but for the dictionaries that were empty. */
  lemma Regrouped(source: Dict<string>, prefix: string, d: Nested)
    requires '.' !in prefix && PlainIndices(d) && Carries(source, prefix, d)
    ensures AttrDict(source.keys, source.vals, prefix).Ok?
    ensures var r := AttrDict(source.keys, source.vals, prefix).value;
      && ValidNested(r)
      && (forall idx :: idx in r.vals <==> idx in d && d[idx] != map[])
      && (forall idx :: idx in r.vals ==> r.vals[idx].vals == d[idx])
  {
    AttrDictIs(source.keys, source.vals, prefix);
    AttrDictValid(source.keys, source.vals, prefix);
    forall k | k in source.keys ensures Indexed(prefix, k) {
      if Under(prefix, k) {
        CountKeySplits(prefix);
        if k in Paths(prefix, d) {
          PathsIndexed(prefix, d, k);
        }
      }
    }
    var r := AttrDict(source.keys, source.vals, prefix).value;
    forall idx
      ensures idx in r.vals <==> idx in d && d[idx] != map[]
      ensures idx in r.vals ==> r.vals[idx].vals == d[idx]
    {
      RegroupedIndex(source, prefix, d, r, idx);
    }
  }

  lemma RegroupedIndex(source: Dict<string>, prefix: string, d: Nested, r: Dict<Dict<string>>, idx: string)
    requires '.' !in prefix && PlainIndices(d) && Carries(source, prefix, d)
    requires Groups(r, source.keys, source.vals, prefix)
    ensures idx in r.vals <==> idx in d && d[idx] != map[]
    ensures idx in r.vals ==> r.vals[idx].vals == d[idx]
  {
    forall k ensures Has(r, idx, k) <==> idx in d && k in d[idx]
      ensures Has(r, idx, k) ==> r.vals[idx].vals[k] == d[idx][k]
    {
      RegroupedEntry(source, prefix, d, r, idx, k);
    }
    SameLeaves(r, d, idx);
  }

  lemma SameLeaves(r: Dict<Dict<string>>, d: Nested, idx: string)
    requires forall k :: Has(r, idx, k) <==> idx in d && k in d[idx]
    requires forall k :: Has(r, idx, k) ==> r.vals[idx].vals[k] == d[idx][k]
    requires idx in r.vals ==> r.vals[idx].vals != map[]
    ensures idx in r.vals <==> idx in d && d[idx] != map[]
    ensures idx in r.vals ==> r.vals[idx].vals == d[idx]
  {
    if idx in d && d[idx] != map[] {
      var k :| k in d[idx];
      assert Has(r, idx, k);
    }
    if idx in r.vals {
      var k :| k in r.vals[idx].vals;
      assert Has(r, idx, k);
      assert forall k :: k in r.vals[idx].vals <==> Has(r, idx, k);
    }
  }

  /***** The tree *****/

  datatype Interface = Interface(attrs: map<string, string>, configs: Nested)

  type Tree = map<string, Interface>

  /** Index parts without a dot, attribute names that do not look nested. */
  ghost predicate WellNamed(i: Interface) {
    && (forall k :: k in i.attrs ==> '.' !in k && k != ACCESS)
    && PlainIndices(i.configs)
  }

  ghost predicate WellNamedTree(tree: Tree) {
    forall idx :: idx in tree ==> '.' !in idx && WellNamed(tree[idx])
  }

  lemma NoDots()
    ensures '.' !in INTERFACE && '.' !in ACCESS
  {
  }

  ghost function FlatInterface(i: Interface): map<string, string>
    requires WellNamed(i)
  {
    NoDots();
    map[CountKey(ACCESS) := Decimal(|i.configs|)] + Paths(ACCESS, i.configs) + i.attrs
  }

  ghost function FlatInterfaces(tree: Tree): Nested
    requires WellNamedTree(tree)
  {
    map idx | idx in tree :: FlatInterface(tree[idx])
  }

  /** Every leaf of the tree under its dotted path, with the `#` counts. */
  ghost function Flat(tree: Tree): map<string, string>
    requires WellNamedTree(tree)
  {
    NoDots();
    map[CountKey(INTERFACE) := Decimal(|tree|)] + Paths(INTERFACE, FlatInterfaces(tree))
  }

  /** A Terraform state whose interface keys are the flattened tree, in any order and among
      any other attributes. */
  ghost predicate StateOf(source: Dict<string>, tree: Tree)
    requires WellNamedTree(tree)
  {
    && source.Valid()
    && (forall k :: k in source.keys && Under(INTERFACE, k) ==> k in Flat(tree))
    && (forall k :: k in Flat(tree) ==> k in source.vals && source.vals[k] == Flat(tree)[k])
  }

  lemma StateCarries(source: Dict<string>, tree: Tree)
    requires WellNamedTree(tree) && StateOf(source, tree)
    ensures '.' !in INTERFACE
    ensures Carries(source, INTERFACE, FlatInterfaces(tree))
  {
    NoDots();
    forall k | k in Paths(INTERFACE, FlatInterfaces(tree))
      ensures k in Flat(tree) && Flat(tree)[k] == Paths(INTERFACE, FlatInterfaces(tree))[k]
    {
      PathsIndexed(INTERFACE, FlatInterfaces(tree), k);
    }
  }

  /***** Round trip *****/

  lemma FlatInterfaceKeys(i: Interface, k: string)
    requires WellNamed(i) && k in FlatInterface(i)
    ensures '.' !in ACCESS
    ensures k in i.attrs ==> '.' !in k && k != ACCESS && FlatInterface(i)[k] == i.attrs[k]
    ensures k !in i.attrs ==> '.' in k && (k == CountKey(ACCESS) || k in Paths(ACCESS, i.configs))
  {
    NoDots();
    CountKeySplits(ACCESS);
    if k in Paths(ACCESS, i.configs) {
      PathsIndexed(ACCESS, i.configs, k);
    }
  }

  lemma EntriesCarry(entries: Dict<string>, i: Interface)
    requires WellNamed(i) && entries.Valid() && entries.vals == FlatInterface(i)
    ensures '.' !in ACCESS
    ensures Carries(entries, ACCESS, i.configs)
  {
    NoDots();
    forall k | k in entries.keys && Under(ACCESS, k)
      ensures k == CountKey(ACCESS) || k in Paths(ACCESS, i.configs)
    {
      FlatInterfaceKeys(i, k);
      SplitOnceParts(k, '.');
    }
    forall k | k in Paths(ACCESS, i.configs)
      ensures k in entries.vals && entries.vals[k] == Paths(ACCESS, i.configs)[k]
    {
      PathsIndexed(ACCESS, i.configs, k);
    }
  }

  /** `rows` lists the dictionaries of `configs`, each once, in some order. */
  ghost predicate Lists(rows: seq<Dict<string>>, configs: Nested, order: seq<string>) {
    && Distinct(order) && SetOf(order) == configs.Keys
    && |rows| == |order|
    && forall j :: 0 <= j < |order| ==> rows[j].vals == configs[order[j]]
  }

  /** What is read back is the interface itself. */
  ghost predicate Reads(f: Dict<AttrValue>, i: Interface) {
    && (forall k :: k in f.vals <==> k in i.attrs || k == ACCESS)
    && ACCESS !in i.attrs
    && (forall k :: k in i.attrs ==> f.vals[k] == Plain(i.attrs[k]))
    && f.vals[ACCESS].Table?
    && exists order :: Lists(f.vals[ACCESS].rows, i.configs, order)
  }

  ghost predicate NoEmptyConfig(i: Interface) {
    forall c :: c in i.configs ==> i.configs[c] != map[]
  }

  lemma FinishedKey(entries: Dict<string>, k: string)
    requires entries.Valid() && Finished(entries).Ok?
    ensures var f := Finished(entries).value;
      && (k in f.vals <==> (k in entries.vals || k == ACCESS) && '.' !in k)
      && (k in f.vals && k != ACCESS ==> f.vals[k] == Plain(entries.vals[k]))
  {
    NoDots();
  }

  lemma FinishedAttr(entries: Dict<string>, i: Interface, k: string)
    requires WellNamed(i) && entries.Valid() && entries.vals == FlatInterface(i)
    requires Finished(entries).Ok?
    ensures var f := Finished(entries).value;
      && (k in f.vals <==> k in i.attrs || k == ACCESS)
      && (k in i.attrs ==> f.vals[k] == Plain(i.attrs[k]))
  {
    NoDots();
    FinishedKey(entries, k);
    assert k in i.attrs ==> k in FlatInterface(i);
    if k in FlatInterface(i) {
      FlatInterfaceKeys(i, k);
    }
  }

  lemma FinishedAttrs(entries: Dict<string>, i: Interface, f: Dict<AttrValue>)
    requires WellNamed(i) && entries.Valid() && entries.vals == FlatInterface(i)
    requires Finished(entries) == Ok(f)
    ensures forall k :: k in f.vals <==> k in i.attrs || k == ACCESS
    ensures forall k :: k in i.attrs ==> f.vals[k] == Plain(i.attrs[k])
  {
    forall k ensures k in f.vals <==> k in i.attrs || k == ACCESS
      ensures k in i.attrs ==> f.vals[k] == Plain(i.attrs[k])
    {
      FinishedAttr(entries, i, k);
    }
  }

  lemma FinishedTable(entries: Dict<string>)
    requires entries.Valid() && Finished(entries).Ok?
    ensures var d := AttrDict(entries.keys, entries.vals, ACCESS).value;
      && d.Valid()
      && ACCESS in Finished(entries).value.vals
      && Finished(entries).value.vals[ACCESS] == Table(Values(d))
  {
    NoDots();
    AttrDictValid(entries.keys, entries.vals, ACCESS);
  }

  /** The rows list all configurations exactly when none of them is empty. */
  lemma RowsList(d: Dict<Dict<string>>, configs: Nested)
    requires ValidNested(d)
    requires forall c :: c in d.vals <==> c in configs && configs[c] != map[]
    requires forall c :: c in d.vals ==> d.vals[c].vals == configs[c]
    ensures (exists order :: Lists(Values(d), configs, order)) <==> forall c :: c in configs ==> configs[c] != map[]
  {
    if forall c :: c in configs ==> configs[c] != map[] {
      assert SetOf(d.keys) == configs.Keys;
      assert Lists(Values(d), configs, d.keys);
    } else {
      var c :| c in configs && configs[c] == map[];
      forall order ensures !Lists(Values(d), configs, order) {
        EmptyRowMissing(d, configs, order, c);
      }
    }
  }

  lemma EmptyRowMissing(d: Dict<Dict<string>>, configs: Nested, order: seq<string>, c: string)
    requires d.Valid() && c in configs && configs[c] == map[]
    requires forall k :: k in d.vals ==> d.vals[k].vals != map[]
    ensures !Lists(Values(d), configs, order)
  {
    forall j | 0 <= j < |Values(d)| ensures Values(d)[j].vals != configs[c] {
      assert d.keys[j] in d.vals;
    }
    assert c in SetOf(order) ==> exists j :: 0 <= j < |order| && order[j] == c;
  }

  /** The nested list that is read back holds no empty dictionary. */
  ghost predicate NoEmptyRow(f: Dict<AttrValue>) {
    && ACCESS in f.vals && f.vals[ACCESS].Table?
    && forall row :: row in f.vals[ACCESS].rows ==> row.vals != map[]
  }

  lemma RowsNotEmpty(d: Dict<Dict<string>>, f: Dict<AttrValue>)
    requires d.Valid() && forall c :: c in d.vals ==> d.vals[c].vals != map[]
    requires ACCESS in f.vals && f.vals[ACCESS] == Table(Values(d))
    ensures NoEmptyRow(f)
  {
    forall row | row in Values(d) ensures row.vals != map[] {
      var j :| 0 <= j < |Values(d)| && Values(d)[j] == row;
      assert d.keys[j] in d.vals;
    }
  }

  /** One interface is read back exactly when none of its access configurations is empty. */
  lemma InterfaceRoundTrip(entries: Dict<string>, i: Interface)
    requires WellNamed(i) && entries.Valid() && entries.vals == FlatInterface(i)
    ensures Finished(entries).Ok?
    ensures Reads(Finished(entries).value, i) <==> NoEmptyConfig(i)
    ensures NoEmptyRow(Finished(entries).value)
  {
    EntriesCarry(entries, i);
    Regrouped(entries, ACCESS, i.configs);
    FinishedTable(entries);
    FinishedAttrs(entries, i, Finished(entries).value);
    var d := AttrDict(entries.keys, entries.vals, ACCESS).value;
    ReadsIf(Finished(entries).value, i, d);
    RowsNotEmpty(d, Finished(entries).value);
  }

  lemma ReadsIf(f: Dict<AttrValue>, i: Interface, d: Dict<Dict<string>>)
    requires WellNamed(i) && ValidNested(d)
    requires forall k :: k in f.vals <==> k in i.attrs || k == ACCESS
    requires forall k :: k in i.attrs ==> f.vals[k] == Plain(i.attrs[k])
    requires f.vals[ACCESS] == Table(Values(d))
    requires forall c :: c in d.vals <==> c in i.configs && i.configs[c] != map[]
    requires forall c :: c in d.vals ==> d.vals[c].vals == i.configs[c]
    ensures Reads(f, i) <==> NoEmptyConfig(i)
  {
    RowsList(d, i.configs);
  }

  ghost predicate ReadBack(f: Dict<AttrValue>, i: Interface) {
    NoEmptyRow(f) && (Reads(f, i) <==> NoEmptyConfig(i))
  }

  /** `order` names every interface once, and the list follows it. */
  ghost predicate Follows(list: seq<Dict<AttrValue>>, tree: Tree, order: seq<string>) {
    Distinct(order) && SetOf(order) == tree.Keys && |list| == |order|
  }

  /** The list read back has one entry for each interface, and each is the interface itself
      exactly when it has no empty access configuration. */
  ghost predicate ReadsEach(list: seq<Dict<AttrValue>>, tree: Tree, order: seq<string>) {
    && Follows(list, tree, order)
    && forall j :: 0 <= j < |order| ==> order[j] in tree && ReadBack(list[j], tree[order[j]])
  }

  /** The list read back is the whole tree. */
  ghost predicate ReadsWhole(list: seq<Dict<AttrValue>>, tree: Tree, order: seq<string>) {
    && Follows(list, tree, order)
    && forall j :: 0 <= j < |order| ==> order[j] in tree && Reads(list[j], tree[order[j]])
  }

  ghost predicate SameNested(d: Dict<Dict<string>>, g: Nested) {
    && ValidNested(d)
    && SetOf(d.keys) == g.Keys
    && forall idx :: idx in g ==> idx in d.vals && d.vals[idx].vals == g[idx]
  }

  lemma FlatInterfacesNotEmpty(tree: Tree)
    requires WellNamedTree(tree)
    ensures forall idx :: idx in FlatInterfaces(tree) ==> FlatInterfaces(tree)[idx] != map[]
  {
    forall idx | idx in tree ensures FlatInterfaces(tree)[idx] != map[] {
      assert CountKey(ACCESS) in FlatInterface(tree[idx]);
    }
  }

  lemma SameIndices(d: Dict<Dict<string>>, g: Nested)
    requires ValidNested(d) && forall idx :: idx in g ==> g[idx] != map[]
    requires forall idx :: idx in d.vals <==> idx in g && g[idx] != map[]
    requires forall idx :: idx in d.vals ==> d.vals[idx].vals == g[idx]
    ensures SameNested(d, g)
  {
  }

  lemma GroupedTree(source: Dict<string>, tree: Tree)
    requires WellNamedTree(tree) && StateOf(source, tree)
    ensures AttrDict(source.keys, source.vals, INTERFACE).Ok?
    ensures SameNested(AttrDict(source.keys, source.vals, INTERFACE).value, FlatInterfaces(tree))
  {
    StateCarries(source, tree);
    Regrouped(source, INTERFACE, FlatInterfaces(tree));
    FlatInterfacesNotEmpty(tree);
    SameIndices(AttrDict(source.keys, source.vals, INTERFACE).value, FlatInterfaces(tree));
  }

  /** An interface is finished and read back. */
  ghost predicate ReadAt(interfaces: seq<Dict<string>>, tree: Tree, order: seq<string>, j: nat)
    requires j < |interfaces| == |order| && interfaces[j].Valid()
  {
    && Finished(interfaces[j]).Ok? && order[j] in tree
    && ReadBack(Finished(interfaces[j]).value, tree[order[j]])
  }

  lemma FinishedAt(d: Dict<Dict<string>>, tree: Tree, j: nat)
    requires WellNamedTree(tree) && SameNested(d, FlatInterfaces(tree)) && j < |d.keys|
    ensures Values(d)[j].Valid() && ReadAt(Values(d), tree, d.keys, j)
  {
    assert d.keys[j] in SetOf(d.keys);
    assert d.keys[j] in FlatInterfaces(tree);
    InterfaceRoundTrip(Values(d)[j], tree[d.keys[j]]);
  }

  lemma ValuesValid(d: Dict<Dict<string>>)
    requires ValidNested(d)
    ensures AllValid(Values(d))
  {
    forall j | 0 <= j < |Values(d)| ensures Values(d)[j].Valid() {
      assert d.keys[j] in d.vals;
    }
  }

  lemma InterfacesRead(interfaces: seq<Dict<string>>, tree: Tree, order: seq<string>)
    requires AllValid(interfaces) && |interfaces| == |order|
    requires Distinct(order) && SetOf(order) == tree.Keys
    requires forall j :: 0 <= j < |order| ==> ReadAt(interfaces, tree, order, j)
    ensures Collect(Results(interfaces)).Ok?
    ensures ReadsEach(Collect(Results(interfaces)).value, tree, order)
  {
    forall j | 0 <= j < |interfaces| ensures Results(interfaces)[j].Ok? {
      assert ReadAt(interfaces, tree, order, j);
    }
    CollectAll(Results(interfaces));
    forall j | 0 <= j < |order|
      ensures order[j] in tree && ReadBack(Collect(Results(interfaces)).value[j], tree[order[j]])
    {
      assert ReadAt(interfaces, tree, order, j);
    }
  }

  /** An interface with an empty configuration is read back nowhere. */
  lemma EmptyNotRead(f: Dict<AttrValue>, i: Interface)
    requires NoEmptyRow(f) && Reads(f, i)
    ensures NoEmptyConfig(i)
  {
    var order :| Lists(f.vals[ACCESS].rows, i.configs, order);
    forall c | c in i.configs ensures i.configs[c] != map[] {
      assert c in SetOf(order);
      var j :| 0 <= j < |order| && order[j] == c;
      assert f.vals[ACCESS].rows[j] in f.vals[ACCESS].rows;
    }
  }

  lemma WholeIf(list: seq<Dict<AttrValue>>, tree: Tree, order: seq<string>)
    requires ReadsEach(list, tree, order)
    ensures (exists order' :: ReadsWhole(list, tree, order')) <==>
      forall idx :: idx in tree ==> NoEmptyConfig(tree[idx])
  {
    if forall idx :: idx in tree ==> NoEmptyConfig(tree[idx]) {
      assert ReadsWhole(list, tree, order);
    }
    forall order' | ReadsWhole(list, tree, order') ensures forall idx :: idx in tree ==> NoEmptyConfig(tree[idx]) {
      forall idx | idx in tree ensures NoEmptyConfig(tree[idx]) {
        assert idx in SetOf(order');
        var j :| 0 <= j < |order'| && order'[j] == idx;
        assert ReadBack(list[j], tree[order[j]]);
        EmptyNotRead(list[j], tree[idx]);
      }
    }
  }

  /** Reading any state of a tree of interfaces succeeds and gives each interface once, in some
      order, itself exactly when it has no empty access configuration; it gives the whole tree
      back exactly when none has. */
  lemma TreeRoundTrip(source: Dict<string>, tree: Tree)
    requires WellNamedTree(tree) && StateOf(source, tree)
    ensures Interfaces(source).Ok?
    ensures exists order :: ReadsEach(Interfaces(source).value, tree, order)
    ensures (exists order :: ReadsWhole(Interfaces(source).value, tree, order)) <==>
      forall idx :: idx in tree ==> NoEmptyConfig(tree[idx])
  {
    GroupedTree(source, tree);
    var d := AttrDict(source.keys, source.vals, INTERFACE).value;
    ValuesValid(d);
    forall j | 0 <= j < |d.keys| ensures ReadAt(Values(d), tree, d.keys, j) {
      FinishedAt(d, tree, j);
    }
    InterfacesRead(Values(d), tree, d.keys);
    WholeIf(Interfaces(source).value, tree, d.keys);
  }
}
