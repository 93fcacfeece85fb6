/** Reading nested attributes back from the dotted keys of a Terraform state. */
module TerraformAttrs {
  import opened Text
  import opened Dicts

  /** A dotted key without the index that a list entry needs: `split` cannot be unpacked. */
  datatype Failure = NoIndex

  /** Python's `s.split(sep, 1)`, when it has two parts. */
  function SplitOnce(s: string, sep: char): Option<(string, string)> {
    if s == "" then None
    else if s[0] == sep then Some(("", s[1..]))
    else match SplitOnce(s[1..], sep)
      case None => None
      case Some((a, b)) => Some(([s[0]] + a, b))
  }

  lemma {:induction false} SplitOnceAt(a: string, sep: char, b: string)
    requires sep !in a
    ensures SplitOnce(a + [sep] + b, sep) == Some((a, b))
  {
    var s := a + [sep] + b;
    if a == "" {
      assert s[1..] == b;
    } else {
      assert s[1..] == a[1..] + [sep] + b;
      SplitOnceAt(a[1..], sep, b);
      assert [a[0]] + a[1..] == a;
    }
  }

  lemma {:induction false} SplitOnceParts(s: string, sep: char)
    ensures SplitOnce(s, sep).None? <==> sep !in s
    ensures SplitOnce(s, sep).Some? ==>
      var (a, b) := SplitOnce(s, sep).value; sep !in a && s == a + [sep] + b
  {
    if s != "" && s[0] != sep {
      SplitOnceParts(s[1..], sep);
      assert s == [s[0]] + s[1..];
    }
  }

  /** `prefix.idx.key` */
  function PathKey(prefix: string, idx: string, key: string): string {
    prefix + ['.'] + (idx + ['.'] + key)
  }

  lemma PathKeySplits(prefix: string, idx: string, key: string)
    requires '.' !in prefix && '.' !in idx
    ensures SplitOnce(PathKey(prefix, idx, key), '.') == Some((prefix, idx + ['.'] + key))
    ensures SplitOnce(idx + ['.'] + key, '.') == Some((idx, key))
    ensures idx + ['.'] + key != "#"
  {
    SplitOnceAt(prefix, '.', idx + ['.'] + key);
    SplitOnceAt(idx, '.', key);
    assert (idx + ['.'] + key)[|idx|] == '.';
  }

  /***** parse_attr_list *****/

  function Sub<V>(d: Dict<Dict<V>>, idx: string): Dict<V> {
    if idx in d.vals then d.vals[idx] else Empty()
  }

  function AttrStep<V>(d: Dict<Dict<V>>, compkey: string, v: V, prefix: string): Result<Dict<Dict<V>>, Failure> {
    match SplitOnce(compkey, '.')
    case None => Ok(d)
    case Some((curprefix, rest)) =>
      if curprefix != prefix || rest == "#" then Ok(d)
      else match SplitOnce(rest, '.')
        case None => Err(NoIndex)
        case Some((idx, key)) => Ok(d.Put(idx, Sub(d, idx).Put(key, v)))
  }

  function AttrDict<V>(keys: seq<string>, vals: map<string, V>, prefix: string): Result<Dict<Dict<V>>, Failure>
    requires forall k :: k in keys ==> k in vals
  {
    if keys == [] then Ok(Empty())
    else match AttrDict(keys[..|keys| - 1], vals, prefix)
      case Err(e) => Err(e)
      case Ok(d) => AttrStep(d, keys[|keys| - 1], vals[keys[|keys| - 1]], prefix)
  }

  /** `attrs.values()` */
  function Values<V>(d: Dict<V>): (r: seq<V>)
    requires d.Valid()
    ensures |r| == |d.keys|
    ensures forall i :: 0 <= i < |r| ==> r[i] == d.vals[d.keys[i]]
  {
    seq(|d.keys|, i requires 0 <= i < |d.keys| => d.vals[d.keys[i]])
  }

  ghost predicate ValidNested<V(!new)>(d: Dict<Dict<V>>) {
    d.Valid() && forall idx :: idx in d.vals ==> d.vals[idx].Valid()
  }

  lemma {:induction false} AttrDictValid<V(!new)>(keys: seq<string>, vals: map<string, V>, prefix: string)
    requires forall k :: k in keys ==> k in vals
    ensures AttrDict(keys, vals, prefix).Ok? ==> ValidNested(AttrDict(keys, vals, prefix).value)
  {
    if keys == [] {
    } else {
      var init, last := keys[..|keys| - 1], keys[|keys| - 1];
      AttrDictValid(init, vals, prefix);
      if AttrDict(init, vals, prefix).Ok? {
        AttrStepValid(AttrDict(init, vals, prefix).value, last, vals[last], prefix);
      }
    }
  }

  lemma AttrStepValid<V(!new)>(d: Dict<Dict<V>>, compkey: string, v: V, prefix: string)
    requires ValidNested(d)
    ensures AttrStep(d, compkey, v, prefix).Ok? ==> ValidNested(AttrStep(d, compkey, v, prefix).value)
  {
    forall idx: string, key ensures Sub(d, idx).Put(key, v).Valid() {
      PutValid(Sub(d, idx), key, v);
    }
    forall idx, sub: Dict<V> | sub.Valid() ensures d.Put(idx, sub).Valid() {
      PutValid(d, idx, sub);
    }
  }

  lemma {:induction false} AttrDictStops<V>(keys: seq<string>, vals: map<string, V>, prefix: string, n: nat)
    requires forall k :: k in keys ==> k in vals
    requires n <= |keys| && AttrDict(keys[..n], vals, prefix).Err?
    ensures AttrDict(keys, vals, prefix) == AttrDict(keys[..n], vals, prefix)
  {
    if n < |keys| {
      assert keys[..|keys| - 1][..n] == keys[..n];
      AttrDictStops(keys[..|keys| - 1], vals, prefix, n);
    } else {
      assert keys[..n] == keys;
    }
  }

  method ParseAttrList<V(!new)>(source: Dict<V>, prefix: string) returns (r: Result<seq<Dict<V>>, Failure>)
    requires source.Valid()
    ensures match AttrDict(source.keys, source.vals, prefix)
            case Err(e) => r == Err(e)
            case Ok(d) => d.Valid() && r == Ok(Values(d))
  {
    var attrs: Dict<Dict<V>> := Empty();
    for i := 0 to |source.keys|
      invariant AttrDict(source.keys[..i], source.vals, prefix) == Ok(attrs)
    {
      var compkey := source.keys[i];
      assert source.keys[..i + 1][..i] == source.keys[..i];
      var parts := SplitOnce(compkey, '.');
      if parts.None? {
        continue;
      }
      var (curprefix, rest) := parts.value;
      if curprefix != prefix || rest == "#" {
        continue;
      }
      var path := SplitOnce(rest, '.');
      if path.None? {
        AttrDictStops(source.keys, source.vals, prefix, i + 1);
        return Err(NoIndex);
      }
      var (idx, key) := path.value;
      attrs := attrs.Put(idx, Sub(attrs, idx).Put(key, source.vals[compkey]));
    }
    assert source.keys[..|source.keys|] == source.keys;
    AttrDictValid(source.keys, source.vals, prefix);
    return Ok(Values(attrs));
  }

  /***** What the grouping means *****/

  predicate Has<V>(d: Dict<Dict<V>>, idx: string, key: string) {
    idx in d.vals && key in d.vals[idx].vals
  }

  /** The grouped dictionary holds an entry exactly for each `prefix.idx.key` of the source. */
  ghost predicate Groups<V(!new)>(d: Dict<Dict<V>>, keys: seq<string>, vals: map<string, V>, prefix: string)
    requires forall k :: k in keys ==> k in vals
  {
    && (forall idx, key :: Has(d, idx, key) <==> '.' !in idx && PathKey(prefix, idx, key) in keys)
    && (forall idx, key :: Has(d, idx, key) ==> d.vals[idx].vals[key] == vals[PathKey(prefix, idx, key)])
    && (forall idx :: idx in d.vals ==> d.vals[idx].vals != map[])
  }

  /** A key that the grouping can read, or that is not its business. */
  predicate Indexed(prefix: string, compkey: string) {
    match SplitOnce(compkey, '.')
    case None => true
    case Some((curprefix, rest)) => curprefix == prefix && rest != "#" ==> '.' in rest
  }

  lemma GroupsPut<V(!new)>(
    d: Dict<Dict<V>>, keys: seq<string>, vals: map<string, V>, prefix: string, idx: string, key: string)
    requires forall k :: k in keys ==> k in vals
    requires Groups(d, keys, vals, prefix)
    requires '.' !in prefix && '.' !in idx && PathKey(prefix, idx, key) in vals
    ensures Groups(d.Put(idx, Sub(d, idx).Put(key, vals[PathKey(prefix, idx, key)])),
                   keys + [PathKey(prefix, idx, key)], vals, prefix)
  {
    var path := PathKey(prefix, idx, key);
    var d' := d.Put(idx, Sub(d, idx).Put(key, vals[path]));
    forall i, k ensures Has(d', i, k) <==> '.' !in i && PathKey(prefix, i, k) in keys + [path]
      ensures Has(d', i, k) ==> d'.vals[i].vals[k] == vals[PathKey(prefix, i, k)]
    {
      assert Has(d', i, k) <==> Has(d, i, k) || (i == idx && k == key);
      if '.' !in i && PathKey(prefix, i, k) == path {
        PathKeySplits(prefix, i, k);
        PathKeySplits(prefix, idx, key);
      }
    }
  }

  lemma GroupsSkip<V(!new)>(d: Dict<Dict<V>>, keys: seq<string>, vals: map<string, V>, prefix: string, compkey: string)
    requires forall k :: k in keys ==> k in vals
    requires Groups(d, keys, vals, prefix) && '.' !in prefix && compkey in vals
    requires forall idx, key :: '.' !in idx ==> PathKey(prefix, idx, key) != compkey
    ensures Groups(d, keys + [compkey], vals, prefix)
  {
  }

  /** The grouping fails exactly when some key of this prefix has no index, and otherwise
      holds exactly the indexed entries of the source, in whatever order they come. */
  lemma {:induction false} AttrDictIs<V(!new)>(keys: seq<string>, vals: map<string, V>, prefix: string)
    requires '.' !in prefix && forall k :: k in keys ==> k in vals
    ensures AttrDict(keys, vals, prefix).Ok? <==> forall k :: k in keys ==> Indexed(prefix, k)
    ensures AttrDict(keys, vals, prefix).Ok? ==> Groups(AttrDict(keys, vals, prefix).value, keys, vals, prefix)
  {
    if keys == [] {
    } else {
      var init, last := keys[..|keys| - 1], keys[|keys| - 1];
      assert keys == init + [last];
      AttrDictIs(init, vals, prefix);
      AttrStepIs(init, vals, prefix, last);
    }
  }

  lemma AttrStepIs<V(!new)>(keys: seq<string>, vals: map<string, V>, prefix: string, last: string)
    requires '.' !in prefix && last in vals && forall k :: k in keys ==> k in vals
    requires AttrDict(keys, vals, prefix).Ok? ==> Groups(AttrDict(keys, vals, prefix).value, keys, vals, prefix)
    ensures AttrDict(keys, vals, prefix).Ok? ==>
      var step := AttrStep(AttrDict(keys, vals, prefix).value, last, vals[last], prefix);
      && (step.Ok? <==> Indexed(prefix, last))
      && (step.Ok? ==> Groups(step.value, keys + [last], vals, prefix))
  {
    if AttrDict(keys, vals, prefix).Ok? {
      var d := AttrDict(keys, vals, prefix).value;
      SplitOnceParts(last, '.');
      var parts := SplitOnce(last, '.');
      if parts.Some? && parts.value.0 == prefix && parts.value.1 != "#" {
        SplitOnceParts(parts.value.1, '.');
        var path := SplitOnce(parts.value.1, '.');
        if path.Some? {
          assert last == PathKey(prefix, path.value.0, path.value.1);
          GroupsPut(d, keys, vals, prefix, path.value.0, path.value.1);
        }
      } else {
        forall idx, key | '.' !in idx ensures PathKey(prefix, idx, key) != last {
          PathKeySplits(prefix, idx, key);
        }
        GroupsSkip(d, keys, vals, prefix, last);
      }
    }
  }
}
