/** Insertion-ordered dictionaries, as OrderedDict and the sections of a
    ConfigParser are: a key keeps its place when its value is overwritten. */
module Dicts {

  datatype Dict<V> = Dict(keys: seq<string>, vals: map<string, V>) {

    ghost predicate Valid() {
      && Distinct(keys)
      && forall k :: k in keys <==> k in vals
    }

    function Put(k: string, v: V): Dict<V> {
      Dict(if k in vals then keys else keys + [k], vals[k := v])
    }

    function Remove(k: string): Dict<V> {
      Dict(Drop(keys, k), vals - {k})
    }

    /** The entries with a key in `ks`. */
    function Restrict(ks: set<string>): Dict<V> {
      Dict(Keep(keys, ks), map k | k in vals && k in ks :: vals[k])
    }
  }

  function Empty<V>(): Dict<V> {
    Dict([], map[])
  }

  ghost predicate Distinct<T>(s: seq<T>) {
    forall i, j :: 0 <= i < j < |s| ==> Differ(s, i, j)
  }

  /** A name for the inequality, so that two positions are compared only where it is asked for. */
  ghost predicate Differ<T>(s: seq<T>, i: nat, j: nat)
    requires i < j < |s|
  {
    s[i] != s[j]
  }

  lemma DistinctAt<T>(s: seq<T>, i: nat, j: nat)
    requires Distinct(s) && i < |s| && j < |s|
    ensures s[i] == s[j] <==> i == j
  {
    if i < j {
      assert Differ(s, i, j);
    } else if j < i {
      assert Differ(s, j, i);
    }
  }

  lemma DistinctPart<T>(s: seq<T>, low: nat, high: nat)
    requires Distinct(s) && low <= high <= |s|
    ensures Distinct(s[low..high])
  {
    forall i, j | 0 <= i < j < high - low ensures Differ(s[low..high], i, j) {
      DistinctAt(s, low + i, low + j);
    }
  }

  lemma TakeDistinct(s: seq<string>, n: nat)
    requires Distinct(s)
    ensures Distinct(Take(s, n))
  {
    var m := |Take(s, n)|;
    DistinctPart(s, 0, m);
    assert s[0..m] == Take(s, n);
  }

  /** No element of a list without repetitions comes back after its place. */
  lemma DistinctHere<T>(s: seq<T>, i: nat)
    requires Distinct(s) && i < |s|
    ensures s[i] !in s[..i] && s[i] !in s[i + 1..]
    ensures Distinct(s[..i]) && Distinct(s[i + 1..])
  {
    if s[i] in s[..i] {
      var j :| 0 <= j < i && s[..i][j] == s[i];
      DistinctAt(s, j, i);
    }
    if s[i] in s[i + 1..] {
      var j :| 0 <= j < |s| - i - 1 && s[i + 1..][j] == s[i];
      DistinctAt(s, i + 1 + j, i);
    }
    DistinctPart(s, 0, i);
    DistinctPart(s, i + 1, |s|);
    assert s[0..i] == s[..i] && s[i + 1..|s|] == s[i + 1..];
  }

  lemma DistinctPush<T>(s: seq<T>, x: T)
    requires Distinct(s) && x !in s
    ensures Distinct(s + [x])
  {
    forall i, j | 0 <= i < j <= |s| ensures Differ(s + [x], i, j) {
      assert j < |s| ==> Differ(s, i, j);
    }
  }

  /** `s` without the first occurrence of `k`. */
  function Drop(s: seq<string>, k: string): seq<string> {
    if s == [] then [] else if s[0] == k then s[1..] else [s[0]] + Drop(s[1..], k)
  }

  /** The elements of `s` that are in `ks`, in order. */
  function Keep(s: seq<string>, ks: set<string>): (r: seq<string>)
    ensures forall k :: k in r <==> k in s && k in ks
    ensures |r| <= |s|
  {
    if s == [] then []
    else
      var r := Keep(s[..|s| - 1], ks);
      assert s == s[..|s| - 1] + [s[|s| - 1]];
      if s[|s| - 1] in ks then r + [s[|s| - 1]] else r
  }

  /** `s` followed by those of `xs` that are not there yet, each once. */
  function Extend(s: seq<string>, xs: seq<string>): (r: seq<string>)
    ensures forall k :: k in r <==> k in s || k in xs
  {
    if xs == [] then s
    else
      var r := Extend(s, xs[..|xs| - 1]);
      assert xs == xs[..|xs| - 1] + [xs[|xs| - 1]];
      if xs[|xs| - 1] in r then r else r + [xs[|xs| - 1]]
  }

  /** The first `n` entries of `d`. */
  function First<V>(d: Dict<V>, n: nat): Dict<V>
    requires d.Valid() && n <= |d.keys|
  {
    Dict(d.keys[..n], map k | k in d.keys[..n] :: d.vals[k])
  }

  lemma FirstAll<V>(d: Dict<V>)
    requires d.Valid()
    ensures First(d, |d.keys|) == d
  {
    assert d.keys[..|d.keys|] == d.keys;
  }

  lemma FirstValid<V>(d: Dict<V>, n: nat)
    requires d.Valid() && n <= |d.keys|
    ensures First(d, n).Valid()
    ensures n < |d.keys| ==> d.keys[n] !in First(d, n).vals
  {
    DistinctPart(d.keys, 0, n);
    assert d.keys[0..n] == d.keys[..n];
    if n < |d.keys| {
      DistinctHere(d.keys, n);
    }
  }

  lemma FirstStep<V>(d: Dict<V>, i: nat)
    requires d.Valid() && i < |d.keys|
    ensures First(d, i).Put(d.keys[i], d.vals[d.keys[i]]) == First(d, i + 1)
  {
    NextSlice(d.keys, i);
    DistinctHere(d.keys, i);
  }

  function SetOf(s: seq<string>): set<string> {
    set k | k in s
  }

  /** The first `n` elements of `s`, or all of them: Python's `s[:n]`. */
  function Take(s: seq<string>, n: nat): (r: seq<string>)
    ensures r <= s && |r| == if n <= |s| then n else |s|
  {
    if n <= |s| then s[..n] else s
  }

  /** Python's `s[m:n]` for `m <= n`. */
  function Slice(s: seq<string>, m: nat, n: nat): seq<string>
    requires m <= n
  {
    Take(s, n)[|Take(s, m)|..]
  }

  /***** Laws *****/

  lemma NextSlice<T>(s: seq<T>, i: nat)
    requires i < |s|
    ensures s[..i + 1] == s[..i] + [s[i]]
  {
  }

  lemma {:induction false} DropAt(a: seq<string>, k: string, b: seq<string>)
    requires k !in a
    ensures Drop(a + [k] + b, k) == a + b
  {
    var whole := a + [k] + b;
    if a == [] {
      assert whole[1..] == b;
    } else {
      assert whole[1..] == a[1..] + [k] + b;
      DropAt(a[1..], k, b);
    }
  }

  lemma {:induction false} DropMembers(s: seq<string>, k: string)
    requires Distinct(s)
    ensures Distinct(Drop(s, k))
    ensures forall x :: x in Drop(s, k) <==> x in s && x != k
  {
    if s == [] {
    } else {
      assert s == [s[0]] + s[1..];
      DistinctHere(s, 0);
      DropMembers(s[1..], k);
      DistinctConcat([s[0]], Drop(s[1..], k));
    }
  }

  lemma KeepOne(x: string, ks: set<string>)
    ensures Keep([x], ks) == if x in ks then [x] else []
  {
    assert [x][..0] == [];
  }

  lemma KeepAround(a: seq<string>, k: string, b: seq<string>, ks: set<string>)
    requires k !in ks && (forall x :: x in a ==> x in ks) && (forall x :: x in b ==> x in ks)
    ensures Keep(a + [k] + b, ks) == a + b
  {
    KeepConcat(a + [k], b, ks);
    KeepConcat(a, [k], ks);
    KeepOne(k, ks);
    KeepAll(a, ks);
    KeepAll(b, ks);
  }

  lemma DropIsKeep(s: seq<string>, k: string, ks: set<string>)
    requires Distinct(s)
    requires forall x :: x in s ==> (x in ks <==> x != k)
    ensures Drop(s, k) == Keep(s, ks)
  {
    if k in s {
      var i :| 0 <= i < |s| && s[i] == k;
      DistinctHere(s, i);
      assert s == s[..i] + [k] + s[i + 1..];
      DropAt(s[..i], k, s[i + 1..]);
      KeepAround(s[..i], k, s[i + 1..], ks);
    } else {
      DropAbsent(s, k);
      KeepAll(s, ks);
    }
  }

  lemma {:induction false} DropAbsent(s: seq<string>, k: string)
    requires k !in s
    ensures Drop(s, k) == s
  {
    if s == [] {
    } else {
      DropAbsent(s[1..], k);
    }
  }

  lemma {:induction false} KeepConcat(a: seq<string>, b: seq<string>, ks: set<string>)
    ensures Keep(a + b, ks) == Keep(a, ks) + Keep(b, ks)
  {
    if b == [] {
      assert a + b == a;
    } else {
      assert (a + b)[..|a + b| - 1] == a + b[..|b| - 1];
      KeepConcat(a, b[..|b| - 1], ks);
    }
  }

  lemma KeepNext(s: seq<string>, ks: set<string>, i: nat)
    requires i < |s|
    ensures Keep(s[..i + 1], ks) == if s[i] in ks then Keep(s[..i], ks) + [s[i]] else Keep(s[..i], ks)
  {
    assert s[..i + 1][..i] == s[..i];
  }

  lemma {:induction false} KeepAll(s: seq<string>, ks: set<string>)
    requires forall k :: k in s ==> k in ks
    ensures Keep(s, ks) == s
  {
    if s == [] {
    } else {
      KeepAll(s[..|s| - 1], ks);
      assert s == s[..|s| - 1] + [s[|s| - 1]];
    }
  }

  lemma {:induction false} KeepDistinct(s: seq<string>, ks: set<string>)
    requires Distinct(s)
    ensures Distinct(Keep(s, ks))
  {
    if s == [] {
    } else {
      DistinctHere(s, |s| - 1);
      KeepDistinct(s[..|s| - 1], ks);
      if s[|s| - 1] in ks {
        DistinctPush(Keep(s[..|s| - 1], ks), s[|s| - 1]);
      }
    }
  }

  /** Only the part of `ks` that `s` mentions matters. */
  lemma {:induction false} KeepAgree(s: seq<string>, ks: set<string>, ks': set<string>)
    requires forall k :: k in s ==> (k in ks <==> k in ks')
    ensures Keep(s, ks) == Keep(s, ks')
  {
    if s == [] {
    } else {
      KeepAgree(s[..|s| - 1], ks, ks');
    }
  }

  lemma {:induction false} KeepKeep(s: seq<string>, ks: set<string>, ks': set<string>)
    ensures Keep(Keep(s, ks), ks') == Keep(s, ks * ks')
  {
    if s == [] {
    } else {
      var init, last := s[..|s| - 1], s[|s| - 1];
      KeepKeep(init, ks, ks');
      KeepConcat(Keep(init, ks), if last in ks then [last] else [], ks');
      assert Keep([last], ks') == if last in ks' then [last] else [] by {
        assert [last][..0] == [];
      }
    }
  }

  /** A survivor never moves back: what is kept of a prefix is a prefix of what is kept. */
  lemma KeepPrefix(s: seq<string>, n: nat, ks: set<string>)
    requires n <= |s|
    ensures Keep(s[..n], ks) <= Keep(s, ks)
  {
    assert s == s[..n] + s[n..];
    KeepConcat(s[..n], s[n..], ks);
  }

  /** `d` after its first `n` entries have been checked against `live`. */
  function PartlyRestricted<V>(d: Dict<V>, live: set<string>, n: nat): Dict<V>
    requires n <= |d.keys|
  {
    Dict(Keep(d.keys[..n], live) + d.keys[n..], d.vals - (SetOf(d.keys[..n]) - live))
  }

  lemma PartlyRestrictedEnds<V>(d: Dict<V>, live: set<string>)
    requires d.Valid()
    ensures PartlyRestricted(d, live, 0) == d
    ensures PartlyRestricted(d, live, |d.keys|) == d.Restrict(live)
  {
    assert d.keys[..|d.keys|] == d.keys;
  }

  lemma PartlyKept(s: seq<string>, live: set<string>, i: nat)
    requires Distinct(s) && i < |s|
    ensures Keep(s[..i + 1], live) + s[i + 1..] ==
      if s[i] in live then Keep(s[..i], live) + s[i..] else Drop(Keep(s[..i], live) + s[i..], s[i])
  {
    var k := s[i];
    var kept := Keep(s[..i], live);
    assert s[..i + 1][..i] == s[..i] && s[..i + 1][i] == k;
    assert kept + s[i..] == kept + [k] + s[i + 1..];
    DistinctHere(s, i);
    if k !in live {
      DropAt(kept, k, s[i + 1..]);
    }
  }

  lemma PartlyGone<V>(vals: map<string, V>, s: seq<string>, live: set<string>, i: nat)
    requires i < |s|
    ensures vals - (SetOf(s[..i + 1]) - live) ==
      if s[i] in live then vals - (SetOf(s[..i]) - live) else vals - (SetOf(s[..i]) - live) - {s[i]}
  {
    assert s[..i + 1] == s[..i] + [s[i]];
  }

  lemma PartlyRestrictedStep<V>(d: Dict<V>, live: set<string>, i: nat)
    requires d.Valid() && i < |d.keys|
    ensures PartlyRestricted(d, live, i + 1) ==
      if d.keys[i] in live then PartlyRestricted(d, live, i) else PartlyRestricted(d, live, i).Remove(d.keys[i])
  {
    PartlyKept(d.keys, live, i);
    PartlyGone(d.vals, d.keys, live, i);
  }

  lemma {:induction false} ExtendDistinct(s: seq<string>, xs: seq<string>)
    requires Distinct(s)
    ensures Distinct(Extend(s, xs))
    ensures s <= Extend(s, xs)
  {
    if xs == [] {
    } else {
      var init, last := xs[..|xs| - 1], xs[|xs| - 1];
      ExtendDistinct(s, init);
      if last !in Extend(s, init) {
        DistinctPush(Extend(s, init), last);
      }
    }
  }

  lemma PutValid<V>(d: Dict<V>, k: string, v: V)
    requires d.Valid()
    ensures d.Put(k, v).Valid()
  {
    if k !in d.vals {
      DistinctPush(d.keys, k);
    }
  }

  lemma RemoveValid<V>(d: Dict<V>, k: string)
    requires d.Valid()
    ensures d.Remove(k).Valid()
  {
    DropMembers(d.keys, k);
  }

  lemma RestrictValid<V>(d: Dict<V>, ks: set<string>)
    requires d.Valid()
    ensures d.Restrict(ks).Valid()
  {
    KeepDistinct(d.keys, ks);
  }

  lemma PutPut<V>(d: Dict<V>, k: string, v: V, w: V)
    ensures d.Put(k, v).Put(k, w) == d.Put(k, w)
  {
    assert d.vals[k := v][k := w] == d.vals[k := w];
  }

  lemma PutSame<V>(d: Dict<V>, k: string)
    requires k in d.vals
    ensures d.Put(k, d.vals[k]) == d
  {
    assert d.vals[k := d.vals[k]] == d.vals;
  }

  lemma {:induction false} ExtendSubset(s: seq<string>, xs: seq<string>)
    requires forall x :: x in xs ==> x in s
    ensures Extend(s, xs) == s
  {
    if xs == [] {
    } else {
      ExtendSubset(s, xs[..|xs| - 1]);
    }
  }

  lemma {:induction false} ExtendFresh(s: seq<string>, xs: seq<string>)
    requires Distinct(xs)
    requires forall x :: x in xs ==> x !in s
    ensures Extend(s, xs) == s + xs
  {
    if xs == [] {
      assert s + xs == s;
    } else {
      var init, last := xs[..|xs| - 1], xs[|xs| - 1];
      DistinctHere(xs, |xs| - 1);
      assert xs == init + [last];
      ExtendFresh(s, init);
      assert s + xs == s + init + [last];
    }
  }

  lemma {:induction false} ExtendConcat(s: seq<string>, xs: seq<string>, ys: seq<string>)
    ensures Extend(s, xs + ys) == Extend(Extend(s, xs), ys)
  {
    if ys == [] {
      assert xs + ys == xs;
    } else {
      assert (xs + ys)[..|xs + ys| - 1] == xs + ys[..|ys| - 1];
      ExtendConcat(s, xs, ys[..|ys| - 1]);
    }
  }

  /** Extending a prefix of `xs` by `xs` completes it. */
  lemma ExtendPrefix(s: seq<string>, xs: seq<string>)
    requires s <= xs && Distinct(xs)
    ensures Extend(s, xs) == xs
  {
    var rest := xs[|s|..];
    assert xs == s + rest;
    ExtendConcat(s, s, rest);
    ExtendSubset(s, s);
    DistinctSplit(s, rest);
    ExtendFresh(s, rest);
  }

  lemma DistinctConcat<T>(a: seq<T>, b: seq<T>)
    requires Distinct(a) && Distinct(b)
    requires forall x :: x in a ==> x !in b
    ensures Distinct(a + b)
  {
    forall i, j | 0 <= i < j < |a + b| ensures Differ(a + b, i, j) {
      if j < |a| {
        assert Differ(a, i, j);
      } else if i < |a| {
        assert a[i] in a && b[j - |a|] in b;
      } else {
        assert Differ(b, i - |a|, j - |a|);
      }
    }
  }

  lemma DistinctSplit<T>(a: seq<T>, b: seq<T>)
    requires Distinct(a + b)
    ensures Distinct(a) && Distinct(b)
    ensures forall x :: x in a ==> x !in b
  {
    DistinctPart(a + b, 0, |a|);
    DistinctPart(a + b, |a|, |a + b|);
    assert (a + b)[0..|a|] == a && (a + b)[|a|..|a + b|] == b;
    forall x | x in a ensures x !in b {
      if x in b {
        var i :| 0 <= i < |a| && a[i] == x;
        var j :| 0 <= j < |b| && b[j] == x;
        DistinctAt(a + b, i, |a| + j);
      }
    }
  }
}
