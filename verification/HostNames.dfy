/** Name allocation: ids are read back, fresh names never collide, and survivors keep their
    order and never move away from the front. */
module HostNames {
  import opened Text
  import opened Dicts
  import opened InventorySpec

  /***** Ids *****/

  /** The part of a host name that its id is read from. */
  function ShortName(host: string): string {
    Split(host, '.')[0]
  }

  lemma ShortNameOfHostName(prefix: string, id: nat)
    ensures ShortName(HostName(prefix, id)) ==
      if '.' in prefix then ShortName(prefix) else HostName(prefix, id)
  {
    if '.' in prefix {
      SplitHead(prefix, Decimal(id), '.');
    } else {
      forall c | c in Decimal(id) ensures c != '.' {
        var i :| 0 <= i < |Decimal(id)| && Decimal(id)[i] == c;
        assert IsDigit(Decimal(id)[i]);
      }
      SplitNoSeparator(prefix + Decimal(id), '.');
    }
  }

  lemma HostIdOfHostName(prefix: string, id: nat)
    requires '.' !in prefix
    ensures HostId(HostName(prefix, id)).Ok?
    ensures HostId(HostName(prefix, id)).value >= id
    ensures HostId(HostName(prefix, id)).value == id <==> Value(TrailingDigits(prefix)) == 0
  {
    ShortNameOfHostName(prefix, id);
    TrailingDigitsOfAppend(prefix, Decimal(id));
    ValueOfAppend(TrailingDigits(prefix), Decimal(id));
    ValueOfDecimal(id);
  }

  ghost predicate IdsReadBack(prefix: string) {
    forall id: nat :: HostId(HostName(prefix, id)) == Ok(id)
  }

  /** Every allocated id is read back from its name exactly when the prefix has no dot and
      does not end in digits other than zeros. */
  lemma IdRoundTrip(prefix: string)
    ensures IdsReadBack(prefix) <==> '.' !in prefix && Value(TrailingDigits(prefix)) == 0
  {
    if '.' in prefix {
      ShortNameOfHostName(prefix, 0);
      ShortNameOfHostName(prefix, 1);
      assert HostId(HostName(prefix, 0)) == HostId(HostName(prefix, 1));
    } else {
      forall id: nat ensures HostId(HostName(prefix, id)) == Ok(id) <==> Value(TrailingDigits(prefix)) == 0 {
        HostIdOfHostName(prefix, id);
      }
      assert HostId(HostName(prefix, 0)) == Ok(0) <==> Value(TrailingDigits(prefix)) == 0;
    }
  }

  lemma {:induction false} HighestIdBound(keys: seq<string>, k: string)
    requires HighestId(keys).Ok? && k in keys
    ensures HostId(k).Ok? && HostId(k).value <= HighestId(keys).value
  {
    if k != keys[|keys| - 1] {
      assert keys == keys[..|keys| - 1] + [keys[|keys| - 1]];
      HighestIdBound(keys[..|keys| - 1], k);
    }
  }

  lemma {:induction false} HighestIdTotal(keys: seq<string>)
    requires forall k :: k in keys ==> HostId(k).Ok?
    ensures HighestId(keys).Ok?
  {
    if keys == [] {
    } else {
      HighestIdTotal(keys[..|keys| - 1]);
    }
  }

  lemma NoTrailingDigit(name: string)
    requires name != "" && !IsDigit(name[|name| - 1]) && '.' !in name
    ensures HostId(name).Err?
  {
    SplitNoSeparator(name, '.');
  }

  lemma RolesHaveNoId(role: string)
    requires role in ROLES
    ensures HostId(role).Err?
  {
    var i :| 0 <= i < |ROLES| && ROLES[i] == role;
    NoTrailingDigit(ROLES[i]);
  }

  /***** Fresh names *****/

  /** A prefix for which no allocated name was ever used before. */
  predicate SafePrefix(prefix: string) {
    '.' in prefix ==> HostId(prefix).Err?
  }

  lemma UnusedName(existing: Section, prefix: string, id: nat)
    requires existing.Valid() && SafePrefix(prefix)
    requires HighestId(existing.keys).Ok? && id > HighestId(existing.keys).value
    ensures HostName(prefix, id) !in existing.keys
  {
    if HostName(prefix, id) in existing.keys {
      HighestIdBound(existing.keys, HostName(prefix, id));
      ShortNameOfHostName(prefix, id);
      if '.' !in prefix {
        HostIdOfHostName(prefix, id);
      }
    }
  }

  lemma HostNameInjective(prefix: string, m: nat, n: nat)
    requires HostName(prefix, m) == HostName(prefix, n)
    ensures m == n
  {
    assert HostName(prefix, m)[|prefix|..] == Decimal(m);
    assert HostName(prefix, n)[|prefix|..] == Decimal(n);
    DecimalInjective(m, n);
  }

  /** Every name in the list was there at the start or carries an id allocated since. */
  ghost predicate Known(existing: Section, prefix: string, low: nat, b: Builder) {
    && low <= b.next
    && b.hosts.Valid()
    && forall k :: k in b.hosts.keys ==>
      k in existing.keys || exists id: nat :: low <= id < b.next && k == HostName(prefix, id)
  }

  lemma KnownStep(existing: Section, prefix: string, low: nat, b: Builder, token: string)
    requires Known(existing, prefix, low, b) && Token(b, prefix, token).Ok?
    ensures Known(existing, prefix, low, Token(b, prefix, token).value)
    ensures b.next <= Token(b, prefix, token).value.next
  {
    var b' := Token(b, prefix, token).value;
    TokenValid(b, prefix, token);
    forall k | k in b'.hosts.keys
      ensures k in existing.keys || exists id: nat :: low <= id < b'.next && k == HostName(prefix, id)
    {
      if k !in b.hosts.keys {
        assert k == HostName(prefix, b.next);
      }
    }
  }

  lemma {:induction false} KnownAlways(existing: Section, prefix: string, b: Builder, tokens: seq<string>)
    requires Known(existing, prefix, b.next, b) && Tokens(b, prefix, tokens).Ok?
    ensures Known(existing, prefix, b.next, Tokens(b, prefix, tokens).value)
  {
    if tokens == [] {
    } else {
      KnownAlways(existing, prefix, b, tokens[..|tokens| - 1]);
      KnownStep(existing, prefix, b.next, Tokens(b, prefix, tokens[..|tokens| - 1]).value, tokens[|tokens| - 1]);
    }
  }

  /** After any tokens, the name to be allocated next differs from every name the inventory
      had at the start (deleted or not), every name in the list, and every name allocated
      so far; those carry the ids from the highest one on, without a gap. */
  ghost predicate AlwaysFresh(prefix: string) {
    forall existing: Section, tokens: seq<string> ::
      existing.Valid() && RunTokens(existing, prefix, tokens).Ok? ==>
        NextIsFresh(existing, prefix, RunTokens(existing, prefix, tokens).value)
  }

  ghost predicate NextIsFresh(existing: Section, prefix: string, b: Builder)
    requires existing.Valid()
  {
    && HighestId(existing.keys).Ok?
    && HighestId(existing.keys).value < b.next
    && var low := HighestId(existing.keys).value + 1;
       var name := HostName(prefix, b.next);
       && Known(existing, prefix, low, b)
       && name !in existing.keys
       && name !in b.hosts.keys
       && forall id: nat :: id < b.next ==> HostName(prefix, id) != name
  }

  /** Allocated names are always fresh exactly when the prefix is safe. */
  lemma FreshNames(prefix: string)
    ensures AlwaysFresh(prefix) <==> SafePrefix(prefix)
  {
    if SafePrefix(prefix) {
      forall existing: Section, tokens | existing.Valid() && RunTokens(existing, prefix, tokens).Ok?
        ensures NextIsFresh(existing, prefix, RunTokens(existing, prefix, tokens).value)
      {
        FreshAfter(existing, prefix, tokens);
      }
    } else {
      var c := HostId(prefix).value;
      var name := HostName(prefix, c + 1);
      ShortNameOfHostName(prefix, c + 1);
      var existing: Section := Dict([name], map[name := ""]);
      assert HighestId(existing.keys) == Ok(c) by {
        assert existing.keys[..0] == [];
      }
      assert RunTokens(existing, prefix, []) == Ok(Builder(existing, c + 1));
      assert !NextIsFresh(existing, prefix, Builder(existing, c + 1));
    }
  }

  lemma FreshAfter(existing: Section, prefix: string, tokens: seq<string>)
    requires SafePrefix(prefix) && existing.Valid() && RunTokens(existing, prefix, tokens).Ok?
    ensures NextIsFresh(existing, prefix, RunTokens(existing, prefix, tokens).value)
  {
    var low := HighestId(existing.keys).value + 1;
    var b := RunTokens(existing, prefix, tokens).value;
    KnownAlways(existing, prefix, Builder(existing, low), tokens);
    UnusedName(existing, prefix, b.next);
    forall id: nat | id < b.next ensures HostName(prefix, id) != HostName(prefix, b.next) {
      if HostName(prefix, id) == HostName(prefix, b.next) {
        HostNameInjective(prefix, id, b.next);
      }
    }
  }

  /***** Survivors keep their order and newcomers follow *****/

  /** `keys` is what is left of `old`, in order, followed by newcomers. */
  ghost predicate Follows(before: seq<string>, keys: seq<string>) {
    var left := Keep(before, SetOf(keys));
    left <= keys && forall k :: k in keys[|left|..] ==> k !in before
  }

  lemma FollowsSelf(keys: seq<string>)
    ensures Follows(keys, keys)
  {
    KeepAll(keys, SetOf(keys));
  }

  lemma FollowsDrop(before: seq<string>, keys: seq<string>, k: string)
    requires Follows(before, keys) && Distinct(keys)
    ensures Follows(before, Drop(keys, k))
  {
    var ks := SetOf(keys) - {k};
    var left := Keep(before, SetOf(keys));
    var rest := keys[|left|..];
    DropIsKeep(keys, k, ks);
    assert keys == left + rest;
    KeepConcat(left, rest, ks);
    KeepKeep(before, SetOf(keys), ks);
    KeepAgree(before, SetOf(keys) * ks, SetOf(Drop(keys, k)));
    assert Keep(before, SetOf(Drop(keys, k))) == Keep(left, ks);
    assert Drop(keys, k)[|Keep(left, ks)|..] == Keep(rest, ks);
  }

  lemma FollowsAppend(before: seq<string>, keys: seq<string>, k: string)
    requires Follows(before, keys) && k !in before
    ensures Follows(before, keys + [k])
  {
    KeepAgree(before, SetOf(keys), SetOf(keys + [k]));
    var left := Keep(before, SetOf(keys));
    assert (keys + [k])[|left|..] == keys[|left|..] + [k];
  }

  /** The three things a token can do to the host list. */
  ghost predicate Effect(b: Builder, b': Builder, prefix: string, token: string) {
    || b' == b
    || (exists k :: k in b.hosts.keys && b' == b.(hosts := b.hosts.Remove(k)))
    || b' == Builder(b.hosts.Put(HostName(prefix, b.next), HostOpts(token)), b.next + 1)
  }

  lemma DeletionEffect(b: Builder, prefix: string, token: string)
    requires b.hosts.Valid() && token != "" && token[0] == '-' && Token(b, prefix, token).Ok?
    ensures Effect(b, Token(b, prefix, token).value, prefix, token)
  {
    var target := token[1..];
    FindIpInKeys(b.hosts.keys, b.hosts.vals, target);
    if target in b.hosts.vals {
      assert target in b.hosts.keys;
    }
  }

  lemma TokenEffect(b: Builder, prefix: string, token: string)
    requires b.hosts.Valid() && Token(b, prefix, token).Ok?
    ensures Effect(b, Token(b, prefix, token).value, prefix, token)
  {
    if token[0] == '-' {
      DeletionEffect(b, prefix, token);
    }
  }

  lemma {:induction false} FindIpInKeys(keys: seq<string>, vals: map<string, string>, ip: string)
    requires forall k :: k in keys ==> k in vals
    ensures var r := FindIp(keys, vals, ip);
      r.Ok? && r.value.Some? ==> r.value.value in keys && IpFromOpts(vals[r.value.value]) == Ok(ip)
    ensures var r := FindIp(keys, vals, ip);
      r == Ok(None) ==> forall k :: k in keys ==> IpFromOpts(vals[k]).Ok? && IpFromOpts(vals[k]).value != ip
  {
    if keys == [] {
    } else {
      FindIpInKeys(keys[1..], vals, ip);
      assert keys == [keys[0]] + keys[1..];
    }
  }

  lemma FollowsToken(existing: Section, b: Builder, prefix: string, token: string)
    requires b.hosts.Valid() && Token(b, prefix, token).Ok?
    requires Follows(existing.keys, b.hosts.keys)
    requires HostName(prefix, b.next) !in existing.keys && HostName(prefix, b.next) !in b.hosts.keys
    ensures Follows(existing.keys, Token(b, prefix, token).value.hosts.keys)
  {
    TokenEffect(b, prefix, token);
    var b' := Token(b, prefix, token).value;
    if b'.next != b.next {
      FollowsAppend(existing.keys, b.hosts.keys, HostName(prefix, b.next));
    } else if b' != b {
      var k :| k in b.hosts.keys && b' == b.(hosts := b.hosts.Remove(k));
      FollowsDrop(existing.keys, b.hosts.keys, k);
    }
  }

  lemma {:induction false} SurvivorsLead(existing: Section, prefix: string, tokens: seq<string>)
    requires SafePrefix(prefix) && existing.Valid() && RunTokens(existing, prefix, tokens).Ok?
    ensures Follows(existing.keys, RunTokens(existing, prefix, tokens).value.hosts.keys)
  {
    if tokens == [] {
      FollowsSelf(existing.keys);
    } else {
      var init := tokens[..|tokens| - 1];
      SurvivorsLead(existing, prefix, init);
      FreshAfter(existing, prefix, init);
      FollowsToken(existing, RunTokens(existing, prefix, init).value, prefix, tokens[|tokens| - 1]);
    }
  }

  /** A host that survives a run is never further from the front than it was. */
  lemma SurvivorsMoveForward(before: seq<string>, keys: seq<string>, n: nat, k: string)
    requires Follows(before, keys) && k in Take(before, n) && k in keys
    ensures k in Take(keys, n)
  {
    var left := Keep(before, SetOf(keys));
    var front := Take(before, n);
    KeepPrefix(before, |front|, SetOf(keys));
    assert before[..|front|] == front;
    var kept := Keep(front, SetOf(keys));
    assert k in kept && kept <= left <= keys && |kept| <= |front|;
    var i :| 0 <= i < |kept| && kept[i] == k;
    assert keys[i] == k;
    assert Take(keys, n)[i] == k;
  }

  /** The first hosts after a run are what is left of the first hosts before it, completed. */
  lemma FrontAfterRun(before: seq<string>, keys: seq<string>, n: nat, live: set<string>)
    requires Follows(before, keys) && Distinct(keys)
    requires forall k :: k in before ==> (k in live <==> k in keys)
    ensures Extend(Keep(Take(before, n), live), Take(keys, n)) == Take(keys, n)
  {
    var front := Take(before, n);
    KeepPrefix(before, |front|, live);
    KeepAgree(before, live, SetOf(keys));
    assert before[..|front|] == front;
    assert Keep(front, live) <= Take(keys, n);
    TakeDistinct(keys, n);
    ExtendPrefix(Keep(front, live), Take(keys, n));
  }
}
