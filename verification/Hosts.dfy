/** Hosts announcing themselves, and the order in which they are assigned indexes. */
module Hosts {
  import opened Wrappers
  import opened Addresses
  import opened Text

  datatype Host = Host(
    ip: Ipv4Addr, identifier: string,
    networkPort: Port, blendPort: Port, apiPort: Port, testingHttpPort: Port)

  datatype PortOverrides = PortOverrides(
    networkPort: Option<Port>, blendPort: Option<Port>, apiPort: Option<Port>, testingHttpPort: Option<Port>)

  /** Numeric suffix of the identifier, 0 when there is none. All hosts are of one kind, so this is the sort key. */
  function SortKey(host: Host): nat {
    match ParseUsize(LastSegment(host.identifier)) case Some(index) => index case None => 0
  }

  /** Number of leading hosts whose key is smaller than `key`. */
  function Rank(sorted: seq<Host>, key: nat): (r: nat)
    ensures r <= |sorted|
    ensures forall i :: 0 <= i < r ==> SortKey(sorted[i]) < key
    ensures r < |sorted| ==> SortKey(sorted[r]) >= key
  {
    if sorted == [] || SortKey(sorted[0]) >= key then 0 else 1 + Rank(sorted[1..], key)
  }

  function Insert(host: Host, sorted: seq<Host>): seq<Host> {
    var r := Rank(sorted, SortKey(host));
    sorted[..r] + [host] + sorted[r..]
  }

  /** The stable sort by key. */
  function SortHosts(hosts: seq<Host>): seq<Host> {
    if hosts == [] then [] else Insert(hosts[0], SortHosts(hosts[1..]))
  }

  ghost predicate Sorted(hosts: seq<Host>) {
    forall i, j :: 0 <= i < j < |hosts| ==> SortKey(hosts[i]) <= SortKey(hosts[j])
  }

  /** The hosts with a given key, in order. */
  ghost function WithKey(hosts: seq<Host>, key: nat): seq<Host> {
    if hosts == [] then []
    else (if SortKey(hosts[0]) == key then [hosts[0]] else []) + WithKey(hosts[1..], key)
  }

  ghost predicate Permutation(a: seq<Host>, b: seq<Host>) {
    multiset(a) == multiset(b)
  }

  ghost predicate DistinctKeys(hosts: seq<Host>) {
    forall i, j :: 0 <= i < j < |hosts| ==> SortKey(hosts[i]) != SortKey(hosts[j])
  }

  ghost predicate DistinctHosts(hosts: seq<Host>) {
    forall i, j :: 0 <= i < j < |hosts| ==> hosts[i] != hosts[j]
  }

  /** The key is the number that the text after the last dash (all of it without a dash) spells, and 0 when it spells
      none that fits. */
  lemma SortKeyOf(host: Host, prefix: string, s: string)
    requires '-' !in s && (host.identifier == s || host.identifier == prefix + "-" + s)
    ensures forall plus, zeros, n: nat | n < U64_MODULUS :: Spells(s, plus, zeros, n) ==> SortKey(host) == n
    ensures SortKey(host) != 0 ==> exists plus, zeros :: Spells(s, plus, zeros, SortKey(host))
  {
    if host.identifier == s {
      NoDashOneSegment(s);
    } else {
      LastSegmentOf(prefix, s);
    }
    forall plus, zeros, n: nat | n < U64_MODULUS && Spells(s, plus, zeros, n)
      ensures SortKey(host) == n
    {
      SpelledParses(s, plus, zeros, n);
    }
    ParsesIff(s, SortKey(host));
  }

  // ----- it is the stable sort -----

  lemma InsertPermutes(host: Host, sorted: seq<Host>)
    ensures Permutation(Insert(host, sorted), [host] + sorted)
  {
    var r := Rank(sorted, SortKey(host));
    assert sorted == sorted[..r] + sorted[r..];
  }

  lemma BetweenSorted(low: seq<Host>, host: Host, high: seq<Host>)
    requires Sorted(low) && Sorted(high)
    requires forall h <- low :: SortKey(h) <= SortKey(host)
    requires forall h <- high :: SortKey(host) <= SortKey(h)
    ensures Sorted(low + [host] + high)
  {
    var out := low + [host] + high;
    forall i, j | 0 <= i < j < |out|
      ensures SortKey(out[i]) <= SortKey(out[j])
    {
      assert i < |low| ==> out[i] == low[i] && low[i] in low;
      assert j > |low| ==> out[j] == high[j - |low| - 1] && high[j - |low| - 1] in high;
    }
  }

  lemma InsertSorted(host: Host, sorted: seq<Host>)
    requires Sorted(sorted)
    ensures Sorted(Insert(host, sorted))
  {
    var r := Rank(sorted, SortKey(host));
    BetweenSorted(sorted[..r], host, sorted[r..]);
  }

  lemma {:induction false} WithKeyConcat(a: seq<Host>, b: seq<Host>, key: nat)
    ensures WithKey(a + b, key) == WithKey(a, key) + WithKey(b, key)
  {
    if a == [] {
      assert a + b == b;
    } else {
      assert (a + b)[1..] == a[1..] + b;
      WithKeyConcat(a[1..], b, key);
    }
  }

  lemma {:induction false} NoneWithKey(hosts: seq<Host>, key: nat)
    requires forall h <- hosts :: SortKey(h) != key
    ensures WithKey(hosts, key) == []
  {
    if hosts != [] {
      NoneWithKey(hosts[1..], key);
    }
  }

  lemma BetweenStable(low: seq<Host>, host: Host, high: seq<Host>, key: nat)
    requires forall h <- low :: SortKey(h) < SortKey(host)
    ensures WithKey(low + [host] + high, key) == WithKey([host], key) + WithKey(low + high, key)
  {
    var l, x, h := WithKey(low, key), WithKey([host], key), WithKey(high, key);
    assert WithKey(low + [host] + high, key) == l + x + h by {
      WithKeyConcat(low + [host], high, key);
      WithKeyConcat(low, [host], key);
    }
    assert WithKey(low + high, key) == l + h by {
      WithKeyConcat(low, high, key);
    }
    assert l == [] || x == [] by {
      if key == SortKey(host) {
        NoneWithKey(low, key);
      } else {
        NoneWithKey([host], key);
      }
    }
    EmptyCommutes(l, x, h);
  }

  lemma EmptyCommutes<T>(l: seq<T>, x: seq<T>, h: seq<T>)
    requires l == [] || x == []
    ensures l + x + h == x + (l + h)
  {
  }

  lemma InsertStable(host: Host, sorted: seq<Host>, key: nat)
    ensures WithKey(Insert(host, sorted), key) == WithKey([host], key) + WithKey(sorted, key)
  {
    var r := Rank(sorted, SortKey(host));
    BetweenStable(sorted[..r], host, sorted[r..], key);
    assert sorted == sorted[..r] + sorted[r..];
  }

  /** `SortHosts` sorts, keeps every host, and keeps hosts with equal keys in their original order. */
  lemma {:induction false} SortHostsIsStableSort(hosts: seq<Host>)
    ensures Sorted(SortHosts(hosts)) && Permutation(SortHosts(hosts), hosts)
    ensures forall key :: WithKey(SortHosts(hosts), key) == WithKey(hosts, key)
  {
    if hosts != [] {
      var rest := SortHosts(hosts[1..]);
      SortHostsIsStableSort(hosts[1..]);
      InsertSorted(hosts[0], rest);
      InsertPermutes(hosts[0], rest);
      assert hosts == [hosts[0]] + hosts[1..];
      forall key
        ensures WithKey(SortHosts(hosts), key) == WithKey(hosts, key)
      {
        InsertStable(hosts[0], rest, key);
        WithKeyConcat([hosts[0]], hosts[1..], key);
      }
    }
  }

  lemma {:induction false} WithKeyHas(hosts: seq<Host>, host: Host)
    ensures host in WithKey(hosts, SortKey(host)) <==> host in hosts
    ensures forall key, h <- WithKey(hosts, key) :: h in hosts && SortKey(h) == key
  {
    if hosts != [] {
      WithKeyHas(hosts[1..], host);
      assert hosts == [hosts[0]] + hosts[1..];
    }
  }

  ghost predicate SameByKey(a: seq<Host>, b: seq<Host>) {
    forall key :: WithKey(a, key) == WithKey(b, key)
  }

  lemma SameByKeyMembers(a: seq<Host>, b: seq<Host>, host: Host)
    requires SameByKey(a, b) && host in a
    ensures host in b
  {
    WithKeyHas(a, host);
    WithKeyHas(b, host);
  }

  lemma SameByKeyHead(a: seq<Host>, b: seq<Host>)
    requires Sorted(a) && Sorted(b) && SameByKey(a, b) && a != [] && b != []
    ensures a[0] == b[0]
  {
    SameByKeyMembers(a, b, a[0]);
    SameByKeyMembers(b, a, b[0]);
    var p :| 0 <= p < |b| && b[p] == a[0];
    var q :| 0 <= q < |a| && a[q] == b[0];
    assert SortKey(b[0]) <= SortKey(b[p]) && SortKey(a[0]) <= SortKey(a[q]);
    var key := SortKey(a[0]);
    assert WithKey(a, key)[0] == a[0] && WithKey(b, key)[0] == b[0];
  }

  lemma {:induction false} StableSortUnique(a: seq<Host>, b: seq<Host>)
    requires Sorted(a) && Sorted(b) && SameByKey(a, b)
    ensures a == b
  {
    if a == [] {
      if b != [] {
        SameByKeyMembers(b, a, b[0]);
      }
    } else if b == [] {
      SameByKeyMembers(a, b, a[0]);
    } else {
      SameByKeyHead(a, b);
      SortedTail(a);
      SortedTail(b);
      forall key
        ensures WithKey(a[1..], key) == WithKey(b[1..], key)
      {
        var head := if SortKey(a[0]) == key then [a[0]] else [];
        assert WithKey(a, key) == head + WithKey(a[1..], key) && WithKey(b, key) == head + WithKey(b[1..], key);
        DropHead(head, WithKey(a[1..], key), WithKey(b[1..], key));
      }
      StableSortUnique(a[1..], b[1..]);
      assert a == [a[0]] + a[1..] && b == [b[0]] + b[1..];
    }
  }

  lemma DropHead<T>(head: seq<T>, s: seq<T>, t: seq<T>)
    requires head + s == head + t
    ensures s == t
  {
    assert s == (head + s)[|head|..] && t == (head + t)[|head|..];
  }

  /** `SortHosts` is the only stable sort: whatever is sorted and keeps equal keys in their original order is its
      result. */
  lemma OnlyStableSort(hosts: seq<Host>, sorted: seq<Host>)
    requires Sorted(sorted) && SameByKey(sorted, hosts)
    ensures sorted == SortHosts(hosts)
  {
    SortHostsIsStableSort(hosts);
    StableSortUnique(sorted, SortHosts(hosts));
  }

  // ----- when the order does not depend on the input order -----

  lemma {:induction false} StrictlySortedUnique(a: seq<Host>, b: seq<Host>)
    requires Sorted(a) && Sorted(b) && DistinctKeys(a) && Permutation(a, b)
    ensures a == b
  {
    assert |a| == |multiset(a)| == |multiset(b)| == |b|;
    if a != [] {
      SameHead(a, b);
      assert a == [a[0]] + a[1..] && b == [b[0]] + b[1..];
      SortedTail(a);
      SortedTail(b);
      assert DistinctKeys(a[1..]);
      assert Permutation(a[1..], b[1..]) by {
        assert multiset(a[1..]) == multiset(a) - multiset{a[0]};
        assert multiset(b[1..]) == multiset(b) - multiset{b[0]};
      }
      StrictlySortedUnique(a[1..], b[1..]);
    }
  }

  lemma SortedTail(a: seq<Host>)
    requires Sorted(a) && a != []
    ensures Sorted(a[1..])
  {
  }

  lemma SameHead(a: seq<Host>, b: seq<Host>)
    requires a != [] && b != []
    requires Sorted(a) && Sorted(b) && DistinctKeys(a) && Permutation(a, b)
    ensures a[0] == b[0]
  {
    assert a[0] in multiset(b) && b[0] in multiset(a);
    var p :| 0 <= p < |b| && b[p] == a[0];
    var q :| 0 <= q < |a| && a[q] == b[0];
    assert SortKey(b[0]) <= SortKey(b[p]) && SortKey(a[0]) <= SortKey(a[q]);
  }

  lemma DistinctKeysPermute(a: seq<Host>, b: seq<Host>)
    requires DistinctKeys(a) && Permutation(a, b)
    ensures DistinctKeys(b)
  {
    forall i, j | 0 <= i < j < |b|
      ensures SortKey(b[i]) != SortKey(b[j])
    {
      assert b[i] in multiset(b) && b[j] in multiset(b);
      assert b[i] in a && b[j] in a;
      if b[i] == b[j] {
        MultiplicityAtLeastTwo(b, i, j);
        MultiplicityAtMostOne(a, b[i]);
      }
    }
  }

  lemma MultiplicityAtLeastTwo(s: seq<Host>, i: nat, j: nat)
    requires i < j < |s| && s[i] == s[j]
    ensures multiset(s)[s[i]] >= 2
  {
    assert s == s[..i] + [s[i]] + s[i + 1..j] + [s[j]] + s[j + 1..];
  }

  lemma {:induction false} MultiplicityAtMostOne(s: seq<Host>, h: Host)
    requires DistinctKeys(s)
    ensures multiset(s)[h] <= 1
  {
    if s != [] {
      assert s == [s[0]] + s[1..];
      MultiplicityAtMostOne(s[1..], h);
      if s[0] == h {
        assert h !in s[1..];
      }
    }
  }

  lemma {:induction false} DistinctMultiplicity(order: seq<Host>, host: Host)
    requires DistinctHosts(order)
    ensures multiset(order)[host] == if host in order then 1 else 0
  {
    if order != [] {
      var init, last := order[..|order| - 1], order[|order| - 1];
      assert order == init + [last];
      DistinctMultiplicity(init, host);
    }
  }

  ghost predicate OrderIndependent(hosts: seq<Host>) {
    forall other :: Permutation(other, hosts) ==> SortHosts(other) == SortHosts(hosts)
  }

  /** The result of sorting is the same for every input order exactly when no two hosts share a numeric suffix. */
  lemma OrderIndependentIff(hosts: seq<Host>)
    requires DistinctHosts(hosts)
    ensures OrderIndependent(hosts) <==> DistinctKeys(hosts)
  {
    if DistinctKeys(hosts) {
      forall other | Permutation(other, hosts)
        ensures SortHosts(other) == SortHosts(hosts)
      {
        DistinctKeysOrderIndependent(hosts, other);
      }
    } else {
      var i, j :| 0 <= i < j < |hosts| && SortKey(hosts[i]) == SortKey(hosts[j]);
      SharedKeyOrderDependent(hosts, i, j);
    }
  }

  lemma SharedKeyOrderDependent(hosts: seq<Host>, i: nat, j: nat)
    requires i < j < |hosts| && hosts[i] != hosts[j] && SortKey(hosts[i]) == SortKey(hosts[j])
    ensures !OrderIndependent(hosts)
  {
    var rest := hosts[..i] + hosts[i + 1..j] + hosts[j + 1..];
    var one, two := [hosts[i], hosts[j]] + rest, [hosts[j], hosts[i]] + rest;
    PullOut(hosts, i, j);
    EqualKeysKeepOrder(hosts[i], hosts[j], rest);
    if OrderIndependent(hosts) {
      SameSort(hosts, one, two);
    }
  }

  lemma SameSort(hosts: seq<Host>, one: seq<Host>, two: seq<Host>)
    requires OrderIndependent(hosts) && Permutation(one, hosts) && Permutation(two, hosts)
    ensures SortHosts(one) == SortHosts(two)
  {
  }

  lemma DistinctKeysOrderIndependent(hosts: seq<Host>, other: seq<Host>)
    requires DistinctKeys(hosts) && Permutation(other, hosts)
    ensures SortHosts(other) == SortHosts(hosts)
  {
    SortHostsIsStableSort(hosts);
    SortHostsIsStableSort(other);
    DistinctKeysPermute(hosts, SortHosts(hosts));
    StrictlySortedUnique(SortHosts(hosts), SortHosts(other));
  }

  lemma PullOut(hosts: seq<Host>, i: nat, j: nat)
    requires i < j < |hosts|
    ensures var rest := hosts[..i] + hosts[i + 1..j] + hosts[j + 1..];
            && Permutation([hosts[i], hosts[j]] + rest, hosts)
            && Permutation([hosts[j], hosts[i]] + rest, hosts)
  {
    assert hosts == hosts[..i] + [hosts[i]] + hosts[i + 1..j] + [hosts[j]] + hosts[j + 1..];
  }

  /** Two hosts with the same key come out in the order in which they went in. */
  lemma EqualKeysKeepOrder(a: Host, b: Host, rest: seq<Host>)
    requires a != b && SortKey(a) == SortKey(b)
    ensures SortHosts([a, b] + rest) != SortHosts([b, a] + rest)
  {
    TwoInserted(a, b, rest);
    TwoInserted(b, a, rest);
  }

  lemma TwoInserted(a: Host, b: Host, rest: seq<Host>)
    requires SortKey(a) == SortKey(b)
    ensures var r := Rank(SortHosts(rest), SortKey(a));
            |SortHosts([a, b] + rest)| > r && SortHosts([a, b] + rest)[r] == a
  {
    var sorted := SortHosts(rest);
    var r := Rank(sorted, SortKey(a));
    assert ([a, b] + rest)[1..] == [b] + rest && ([b] + rest)[1..] == rest;
    var once := Insert(b, sorted);
    assert SortHosts([a, b] + rest) == Insert(a, once);
    assert once[r] == b && forall i :: 0 <= i < r ==> once[i] == sorted[i];
    assert Rank(once, SortKey(a)) == r;
  }

  /** Hosts named node-0 .. node-(n-1), in any order, are assigned their own number as index. */
  lemma NumberedHostsKeepTheirNumber(hosts: seq<Host>, numbered: seq<Host>)
    requires |numbered| <= U64_MODULUS && Permutation(hosts, numbered)
    requires forall i :: 0 <= i < |numbered| ==> numbered[i].identifier == NodeLabel(i)
    ensures SortHosts(hosts) == numbered
  {
    forall i | 0 <= i < |numbered|
      ensures SortKey(numbered[i]) == i
    {
      NodeLabelIndex(i);
    }
    SortHostsIsStableSort(hosts);
    StrictlySortedUnique(numbered, SortHosts(hosts));
  }
}
