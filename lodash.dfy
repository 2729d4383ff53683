/**
 * lodash's `groupBy` as the state list's filter builder uses it: every element goes to the
 * group named by the text of its key (the key becomes a property name), groups are created
 * in the order their first element appears, and `forOwn` then visits them in own-key order.
 */
module Lodash {
  import opened JsValues

  /** The keys of a sequence, as a set. */
  function Elements(ks: seq<string>): (s: set<string>)
    ensures forall k :: k in s <==> k in ks
    decreases |ks|
  {
    if ks == [] then {} else Elements(ks[..|ks| - 1]) + {ks[|ks| - 1]}
  }

  /** A permutation of keys without repeats has no repeats. */
  lemma DistinctPermutation(ks: seq<string>, r: seq<string>)
    requires Distinct(ks) && multiset(r) == multiset(ks)
    ensures Distinct(r)
  {
    forall i, j | 0 <= i < j < |r|
      ensures r[i] != r[j]
    {
      if r[i] == r[j] {
        TwoCopies(r, i, j);
        DistinctCount(ks, r[i]);
      }
    }
  }

  lemma TwoCopies(r: seq<string>, i: nat, j: nat)
    requires i < j < |r| && r[i] == r[j]
    ensures multiset(r)[r[i]] >= 2
  {
    assert r == r[..j] + [r[j]] + r[j + 1..];
    assert r[..j][i] == r[i];
    assert r[i] in multiset(r[..j]);
  }

  lemma {:induction false} DistinctCount(ks: seq<string>, x: string)
    requires Distinct(ks)
    ensures multiset(ks)[x] <= 1
    decreases |ks|
  {
    if ks != [] {
      var init := ks[..|ks| - 1];
      assert ks == init + [ks[|ks| - 1]];
      DistinctCount(init, x);
      if x == ks[|ks| - 1] {
        assert x !in init;
      }
    }
  }

  function KeySet<T>(xs: seq<T>, key: T -> string): set<string> {
    set i | 0 <= i < |xs| :: key(xs[i])
  }

  /** The elements with key `k`, in their original order. */
  function Members<T>(xs: seq<T>, key: T -> string, k: string): seq<T>
    decreases |xs|
  {
    if xs == [] then []
    else Members(xs[..|xs| - 1], key, k) + (if key(xs[|xs| - 1]) == k then [xs[|xs| - 1]] else [])
  }

  /** The keys in the order their first element appears. */
  function FirstKeys<T>(xs: seq<T>, key: T -> string): (ks: seq<string>)
    ensures Distinct(ks)
    ensures forall k :: k in ks <==> k in KeySet(xs, key)
    decreases |xs|
  {
    if xs == [] then []
    else
      var init := xs[..|xs| - 1];
      var ks := FirstKeys(init, key);
      var k := key(xs[|xs| - 1]);
      assert KeySet(xs, key) == KeySet(init, key) + {k} by {
        assert forall i :: 0 <= i < |init| ==> init[i] == xs[i];
      }
      if k in ks then ks else ks + [k]
  }

  /** `_.groupBy(xs, key)` enumerated with `_.forOwn`: (key text, members) in own-key order. */
  function GroupBy<T>(xs: seq<T>, key: T -> string): (groups: seq<(string, seq<T>)>)
    ensures |groups| == |OwnKeyOrder(FirstKeys(xs, key))|
  {
    var order := OwnKeyOrder(FirstKeys(xs, key));
    seq(|order|, i requires 0 <= i < |order| => (order[i], Members(xs, key, order[i])))
  }

  function Flatten<T>(groups: seq<(string, seq<T>)>): seq<T>
    decreases |groups|
  {
    if groups == [] then [] else Flatten(groups[..|groups| - 1]) + groups[|groups| - 1].1
  }

  lemma {:induction false} FlattenAppend<T>(a: seq<(string, seq<T>)>, b: seq<(string, seq<T>)>)
    ensures Flatten(a + b) == Flatten(a) + Flatten(b)
    decreases |b|
  {
    if b == [] {
      assert a + b == a;
    } else {
      var init := b[..|b| - 1];
      assert (a + b)[..|a + b| - 1] == a + init;
      FlattenAppend(a, init);
    }
  }

  function GroupKeys<T>(groups: seq<(string, seq<T>)>): seq<string> {
    seq(|groups|, i requires 0 <= i < |groups| => groups[i].0)
  }

  /** The keys groupBy enumerates are the keys that occur, each once. */
  lemma GroupKeysOccur<T>(xs: seq<T>, key: T -> string)
    ensures var order := OwnKeyOrder(FirstKeys(xs, key));
      && Distinct(order)
      && (forall k :: k in order <==> k in KeySet(xs, key))
  {
    var ks := FirstKeys(xs, key);
    var order := OwnKeyOrder(ks);
    OwnKeyOrderIsPermutation(ks);
    DistinctPermutation(ks, order);
    forall k
      ensures k in order <==> k in ks
    {
      assert k in order <==> k in multiset(order);
    }
  }

  /** groupBy partitions its input: the groups together are a permutation of it. */
  lemma GroupByPermutes<T>(xs: seq<T>, key: T -> string)
    ensures multiset(Flatten(GroupBy(xs, key))) == multiset(xs)
  {
    var order := OwnKeyOrder(FirstKeys(xs, key));
    GroupKeysOccur(xs, key);
    FlattenMembers(xs, key, order);
    FlattenIsMembers(xs, key, order);
    forall i | 0 <= i < |xs|
      ensures key(xs[i]) in Elements(order)
    {
      assert key(xs[i]) in KeySet(xs, key);
    }
    KeysCovered(xs, key, Elements(order));
  }

  /** No key names two groups, no group is empty, and every member of a group has its key. */
  lemma GroupByGroups<T>(xs: seq<T>, key: T -> string)
    ensures var groups := GroupBy(xs, key);
      && Distinct(GroupKeys(groups))
      && forall i :: 0 <= i < |groups| ==>
           groups[i].1 != [] && forall j :: 0 <= j < |groups[i].1| ==> key(groups[i].1[j]) == groups[i].0
  {
    var order := OwnKeyOrder(FirstKeys(xs, key));
    var groups := GroupBy(xs, key);
    GroupKeysOccur(xs, key);
    assert GroupKeys(groups) == order;
    forall i | 0 <= i < |groups|
      ensures groups[i].1 != [] && forall j :: 0 <= j < |groups[i].1| ==> key(groups[i].1[j]) == groups[i].0
    {
      assert order[i] in KeySet(xs, key);
      var w :| 0 <= w < |xs| && key(xs[w]) == order[i];
      MembersFacts(xs, key, order[i], w);
    }
  }

  /** The members of each key of `ks`, one run after the other. */
  function FlattenOver<T>(xs: seq<T>, key: T -> string, ks: seq<string>): seq<T>
    decreases |ks|
  {
    if ks == [] then [] else FlattenOver(xs, key, ks[..|ks| - 1]) + Members(xs, key, ks[|ks| - 1])
  }

  lemma {:induction false} FlattenIsMembers<T>(xs: seq<T>, key: T -> string, ks: seq<string>)
    ensures var groups := seq(|ks|, i requires 0 <= i < |ks| => (ks[i], Members(xs, key, ks[i])));
      Flatten(groups) == FlattenOver(xs, key, ks)
    decreases |ks|
  {
    if ks != [] {
      var n := |ks|;
      FlattenIsMembers(xs, key, ks[..n - 1]);
      var groups := seq(|ks|, i requires 0 <= i < |ks| => (ks[i], Members(xs, key, ks[i])));
      assert groups[..n - 1] == seq(n - 1, i requires 0 <= i < n - 1 => (ks[..n - 1][i], Members(xs, key, ks[..n - 1][i])));
    }
  }

  /** The elements whose key is in `s`, in their original order. */
  function KeptBy<T>(xs: seq<T>, key: T -> string, s: set<string>): seq<T>
    decreases |xs|
  {
    if xs == [] then []
    else KeptBy(xs[..|xs| - 1], key, s) + (if key(xs[|xs| - 1]) in s then [xs[|xs| - 1]] else [])
  }

  lemma {:induction false} KeptByAdd<T>(xs: seq<T>, key: T -> string, s: set<string>, k: string)
    requires k !in s
    ensures multiset(KeptBy(xs, key, s + {k})) == multiset(KeptBy(xs, key, s)) + multiset(Members(xs, key, k))
    decreases |xs|
  {
    if xs != [] {
      KeptByAdd(xs[..|xs| - 1], key, s, k);
    }
  }

  lemma {:induction false} FlattenMembers<T>(xs: seq<T>, key: T -> string, ks: seq<string>)
    requires Distinct(ks)
    ensures multiset(FlattenOver(xs, key, ks)) == multiset(KeptBy(xs, key, Elements(ks)))
    decreases |ks|
  {
    if ks == [] {
      KeptByNone(xs, key);
    } else {
      var init := ks[..|ks| - 1];
      var last := ks[|ks| - 1];
      assert last !in init;
      FlattenMembers(xs, key, init);
      KeptByAdd(xs, key, Elements(init), last);
    }
  }

  lemma {:induction false} KeptByNone<T>(xs: seq<T>, key: T -> string)
    ensures KeptBy(xs, key, {}) == []
    decreases |xs|
  {
    if xs != [] {
      KeptByNone(xs[..|xs| - 1], key);
    }
  }

  /** Keeping every key that occurs keeps everything. */
  lemma {:induction false} KeysCovered<T>(xs: seq<T>, key: T -> string, s: set<string>)
    requires forall i :: 0 <= i < |xs| ==> key(xs[i]) in s
    ensures KeptBy(xs, key, s) == xs
    decreases |xs|
  {
    if xs != [] {
      var init := xs[..|xs| - 1];
      forall i | 0 <= i < |init|
        ensures key(init[i]) in s
      {
        assert init[i] == xs[i];
      }
      KeysCovered(init, key, s);
      assert xs == init + [xs[|xs| - 1]];
    }
  }

  lemma {:induction false} MembersFacts<T>(xs: seq<T>, key: T -> string, k: string, w: nat)
    requires w < |xs| && key(xs[w]) == k
    ensures Members(xs, key, k) != []
    ensures forall j :: 0 <= j < |Members(xs, key, k)| ==> key(Members(xs, key, k)[j]) == k
    decreases |xs|
  {
    MembersHaveKey(xs, key, k);
    var init := xs[..|xs| - 1];
    if w < |xs| - 1 {
      assert init[w] == xs[w];
      MembersFacts(init, key, k, w);
    }
  }

  lemma {:induction false} MembersHaveKey<T>(xs: seq<T>, key: T -> string, k: string)
    ensures forall j :: 0 <= j < |Members(xs, key, k)| ==> key(Members(xs, key, k)[j]) == k
    decreases |xs|
  {
    if xs != [] {
      MembersHaveKey(xs[..|xs| - 1], key, k);
    }
  }
}
