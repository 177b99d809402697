/** Key order for attribute dictionaries. Swift sorts attribute pairs with
    `$0.key < $1.key`; the model compares strings lexicographically by
    character, and lists a dictionary's keys in strictly increasing order. */
module StringOrder {

  /** Lexicographic strict order on strings (a proper prefix comes first). */
  predicate Less(a: string, b: string) {
    if |a| == 0 then |b| > 0
    else if |b| == 0 then false
    else if a[0] == b[0] then Less(a[1..], b[1..])
    else a[0] < b[0]
  }

  lemma {:induction false} LessIrreflexive(a: string)
    ensures !Less(a, a)
  {
    if |a| > 0 {
      LessIrreflexive(a[1..]);
    }
  }

  lemma {:induction false} LessAsymmetric(a: string, b: string)
    ensures Less(a, b) ==> !Less(b, a)
  {
    if |a| > 0 && |b| > 0 && a[0] == b[0] {
      LessAsymmetric(a[1..], b[1..]);
    }
  }

  lemma {:induction false} LessTotal(a: string, b: string)
    ensures a == b || Less(a, b) || Less(b, a)
  {
    if |a| > 0 && |b| > 0 && a[0] == b[0] {
      LessTotal(a[1..], b[1..]);
      if a[1..] == b[1..] {
        assert a == [a[0]] + a[1..] && b == [b[0]] + b[1..];
      }
    }
  }

  lemma {:induction false} LessTransitive(a: string, b: string, c: string)
    ensures Less(a, b) && Less(b, c) ==> Less(a, c)
  {
    if |a| > 0 && |b| > 0 && |c| > 0 && a[0] == b[0] == c[0] {
      LessTransitive(a[1..], b[1..], c[1..]);
    }
  }

  predicate IsLeast(k: string, keys: set<string>) {
    k in keys && forall y :: y in keys && y != k ==> Less(k, y)
  }

  lemma {:induction false} LeastExists(keys: set<string>)
    requires keys != {}
    ensures exists k :: IsLeast(k, keys)
    decreases keys
  {
    var x :| x in keys;
    if keys != {x} {
      LeastExists(keys - {x});
      var m :| IsLeast(m, keys - {x});
      LessTotal(x, m);
      if Less(x, m) {
        forall y | y in keys && y != x
          ensures Less(x, y)
        {
          if y != m {
            LessTransitive(x, m, y);
          }
        }
        assert IsLeast(x, keys);
      } else {
        assert IsLeast(m, keys);
      }
    } else {
      assert IsLeast(x, keys);
    }
  }

  lemma LeastUnique()
    ensures forall k, k', keys :: IsLeast(k, keys) && IsLeast(k', keys) ==> k == k'
  {
    forall k, k', keys | IsLeast(k, keys) && IsLeast(k', keys)
      ensures k == k'
    {
      LessAsymmetric(k, k');
    }
  }

  /** The smallest key of a non-empty set. */
  function Least(keys: set<string>): (k: string)
    requires keys != {}
    ensures k in keys
    ensures forall y :: y in keys && y != k ==> Less(k, y)
  {
    LeastExists(keys);
    LeastUnique();
    var k :| IsLeast(k, keys);
    k
  }

  ghost predicate StrictlyIncreasing(s: seq<string>) {
    forall i, j :: 0 <= i < j < |s| ==> Less(s[i], s[j])
  }

  /** The keys of a set, smallest first. */
  function Sorted(keys: set<string>): (r: seq<string>)
    ensures |r| == |keys|
    decreases keys
  {
    if keys == {} then []
    else
      var k := Least(keys);
      [k] + Sorted(keys - {k})
  }

  /** `Sorted` lists each key of the set exactly once, in strictly
      increasing order. */
  lemma {:induction false} SortedOrders(keys: set<string>)
    ensures forall k :: k in keys <==> k in Sorted(keys)
    ensures StrictlyIncreasing(Sorted(keys))
    decreases keys
  {
    if keys != {} {
      var k := Least(keys);
      var rest := Sorted(keys - {k});
      SortedOrders(keys - {k});
      assert Sorted(keys) == [k] + rest;
      forall i, j | 0 <= i < j < |[k] + rest|
        ensures Less(([k] + rest)[i], ([k] + rest)[j])
      {
        if i > 0 {
          assert ([k] + rest)[i] == rest[i - 1] && ([k] + rest)[j] == rest[j - 1];
        } else {
          assert ([k] + rest)[j] == rest[j - 1];
          assert rest[j - 1] in keys - {k};
        }
      }
    }
  }

  /** The keys of a dictionary in the order Swift's `sorted { $0.key < $1.key }` visits them. */
  function SortedKeys(m: map<string, string>): (r: seq<string>)
    ensures |r| == |m|
  {
    Sorted(m.Keys)
  }

  /** `SortedKeys` lists every key of the dictionary once, in strictly
      increasing order. */
  lemma SortedKeysOrders(m: map<string, string>)
    ensures forall k :: k in m <==> k in SortedKeys(m)
    ensures StrictlyIncreasing(SortedKeys(m))
  {
    SortedOrders(m.Keys);
  }

  /** A strictly increasing key list holds no key twice. */
  lemma StrictlyIncreasingDistinct(s: seq<string>)
    requires StrictlyIncreasing(s)
    ensures forall i, j :: 0 <= i < j < |s| ==> s[i] != s[j]
  {
    forall i, j | 0 <= i < j < |s|
      ensures s[i] != s[j]
    {
      LessIrreflexive(s[i]);
    }
  }
}
