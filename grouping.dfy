/**
 * `.values(<key>).annotate(total=Sum('amount'))`: one bucket per distinct
 * key with the sum of the amounts of the rows that have it. The buckets
 * are accumulated the way a dictionary keyed by the group would be: the
 * first bucket with the row's key is updated, or a new one is appended.
 */
module Grouping {
  import opened Sequences
  import opened Models

  datatype Bucket<K> = Bucket(key: K, total: Cents)

  /** The rows whose group key is `k`. */
  function HasKey<K(==,!new)>(key: Transaction -> K, k: K): Transaction -> bool
  {
    (r: Transaction) => key(r) == k
  }

  predicate HasBucket<K(==,!new)>(g: seq<Bucket<K>>, k: K)
  {
    exists i :: 0 <= i < |g| && g[i].key == k
  }

  /** No key labels two buckets. */
  predicate Distinct<K(==,!new)>(g: seq<Bucket<K>>)
  {
    forall i, j :: 0 <= i < j < |g| ==> g[i].key != g[j].key
  }

  lemma HasBucketCons<K(!new)>(b: Bucket<K>, g: seq<Bucket<K>>)
    ensures forall k :: HasBucket([b] + g, k) <==> b.key == k || HasBucket(g, k)
  {
    forall k | HasBucket(g, k) ensures HasBucket([b] + g, k) {
      var i :| 0 <= i < |g| && g[i].key == k;
      assert ([b] + g)[i + 1] == g[i];
    }
    forall k | HasBucket([b] + g, k) && b.key != k ensures HasBucket(g, k) {
      var i :| 0 <= i < |g| + 1 && ([b] + g)[i].key == k;
      assert g[i - 1] == ([b] + g)[i];
    }
    assert ([b] + g)[0] == b;
  }

  /** Adds `a` to the bucket of `k`, creating that bucket at the end when there is none. */
  function AddTo<K(==,!new)>(g: seq<Bucket<K>>, k: K, a: Cents): (r: seq<Bucket<K>>)
    ensures !HasBucket(g, k) ==> r == g + [Bucket(k, a)]
    ensures Distinct(g) && HasBucket(g, k) ==>
              |r| == |g| && forall i :: 0 <= i < |g| ==> r[i] == (if g[i].key == k then Bucket(k, g[i].total + a) else g[i])
    ensures forall k' :: HasBucket(r, k') <==> k' == k || HasBucket(g, k')
    ensures Distinct(g) ==> Distinct(r)
  {
    if g == [] then
      HasBucketCons(Bucket(k, a), []);
      [Bucket(k, a)] + []
    else
      assert g == [g[0]] + g[1..];
      HasBucketCons(g[0], g[1..]);
      if g[0].key == k then
        HasBucketCons(Bucket(k, g[0].total + a), g[1..]);
        [Bucket(k, g[0].total + a)] + g[1..]
      else
        var rest := AddTo(g[1..], k, a);
        HasBucketCons(g[0], rest);
        [g[0]] + rest
  }

  /** The buckets of `rows` grouped by `key`. */
  function GroupBy<K(==,!new)>(rows: seq<Transaction>, key: Transaction -> K): (g: seq<Bucket<K>>)
    ensures Distinct(g)
  {
    if rows == [] then [] else AddTo(GroupBy(rows[1..], key), key(rows[0]), rows[0].amount)
  }

  /** Some row of `rows` has key `k`. */
  predicate KeyOccurs<K(==,!new)>(rows: seq<Transaction>, key: Transaction -> K, k: K)
  {
    exists j :: 0 <= j < |rows| && key(rows[j]) == k
  }

  /** A bucket exists exactly for each key some row has. */
  lemma {:induction false} GroupByCovers<K(!new)>(rows: seq<Transaction>, key: Transaction -> K, k: K)
    ensures HasBucket(GroupBy(rows, key), k) <==> KeyOccurs(rows, key, k)
  {
    if rows != [] {
      GroupByCovers(rows[1..], key, k);
      if KeyOccurs(rows, key, k) && key(rows[0]) != k {
        var j :| 0 <= j < |rows| && key(rows[j]) == k;
        assert rows[1..][j - 1] == rows[j];
      }
      if KeyOccurs(rows[1..], key, k) {
        var j :| 0 <= j < |rows[1..]| && key(rows[1..][j]) == k;
        assert rows[j + 1] == rows[1..][j];
      }
    }
  }

  /** Rows none of which has key `k` contribute nothing to the total of `k`. */
  lemma NoKeyNoTotal<K(!new)>(rows: seq<Transaction>, key: Transaction -> K, k: K)
    requires !KeyOccurs(rows, key, k)
    ensures Total(Select(rows, HasKey(key, k))) == 0
  {
    forall x | x in rows ensures !HasKey(key, k)(x) {
      var j :| 0 <= j < |rows| && rows[j] == x;
    }
    SelectNone(rows, HasKey(key, k));
  }

  /** The head row counts towards its own key only. */
  lemma TotalUnfold<K(!new)>(rows: seq<Transaction>, key: Transaction -> K, k: K)
    requires rows != []
    ensures Total(Select(rows, HasKey(key, k)))
         == (if key(rows[0]) == k then rows[0].amount else 0) + Total(Select(rows[1..], HasKey(key, k)))
  {
    TotalSelectCons(rows, HasKey(key, k));
  }

  /** Every bucket holds the sum of the amounts of the rows with its key. */
  lemma {:induction false} GroupByTotals<K(!new)>(rows: seq<Transaction>, key: Transaction -> K)
    ensures forall i :: 0 <= i < |GroupBy(rows, key)| ==>
              GroupBy(rows, key)[i].total == Total(Select(rows, HasKey(key, GroupBy(rows, key)[i].key)))
  {
    if rows != [] {
      var g := GroupBy(rows, key);
      GroupByTotals(rows[1..], key);
      forall i | 0 <= i < |g| ensures g[i].total == Total(Select(rows, HasKey(key, g[i].key))) {
        BucketTotalStep(rows, key, i);
      }
    }
  }

  /** Adding the head row to the buckets of the tail keeps the total of bucket `i` right. */
  lemma {:induction false} BucketTotalStep<K(!new)>(rows: seq<Transaction>, key: Transaction -> K, i: nat)
    requires rows != []
    requires var prev := GroupBy(rows[1..], key);
             i < |prev| ==> prev[i].total == Total(Select(rows[1..], HasKey(key, prev[i].key)))
    requires i < |GroupBy(rows, key)|
    ensures GroupBy(rows, key)[i].total == Total(Select(rows, HasKey(key, GroupBy(rows, key)[i].key)))
  {
    if HasBucket(GroupBy(rows[1..], key), key(rows[0])) {
      BucketTotalKnownKey(rows, key, i);
    } else {
      BucketTotalNewKey(rows, key, i);
    }
  }

  /** The head row's key already has a bucket: that bucket grows, the others stay. */
  lemma {:induction false} BucketTotalKnownKey<K(!new)>(rows: seq<Transaction>, key: Transaction -> K, i: nat)
    requires rows != []
    requires var prev := GroupBy(rows[1..], key);
             i < |prev| ==> prev[i].total == Total(Select(rows[1..], HasKey(key, prev[i].key)))
    requires i < |GroupBy(rows, key)|
    requires HasBucket(GroupBy(rows[1..], key), key(rows[0]))
    ensures GroupBy(rows, key)[i].total == Total(Select(rows, HasKey(key, GroupBy(rows, key)[i].key)))
  {
    var x := rows[0];
    var prev := GroupBy(rows[1..], key);
    var g := GroupBy(rows, key);
    assert g == AddTo(prev, key(x), x.amount);
    assert g[i] == if prev[i].key == key(x) then Bucket(key(x), prev[i].total + x.amount) else prev[i];
    BucketGrows(rows, key, prev[i], g[i]);
  }

  /** The head row's key is new: a bucket for it is appended after the others. */
  lemma {:induction false} BucketTotalNewKey<K(!new)>(rows: seq<Transaction>, key: Transaction -> K, i: nat)
    requires rows != []
    requires var prev := GroupBy(rows[1..], key);
             i < |prev| ==> prev[i].total == Total(Select(rows[1..], HasKey(key, prev[i].key)))
    requires i < |GroupBy(rows, key)|
    requires !HasBucket(GroupBy(rows[1..], key), key(rows[0]))
    ensures GroupBy(rows, key)[i].total == Total(Select(rows, HasKey(key, GroupBy(rows, key)[i].key)))
  {
    var x := rows[0];
    var prev := GroupBy(rows[1..], key);
    var g := GroupBy(rows, key);
    assert g == AddTo(prev, key(x), x.amount);
    assert g == prev + [Bucket(key(x), x.amount)];
    if i < |prev| {
      assert g[i] == prev[i] && prev[i].key != key(x);
      BucketGrows(rows, key, prev[i], g[i]);
    } else {
      assert g[i] == Bucket(key(x), x.amount);
      GroupByCovers(rows[1..], key, key(x));
      FirstOfItsKey(rows, key);
    }
  }

  /** A row whose key no later row has is the whole of its group. */
  lemma {:induction false} FirstOfItsKey<K(!new)>(rows: seq<Transaction>, key: Transaction -> K)
    requires rows != [] && !KeyOccurs(rows[1..], key, key(rows[0]))
    ensures Total(Select(rows, HasKey(key, key(rows[0])))) == rows[0].amount
  {
    NoKeyNoTotal(rows[1..], key, key(rows[0]));
    TotalUnfold(rows, key, key(rows[0]));
  }


  /** A correct bucket of the tail, with the head row added when it has the bucket's key, is correct for all rows. */
  lemma {:induction false} BucketGrows<K(!new)>(rows: seq<Transaction>, key: Transaction -> K, p: Bucket<K>, b: Bucket<K>)
    requires rows != []
    requires p.total == Total(Select(rows[1..], HasKey(key, p.key)))
    requires b == if p.key == key(rows[0]) then Bucket(p.key, p.total + rows[0].amount) else p
    ensures b.total == Total(Select(rows, HasKey(key, b.key)))
  {
    TotalUnfold(rows, key, b.key);
  }


  /** `g` holds exactly one correct bucket per key of `rows`, in some order. */
  ghost predicate Summarizes<K(!new)>(g: seq<Bucket<K>>, rows: seq<Transaction>, key: Transaction -> K)
  {
    && Distinct(g)
    && (forall i :: 0 <= i < |g| ==> g[i].total == Total(Select(rows, HasKey(key, g[i].key))))
    && (forall k :: HasBucket(g, k) <==> KeyOccurs(rows, key, k))
  }

  lemma GroupBySummarizes<K(!new)>(rows: seq<Transaction>, key: Transaction -> K)
    ensures Summarizes(GroupBy(rows, key), rows, key)
  {
    GroupByTotals(rows, key);
    forall k ensures HasBucket(GroupBy(rows, key), k) <==> KeyOccurs(rows, key, k) {
      GroupByCovers(rows, key, k);
    }
  }

  /** A sequence without repeated keys holds each bucket once. */
  lemma {:induction false} DistinctOnce<K(!new)>(g: seq<Bucket<K>>, b: Bucket<K>)
    requires Distinct(g)
    ensures multiset(g)[b] <= 1
  {
    if g != [] {
      assert g == [g[0]] + g[1..];
      DistinctOnce(g[1..], b);
      if g[0] == b {
        forall j | 0 <= j < |g[1..]| ensures g[1..][j] != b {
          assert g[1..][j] == g[j + 1];
        }
      }
    }
  }

  /** An element at two positions occurs at least twice. */
  lemma Twice<T>(s: seq<T>, i: nat, j: nat)
    requires i < j < |s| && s[i] == s[j]
    ensures multiset(s)[s[i]] >= 2
  {
    assert s == s[..j] + s[j..];
    assert s[..j][i] == s[i];
    assert s[j..][0] == s[i];
  }

  /** Reordering buckets keeps them a correct summary: `order_by` after grouping changes nothing else. */
  lemma SummarizesPermutation<K(!new)>(g: seq<Bucket<K>>, h: seq<Bucket<K>>, rows: seq<Transaction>, key: Transaction -> K)
    requires Summarizes(g, rows, key) && multiset(g) == multiset(h)
    ensures Summarizes(h, rows, key)
  {
    forall i | 0 <= i < |h| ensures h[i] in g {
      assert h[i] in multiset(h);
    }
    forall i, j | 0 <= i < j < |h| ensures h[i].key != h[j].key {
      if h[i].key == h[j].key {
        var a :| 0 <= a < |g| && g[a] == h[i];
        var b :| 0 <= b < |g| && g[b] == h[j];
        if a == b {
          Twice(h, i, j);
          DistinctOnce(g, h[i]);
        }
        assert false;
      }
    }
    forall k ensures HasBucket(h, k) <==> HasBucket(g, k) {
      if HasBucket(g, k) {
        var a :| 0 <= a < |g| && g[a].key == k;
        assert g[a] in multiset(h);
        var i :| 0 <= i < |h| && h[i] == g[a];
      }
      if HasBucket(h, k) {
        var i :| 0 <= i < |h| && h[i].key == k;
        var a :| 0 <= a < |g| && g[a] == h[i];
      }
    }
  }

  /** `next((b.total for b in g if b.key == k), 0)`: the first matching bucket's total, or 0. */
  function Lookup<K(==,!new)>(g: seq<Bucket<K>>, k: K): Cents
  {
    if g == [] then 0 else if g[0].key == k then g[0].total else Lookup(g[1..], k)
  }

  lemma {:induction false} LookupFinds<K(!new)>(g: seq<Bucket<K>>, k: K)
    ensures !HasBucket(g, k) ==> Lookup(g, k) == 0
    ensures HasBucket(g, k) ==> exists i :: 0 <= i < |g| && g[i].key == k && Lookup(g, k) == g[i].total
  {
    if g != [] && g[0].key != k {
      LookupFinds(g[1..], k);
      if HasBucket(g, k) {
        var i :| 0 <= i < |g| && g[i].key == k;
        assert g[1..][i - 1].key == k;
        var j :| 0 <= j < |g[1..]| && g[1..][j].key == k && Lookup(g[1..], k) == g[1..][j].total;
        assert g[j + 1] == g[1..][j];
      }
    }
  }

  /** Looking a key up in a correct summary yields the total of that key's rows, 0 when it has none. */
  lemma LookupSummarizes<K(!new)>(g: seq<Bucket<K>>, rows: seq<Transaction>, key: Transaction -> K, k: K)
    requires Summarizes(g, rows, key)
    ensures Lookup(g, k) == Total(Select(rows, HasKey(key, k)))
  {
    LookupFinds(g, k);
    if !HasBucket(g, k) {
      NoKeyNoTotal(rows, key, k);
    }
  }
}
