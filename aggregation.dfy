/** The find-or-push reducer both chart components run over the expense
    records: it walks the records, looks up the entry with the record's key
    (`acc.find`), adds the amount to it in place or pushes a new entry. */
module Aggregation {
  import opened Seqs
  import opened Ledger

  /** `{ name, value }` in the category charts, `{ date, amount }` in the
      analytics trend. */
  datatype Bucket = Bucket(key: string, total: int)

  function BucketKey(b: Bucket): string { b.key }
  function BucketTotal(b: Bucket): int { b.total }

  /** What the reducer computes, stated without the loop: one entry per
      distinct key, in order of first occurrence, holding the sum of the
      amounts of the records with that key. */
  function Buckets(ts: seq<Transaction>, key: Transaction -> string): seq<Bucket> {
    var d := Distinct(KeysOf(ts, key));
    seq(|d|, i requires 0 <= i < |d| => Bucket(d[i], SumWhere(ts, key, d[i])))
  }

  /** A record whose key already has an entry adds its amount to that entry. */
  lemma BucketsSnocFound(ts: seq<Transaction>, t: Transaction, key: Transaction -> string, j: nat)
    requires j < |Buckets(ts, key)| && Buckets(ts, key)[j].key == key(t)
    ensures Buckets(ts + [t], key)
         == Buckets(ts, key)[j := Bucket(key(t), Buckets(ts, key)[j].total + t.amount)]
  {
    var d := Distinct(KeysOf(ts, key));
    assert Distinct(KeysOf(ts + [t], key)) == d by {
      KeysOfSnoc(ts, t, key);
      DistinctSnoc(KeysOf(ts, key), key(t));
      assert d[j] == key(t);
    }
    var b, nb := Buckets(ts, key), Buckets(ts + [t], key);
    var updated := b[j := Bucket(key(t), b[j].total + t.amount)];
    forall i | 0 <= i < |d| ensures nb[i] == updated[i] {
      SumWhereSnoc(ts, t, key, d[i]);
    }
  }

  /** A key no entry has is no record's key, and sums to nothing. */
  lemma UnlistedKey(ts: seq<Transaction>, key: Transaction -> string, k: string)
    requires forall j :: 0 <= j < |Buckets(ts, key)| ==> Buckets(ts, key)[j].key != k
    ensures k !in Distinct(KeysOf(ts, key))
    ensures SumWhere(ts, key, k) == 0
  {
    var d := Distinct(KeysOf(ts, key));
    forall j | 0 <= j < |d| ensures d[j] != k {
      assert Buckets(ts, key)[j].key == d[j];
    }
    KeysOfMembership(ts, key, k);
    SumWhereAbsent(ts, key, k);
  }

  /** A record with a new key appends an entry holding its amount. */
  lemma BucketsSnocNew(ts: seq<Transaction>, t: Transaction, key: Transaction -> string)
    requires forall j :: 0 <= j < |Buckets(ts, key)| ==> Buckets(ts, key)[j].key != key(t)
    ensures Buckets(ts + [t], key) == Buckets(ts, key) + [Bucket(key(t), t.amount)]
  {
    var d := Distinct(KeysOf(ts, key));
    assert Distinct(KeysOf(ts + [t], key)) == d + [key(t)] by {
      UnlistedKey(ts, key, key(t));
      KeysOfSnoc(ts, t, key);
      DistinctSnoc(KeysOf(ts, key), key(t));
    }
    assert SumWhere(ts + [t], key, key(t)) == t.amount by {
      UnlistedKey(ts, key, key(t));
      SumWhereSnoc(ts, t, key, key(t));
    }
    var b, nb := Buckets(ts, key), Buckets(ts + [t], key);
    var appended := b + [Bucket(key(t), t.amount)];
    forall i | 0 <= i < |d| + 1 ensures nb[i] == appended[i] {
      if i < |d| {
        SumWhereSnoc(ts, t, key, d[i]);
      }
    }
  }

  /** The reducer itself (expense-charts and spending-analytics): the
      accumulator is updated in place entry by entry. */
  method SumByKey(ts: seq<Transaction>, key: Transaction -> string) returns (acc: seq<Bucket>)
    ensures acc == Buckets(ts, key)
  {
    acc := [];
    for i := 0 to |ts|
      invariant acc == Buckets(ts[..i], key)
    {
      var t := ts[i];
      var k := key(t);
      var j := Find(acc, (b: Bucket) => b.key == k);
      assert ts[..i + 1] == ts[..i] + [t];
      if j < |acc| {
        BucketsSnocFound(ts[..i], t, key, j);
        acc := acc[j := Bucket(acc[j].key, acc[j].total + t.amount)];
      } else {
        BucketsSnocNew(ts[..i], t, key);
        acc := acc + [Bucket(k, t.amount)];
      }
    }
    assert ts[..|ts|] == ts;
  }

  /** The entries have distinct keys, and each holds the sum of the amounts
      of the records with its key. */
  lemma BucketsDistinct(ts: seq<Transaction>, key: Transaction -> string)
    ensures DistinctBy(Buckets(ts, key), BucketKey)
    ensures forall b :: b in Buckets(ts, key) ==> b.total == SumWhere(ts, key, b.key)
  {
    var b := Buckets(ts, key);
    var d := Distinct(KeysOf(ts, key));
    forall i, j | 0 <= i < j < |b| ensures b[i].key != b[j].key {
      assert b[i].key == d[i] && b[j].key == d[j];
    }
  }

  /** There is an entry for every key some record has, and for no other. */
  lemma BucketsCover(ts: seq<Transaction>, key: Transaction -> string, k: string)
    ensures (exists i :: 0 <= i < |Buckets(ts, key)| && Buckets(ts, key)[i].key == k)
        <==> (exists t :: t in ts && key(t) == k)
  {
    var b := Buckets(ts, key);
    var d := Distinct(KeysOf(ts, key));
    KeysOfMembership(ts, key, k);
    if k in d {
      var i :| 0 <= i < |d| && d[i] == k;
      assert b[i].key == k;
    }
    if i :| 0 <= i < |b| && b[i].key == k {
      assert d[i] == k;
    }
  }

  /** A record adds its amount to the entries' totals, whichever entry it
      lands in. */
  lemma BucketsSumSnoc(ts: seq<Transaction>, t: Transaction, key: Transaction -> string)
    ensures SumOf(Buckets(ts + [t], key), BucketTotal) == SumOf(Buckets(ts, key), BucketTotal) + t.amount
  {
    var b := Buckets(ts, key);
    if j :| 0 <= j < |b| && b[j].key == key(t) {
      var updated := b[j := Bucket(key(t), b[j].total + t.amount)];
      assert Buckets(ts + [t], key) == updated by {
        BucketsSnocFound(ts, t, key, j);
      }
      SumOfUpdate(b, j, Bucket(key(t), b[j].total + t.amount), BucketTotal);
    } else {
      var appended := b + [Bucket(key(t), t.amount)];
      assert Buckets(ts + [t], key) == appended by {
        BucketsSnocNew(ts, t, key);
      }
      assert appended[..|b|] == b;
    }
  }

  /** The entries' totals add up to the total of all records: every record
      lands in exactly one entry. */
  lemma {:induction false} BucketsSumToTotal(ts: seq<Transaction>, key: Transaction -> string)
    ensures SumOf(Buckets(ts, key), BucketTotal) == Total(ts)
  {
    if ts != [] {
      var init, t := ts[..|ts| - 1], ts[|ts| - 1];
      assert ts == init + [t];
      BucketsSumToTotal(init, key);
      BucketsSumSnoc(init, t, key);
    }
  }
}
