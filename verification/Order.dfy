/** The two ORDER BY clauses of the claim, as one total order on sort keys. */
module Order {
  import opened Types

  /** Byte-wise text order, as in the "C" collation. */
  predicate BytesLess(a: Bytes, b: Bytes) {
    if b == [] then false
    else if a == [] then true
    else if a[0] != b[0] then a[0] < b[0]
    else BytesLess(a[1..], b[1..])
  }

  /** The first n bytes agree, and then a ends or has the smaller byte. */
  predicate DiffersUpwardsAt(a: Bytes, b: Bytes, n: nat) {
    && n <= |a| && n < |b| && (n == |a| || a[n] < b[n])
    && forall i | 0 <= i < n :: a[i] == b[i]
  }

  lemma {:induction false} BytesLessIsByteOrder(a: Bytes, b: Bytes)
    ensures BytesLess(a, b) <==> exists n: nat :: DiffersUpwardsAt(a, b, n)
  {
    if a == [] || b == [] || a[0] != b[0] {
      if b != [] && (a == [] || a[0] < b[0]) { assert DiffersUpwardsAt(a, b, 0); }
    } else {
      BytesLessIsByteOrder(a[1..], b[1..]);
      if n: nat :| DiffersUpwardsAt(a[1..], b[1..], n) {
        forall i | 0 <= i < n + 1 ensures a[i] == b[i] {
          if i > 0 { assert a[i] == a[1..][i - 1] && b[i] == b[1..][i - 1]; }
        }
        assert DiffersUpwardsAt(a, b, n + 1);
      }
      if n: nat :| DiffersUpwardsAt(a, b, n) {
        assert DiffersUpwardsAt(a[1..], b[1..], n - 1);
      }
    }
  }

  lemma {:induction false} BytesTotal(a: Bytes, b: Bytes)
    ensures a == b || BytesLess(a, b) || BytesLess(b, a)
  {
    if a != [] && b != [] && a[0] == b[0] {
      BytesTotal(a[1..], b[1..]);
      assert a == [a[0]] + a[1..] && b == [b[0]] + b[1..];
    }
  }

  lemma {:induction false} BytesAsymmetric(a: Bytes, b: Bytes)
    requires BytesLess(a, b)
    ensures !BytesLess(b, a)
  {
    if a != [] && a[0] == b[0] {
      BytesAsymmetric(a[1..], b[1..]);
    }
  }

  lemma BytesIrreflexive(a: Bytes)
    ensures !BytesLess(a, a)
  {
    if BytesLess(a, a) { BytesAsymmetric(a, a); }
  }

  lemma {:induction false} BytesTransitive(a: Bytes, b: Bytes, c: Bytes)
    requires BytesLess(a, b) && BytesLess(b, c)
    ensures BytesLess(a, c)
  {
    if a != [] && a[0] == b[0] && b[0] == c[0] {
      BytesTransitive(a[1..], b[1..], c[1..]);
    }
  }

  /** `lease_expires_at, delivery_id` and `available_at, created_at, delivery_id`. */
  datatype SortKey = SortKey(first: Micros, second: Micros, id: DeliveryId)

  type Ranks = map<DeliveryId, SortKey>

  predicate KeyLess(a: SortKey, b: SortKey) {
    || a.first < b.first
    || (a.first == b.first && a.second < b.second)
    || (a.first == b.first && a.second == b.second && BytesLess(a.id, b.id))
  }

  lemma KeyTotal(a: SortKey, b: SortKey)
    ensures a == b || KeyLess(a, b) || KeyLess(b, a)
  {
    BytesTotal(a.id, b.id);
  }

  lemma KeyAsymmetric(a: SortKey, b: SortKey)
    requires KeyLess(a, b)
    ensures !KeyLess(b, a)
  {
    if BytesLess(a.id, b.id) { BytesAsymmetric(a.id, b.id); }
  }

  lemma KeyTransitive(a: SortKey, b: SortKey, c: SortKey)
    requires KeyLess(a, b) && KeyLess(b, c)
    ensures KeyLess(a, c)
  {
    if BytesLess(a.id, b.id) && BytesLess(b.id, c.id) { BytesTransitive(a.id, b.id, c.id); }
  }

  /** Every id of the set has a rank of its own. */
  ghost predicate Ranked(ids: set<DeliveryId>, ranks: Ranks) {
    forall id :: id in ids ==> id in ranks && ranks[id].id == id
  }

  ghost predicate IsLeast(ids: set<DeliveryId>, ranks: Ranks, m: DeliveryId)
    requires Ranked(ids, ranks)
  {
    m in ids && forall j :: j in ids && j != m ==> KeyLess(ranks[m], ranks[j])
  }

  lemma {:induction false} LeastExists(ids: set<DeliveryId>, ranks: Ranks)
    requires Ranked(ids, ranks) && ids != {}
    ensures exists m :: IsLeast(ids, ranks, m)
    decreases ids
  {
    var m :| m in ids;
    var rest := ids - {m};
    assert ids == rest + {m};
    if rest != {} {
      LeastExists(rest, ranks);
      var n :| IsLeast(rest, ranks, n);
      KeyTotal(ranks[m], ranks[n]);
      if KeyLess(ranks[n], ranks[m]) {
        m := n;
      } else {
        forall j | j in ids && j != m ensures KeyLess(ranks[m], ranks[j]) {
          if j != n { KeyTransitive(ranks[m], ranks[n], ranks[j]); }
        }
      }
    }
    assert IsLeast(ids, ranks, m);
  }

  lemma LeastUnique(ids: set<DeliveryId>, ranks: Ranks, m: DeliveryId, n: DeliveryId)
    requires Ranked(ids, ranks) && IsLeast(ids, ranks, m) && IsLeast(ids, ranks, n)
    ensures m == n
  {
    if m != n { KeyAsymmetric(ranks[m], ranks[n]); }
  }

  ghost function Least(ids: set<DeliveryId>, ranks: Ranks): (m: DeliveryId)
    requires Ranked(ids, ranks) && ids != {}
    ensures IsLeast(ids, ranks, m)
  {
    LeastExists(ids, ranks);
    var m :| IsLeast(ids, ranks, m);
    m
  }

  function Min(a: int, b: int): int { if a <= b then a else b }

  /** ORDER BY ... LIMIT n, declaratively: n rows (or all), each before every row left out. */
  ghost predicate IsFirst(ids: set<DeliveryId>, ranks: Ranks, n: nat, chosen: set<DeliveryId>)
    requires Ranked(ids, ranks)
  {
    && chosen <= ids
    && |chosen| == Min(n, |ids|)
    && (forall a, b :: a in chosen && b in ids && b !in chosen ==> KeyLess(ranks[a], ranks[b]))
  }

  /** ORDER BY ... LIMIT n, by repeated selection of the least row. */
  ghost function First(ids: set<DeliveryId>, ranks: Ranks, n: nat): (chosen: set<DeliveryId>)
    requires Ranked(ids, ranks)
    ensures IsFirst(ids, ranks, n, chosen)
    decreases n
  {
    if n == 0 || ids == {} then {}
    else
      var m := Least(ids, ranks);
      {m} + First(ids - {m}, ranks, n - 1)
  }

  lemma FirstUnique(ids: set<DeliveryId>, ranks: Ranks, n: nat, s: set<DeliveryId>, t: set<DeliveryId>)
    requires Ranked(ids, ranks) && IsFirst(ids, ranks, n, s) && IsFirst(ids, ranks, n, t)
    ensures s == t
  {
    if s != t {
      SameSizeDiffer(s, t);
      SameSizeDiffer(t, s);
      var a :| a in s && a !in t;
      var b :| b in t && b !in s;
      assert KeyLess(ranks[a], ranks[b]) && KeyLess(ranks[b], ranks[a]);
      KeyAsymmetric(ranks[a], ranks[b]);
    }
  }

  /** The ids ranked before one of them. */
  function Before(ids: set<DeliveryId>, ranks: Ranks, id: DeliveryId): set<DeliveryId>
    requires ids <= ranks.Keys && id in ids
  {
    set j | j in ids && KeyLess(ranks[j], ranks[id])
  }

  lemma SubsetSize<T>(a: set<T>, b: set<T>)
    requires a <= b
    ensures |a| <= |b| && (|a| == |b| ==> a == b)
  {
    assert b == a + (b - a);
  }

  /** Chosen are those with fewer than n before them. */
  lemma FirstByRank(ids: set<DeliveryId>, ranks: Ranks, n: nat, chosen: set<DeliveryId>, id: DeliveryId)
    requires Ranked(ids, ranks) && IsFirst(ids, ranks, n, chosen) && id in ids
    ensures id in chosen <==> |Before(ids, ranks, id)| < n
  {
    var before := Before(ids, ranks, id);
    if id in chosen {
      forall j | j in before ensures j in chosen && j != id {
        KeyAsymmetric(ranks[j], ranks[id]);
      }
      SubsetSize(before + {id}, chosen);
      assert id !in before;
    } else {
      SubsetSize(chosen, ids);
      assert |chosen| == n;
      SubsetSize(chosen, before);
    }
  }

  lemma SameSizeDiffer<T>(s: set<T>, t: set<T>)
    requires |s| == |t| && s != t
    ensures exists a :: a in s && a !in t
  {
    assert s == s * t + (s - t) && t == s * t + (t - s);
    assert |s - t| == |t - s|;
    assert s - t != {} || t - s != {};
    assert s - t != {};
  }
}
