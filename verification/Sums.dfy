/** Shared types, and totals over finite tables: the meaning of SQL's `SUM(column)` for a table keyed
    by its primary key, and how a total moves when one row is written. */
module Sums {

  type Id = nat

  const U64_MAX := 0xFFFF_FFFF_FFFF_FFFF
  type U64 = n: nat | n <= U64_MAX
  const I64_MAX := 0x7FFF_FFFF_FFFF_FFFF
  const U128_MAX := 0xFFFF_FFFF_FFFF_FFFF_FFFF_FFFF_FFFF_FFFF

  datatype Option<+T> = None | Some(value: T)

  ghost function Total<K>(rows: map<K, int>): int
  {
    if rows == map[] then 0
    else
      var k :| k in rows;
      rows[k] + Total(rows - {k})
  }

  ghost function At<K>(rows: map<K, int>, k: K): int {
    if k in rows then rows[k] else 0
  }

  lemma {:induction false} TotalRemove<K>(rows: map<K, int>, k: K)
    requires k in rows
    ensures Total(rows) == rows[k] + Total(rows - {k})
    decreases |rows|
  {
    var c :| c in rows && Total(rows) == rows[c] + Total(rows - {c});
    if c != k {
      TotalRemove(rows - {c}, k);
      TotalRemove(rows - {k}, c);
      assert rows - {c} - {k} == rows - {k} - {c};
    }
  }

  /** Writing one row moves the total by exactly the difference of the two values. */
  lemma TotalWrite<K>(rows: map<K, int>, k: K, v: int)
    ensures Total(rows[k := v]) == Total(rows) - At(rows, k) + v
  {
    TotalRemove(rows[k := v], k);
    assert rows[k := v] - {k} == rows - {k};
    if k in rows {
      TotalRemove(rows, k);
    } else {
      assert rows - {k} == rows;
    }
  }

  /** Rows that hold 0 do not count, so a filtered SUM may be padded to the whole table. */
  lemma {:induction false} TotalPadded<K>(rows: map<K, int>, padded: map<K, int>)
    requires rows.Keys <= padded.Keys
    requires forall k <- padded.Keys :: padded[k] == At(rows, k)
    ensures Total(padded) == Total(rows)
    decreases |padded|
  {
    if padded == map[] {
      assert rows == map[];
    } else {
      var k :| k in padded;
      TotalRemove(padded, k);
      if k in rows {
        TotalRemove(rows, k);
      } else {
        assert rows - {k} == rows;
      }
      TotalPadded(rows - {k}, padded - {k});
    }
  }

  /** Row by row smaller (absent rows counting as 0) means smaller in total. */
  lemma {:induction false} TotalMonotone<K>(a: map<K, int>, b: map<K, int>)
    requires forall k <- a.Keys :: k in b && a[k] <= b[k]
    requires forall k <- b.Keys - a.Keys :: 0 <= b[k]
    ensures Total(a) <= Total(b)
    decreases |b|
  {
    if b == map[] {
      assert a == map[];
    } else {
      var k :| k in b;
      TotalRemove(b, k);
      if k in a {
        TotalRemove(a, k);
      } else {
        assert a - {k} == a;
      }
      TotalMonotone(a - {k}, b - {k});
    }
  }

  lemma {:induction false} TotalDifference<K>(a: map<K, int>, b: map<K, int>, d: map<K, int>)
    requires a.Keys == b.Keys == d.Keys
    requires forall k <- a.Keys :: d[k] == a[k] - b[k]
    ensures Total(d) == Total(a) - Total(b)
    decreases |a|
  {
    if a != map[] {
      var k :| k in a;
      TotalRemove(a, k);
      TotalRemove(b, k);
      TotalRemove(d, k);
      TotalDifference(a - {k}, b - {k}, d - {k});
    }
  }

  lemma {:induction false} TotalSplit<K>(all: map<K, int>, a: map<K, int>, b: map<K, int>)
    requires forall k :: k in a ==> k in all && k !in b && all[k] == a[k]
    requires forall k :: k in all ==> k in a || (k in b && all[k] == b[k])
    requires forall k :: k in b ==> k in all
    ensures Total(all) == Total(a) + Total(b)
    decreases |b|
  {
    if b == map[] {
      assert all == a;
    } else {
      var k :| k in b;
      TotalRemove(all, k);
      TotalRemove(b, k);
      TotalSplit(all - {k}, a, b - {k});
    }
  }

  /** Renaming the keys one to one does not change a total. */
  lemma {:induction false} TotalRenamed<K, L>(a: map<K, int>, b: map<L, int>, name: K -> L)
    requires forall k :: k in a ==> name(k) in b && b[name(k)] == a[k]
    requires forall j, k :: j in a && k in a && name(j) == name(k) ==> j == k
    requires forall l :: l in b ==> exists k :: k in a && name(k) == l
    ensures Total(a) == Total(b)
    decreases |a|
  {
    if a == map[] {
      assert b == map[];
    } else {
      var k :| k in a;
      TotalRemove(a, k);
      TotalRemove(b, name(k));
      TotalRenamed(a - {k}, b - {name(k)}, name);
    }
  }

  lemma TotalNonNegative<K>(rows: map<K, int>)
    requires forall k <- rows.Keys :: 0 <= rows[k]
    ensures 0 <= Total(rows)
  {
    TotalMonotone(map[], rows);
  }

  lemma TotalAtLeastRow<K>(rows: map<K, int>, k: K)
    requires k in rows
    requires forall j <- rows.Keys :: 0 <= rows[j]
    ensures rows[k] <= Total(rows)
  {
    TotalRemove(rows, k);
    TotalNonNegative(rows - {k});
  }

  /** The database's `COALESCE(SUM(...), 0)`. */
  method SumRows<K(==)>(rows: map<K, int>) returns (total: int)
    ensures total == Total(rows)
  {
    total := 0;
    var rest := rows;
    while rest != map[]
      invariant total + Total(rest) == Total(rows)
      decreases |rest|
    {
      var k :| k in rest;
      TotalRemove(rest, k);
      total := total + rest[k];
      rest := rest - {k};
    }
  }
}
