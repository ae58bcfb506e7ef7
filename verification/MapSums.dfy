/** Sums over the rows of a table. */
module MapSums {

  ghost function Total<K>(rows: map<K, int>): int {
    if rows == map[] then 0
    else
      var k :| k in rows;
      rows[k] + Total(rows - {k})
  }

  // The order in which the rows are added up does not matter.
  lemma {:induction false} TotalRemove<K>(rows: map<K, int>, k: K)
    requires k in rows
    ensures Total(rows) == rows[k] + Total(rows - {k})
    decreases rows
  {
    var first :| first in rows && Total(rows) == rows[first] + Total(rows - {first});
    if first != k {
      TotalRemove(rows - {first}, k);
      TotalRemove(rows - {k}, first);
      assert rows - {first} - {k} == rows - {k} - {first};
    }
  }

  lemma TotalUpdate<K>(rows: map<K, int>, k: K, value: int)
    ensures Total(rows[k := value]) == Total(rows) + value - (if k in rows then rows[k] else 0)
  {
    var after := rows[k := value];
    TotalRemove(after, k);
    assert after - {k} == rows - {k};
    if k in rows {
      TotalRemove(rows, k);
    } else {
      assert rows - {k} == rows;
    }
  }

  lemma {:induction false} TotalIsNatural<K>(rows: map<K, int>)
    requires forall k :: k in rows ==> rows[k] >= 0
    ensures Total(rows) >= 0
    ensures Total(rows) == 0 ==> forall k :: k in rows ==> rows[k] == 0
  {
    if rows != map[] {
      var first :| first in rows && Total(rows) == rows[first] + Total(rows - {first});
      TotalIsNatural(rows - {first});
      forall k | k in rows && Total(rows) == 0
        ensures rows[k] == 0
      {
        assert k == first || k in rows - {first};
      }
    }
  }

  // Sums add up row by row.
  lemma {:induction false} TotalAdds<K>(a: map<K, int>, b: map<K, int>, sum: map<K, int>)
    requires a.Keys == b.Keys == sum.Keys
    requires forall k :: k in sum ==> sum[k] == a[k] + b[k]
    ensures Total(sum) == Total(a) + Total(b)
    decreases sum
  {
    if sum == map[] {
      assert a == map[] && b == map[];
    } else {
      var k :| k in sum && Total(sum) == sum[k] + Total(sum - {k});
      TotalRemove(a, k);
      TotalRemove(b, k);
      TotalAdds(a - {k}, b - {k}, sum - {k});
    }
  }

  // Rows that are zero can be left out.
  lemma {:induction false} TotalSupport<K>(rows: map<K, int>, part: map<K, int>)
    requires part.Keys <= rows.Keys
    requires forall k :: k in rows ==> rows[k] == if k in part then part[k] else 0
    ensures Total(rows) == Total(part)
    decreases rows
  {
    if rows != map[] {
      var k :| k in rows && Total(rows) == rows[k] + Total(rows - {k});
      if k in part {
        TotalRemove(part, k);
        TotalSupport(rows - {k}, part - {k});
      } else {
        TotalSupport(rows - {k}, part);
      }
    } else {
      assert part == map[];
    }
  }
}
