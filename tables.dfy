// Sequences of records standing for database tables, and the generic
// query and update shapes the business layer applies to them: a
// filtered query, an update of every row meeting a condition, and the
// ORM's write-back of a list of updated entities by primary key.
module Tables {
  import opened Wrappers

  /** Where(p).ToList(): the rows meeting p, in table order. */
  function Filter<T(!new)>(s: seq<T>, p: T -> bool): (r: seq<T>)
    ensures |r| <= |s|
    ensures forall x :: x in r <==> x in s && p(x)
  {
    if s == [] then []
    else
      assert forall x :: x in s <==> x == s[0] || x in s[1..];
      (if p(s[0]) then [s[0]] else []) + Filter(s[1..], p)
  }

  /** Every row meeting p replaced by f of it; the other rows as they were. */
  function UpdateWhere<T>(s: seq<T>, p: T -> bool, f: T -> T): (r: seq<T>)
    ensures |r| == |s|
    ensures forall i :: 0 <= i < |s| ==> r[i] == if p(s[i]) then f(s[i]) else s[i]
  {
    seq(|s|, i requires 0 <= i < |s| => if p(s[i]) then f(s[i]) else s[i])
  }

  /** No two rows share a primary key. */
  predicate KeysUnique<T, K(==)>(s: seq<T>, key: T -> K)
  {
    forall i, j :: 0 <= i < j < |s| ==> key(s[i]) != key(s[j])
  }

  /** The first row whose primary key is k. */
  function FindByKey<T(!new), K(==)>(s: seq<T>, key: T -> K, k: K): (r: Option<T>)
    ensures r.Some? ==> r.value in s && key(r.value) == k
    ensures r.None? <==> forall x :: x in s ==> key(x) != k
  {
    if s == [] then None
    else if key(s[0]) == k then Some(s[0])
    else
      assert forall x :: x in s <==> x == s[0] || x in s[1..];
      FindByKey(s[1..], key, k)
  }

  /** Updateable(list).ExecuteCommand(): every stored row whose key occurs
      in the written list is replaced by the written entity. */
  function ReplaceByKey<T(!new), K(==)>(rows: seq<T>, written: seq<T>, key: T -> K): (r: seq<T>)
    ensures |r| == |rows|
  {
    seq(|rows|, i requires 0 <= i < |rows| =>
      match FindByKey(written, key, key(rows[i]))
      case Some(w) => w
      case None => rows[i])
  }

  /** In a table with unique keys the row with a given key is determined. */
  lemma UniqueKeyIdentifies<T, K>(s: seq<T>, key: T -> K, x: T, y: T)
    requires KeysUnique(s, key)
    requires x in s && y in s && key(x) == key(y)
    ensures x == y
  {
    var i :| 0 <= i < |s| && s[i] == x;
    var j :| 0 <= j < |s| && s[j] == y;
    assert key(s[i]) == key(s[j]);
  }

  /** The query-modify-write-back pattern: fetch the rows meeting p, apply
      f to each fetched entity (keeping its key), write the list back by
      key. On a table with unique keys this is UpdateWhere(rows, p, f). */
  lemma {:induction false} WriteBackIsUpdateWhere<T(!new), K>(
    rows: seq<T>, p: T -> bool, f: T -> T, key: T -> K, written: seq<T>)
    requires KeysUnique(rows, key)
    requires forall x :: key(f(x)) == key(x)
    requires |written| == |Filter(rows, p)|
    requires forall i :: 0 <= i < |written| ==> written[i] == f(Filter(rows, p)[i])
    ensures ReplaceByKey(rows, written, key) == UpdateWhere(rows, p, f)
  {
    var fetched := Filter(rows, p);
    var lhs := ReplaceByKey(rows, written, key);
    var rhs := UpdateWhere(rows, p, f);
    forall i | 0 <= i < |rows|
      ensures lhs[i] == rhs[i]
    {
      var row := rows[i];
      var found := FindByKey(written, key, key(row));
      if p(row) {
        assert row in fetched;
        var j :| 0 <= j < |fetched| && fetched[j] == row;
        assert written[j] == f(row) && key(written[j]) == key(row);
        assert found.Some?;
        var k :| 0 <= k < |written| && written[k] == found.value;
        assert fetched[k] in fetched;
        UniqueKeyIdentifies(rows, key, fetched[k], row);
      } else {
        if found.Some? {
          var k :| 0 <= k < |written| && written[k] == found.value;
          assert fetched[k] in fetched;
          UniqueKeyIdentifies(rows, key, fetched[k], row);
          assert false;
        }
      }
    }
  }

  /** An update whose effect is idempotent and does not move rows in or
      out of the condition can be repeated without further change. */
  lemma UpdateWhereTwice<T>(s: seq<T>, p: T -> bool, f: T -> T)
    requires forall x :: p(x) ==> p(f(x)) && f(f(x)) == f(x)
    ensures UpdateWhere(UpdateWhere(s, p, f), p, f) == UpdateWhere(s, p, f)
  {
  }

  /** The condition "has primary key k". */
  function KeyIs<T, K(==)>(key: T -> K, k: K): T -> bool
  {
    x => key(x) == k
  }

  /** Querying a table with unique keys by key yields that one row. */
  lemma {:induction false} FilterByUniqueKey<T(!new), K>(s: seq<T>, key: T -> K, k: K)
    requires KeysUnique(s, key)
    ensures FindByKey(s, key, k).Some? ==> Filter(s, KeyIs(key, k)) == [FindByKey(s, key, k).value]
    ensures FindByKey(s, key, k).None? ==> Filter(s, KeyIs(key, k)) == []
  {
    if s != [] {
      var rest := Filter(s[1..], KeyIs(key, k));
      assert KeysUnique(s[1..], key) by {
        forall i, j | 0 <= i < j < |s[1..]| ensures key(s[1..][i]) != key(s[1..][j]) {
          assert s[1..][i] == s[i + 1] && s[1..][j] == s[j + 1];
        }
      }
      FilterByUniqueKey(s[1..], key, k);
      if key(s[0]) == k {
        forall x | x in s[1..] ensures key(x) != k {
          var j :| 0 <= j < |s[1..]| && s[1..][j] == x;
          assert s[j + 1] == x;
        }
        assert FindByKey(s[1..], key, k).None?;
        assert Filter(s, KeyIs(key, k)) == [s[0]] + rest;
      } else {
        assert Filter(s, KeyIs(key, k)) == rest;
      }
    }
  }

  /** A query distributes over appended rows. */
  lemma {:induction false} FilterAppend<T(!new)>(a: seq<T>, b: seq<T>, p: T -> bool)
    ensures Filter(a + b, p) == Filter(a, p) + Filter(b, p)
  {
    if a != [] {
      assert (a + b)[0] == a[0] && (a + b)[1..] == a[1..] + b;
      FilterAppend(a[1..], b, p);
    } else {
      assert a + b == b;
    }
  }

  /** Rows an update touches neither before nor after it are invisible to a
      query, so the query's answer does not change. */
  lemma {:induction false} FilterUnaffected<T(!new)>(s: seq<T>, p: T -> bool, f: T -> T, q: T -> bool)
    requires forall x :: p(x) ==> !q(x) && !q(f(x))
    ensures Filter(UpdateWhere(s, p, f), q) == Filter(s, q)
  {
    if s != [] {
      assert UpdateWhere(s, p, f)[1..] == UpdateWhere(s[1..], p, f);
      FilterUnaffected(s[1..], p, f, q);
    }
  }

  /** An update whose result never meets q removes from q's answer exactly
      the rows it touched. */
  lemma {:induction false} FilterAfterUpdate<T(!new)>(s: seq<T>, p: T -> bool, f: T -> T, q: T -> bool)
    requires forall x :: p(x) ==> !q(f(x))
    ensures forall x :: x in Filter(UpdateWhere(s, p, f), q) <==> x in s && q(x) && !p(x)
  {
    if s != [] {
      assert UpdateWhere(s, p, f)[1..] == UpdateWhere(s[1..], p, f);
      FilterAfterUpdate(s[1..], p, f, q);
      assert forall x :: x in UpdateWhere(s, p, f) <==> x == UpdateWhere(s, p, f)[0] || x in UpdateWhere(s[1..], p, f);
      assert forall x :: x in s <==> x == s[0] || x in s[1..];
    }
  }

  /** An update that keeps every row's key keeps the keys unique. */
  lemma UpdateKeepsKeys<T, K>(s: seq<T>, p: T -> bool, f: T -> T, key: T -> K)
    requires KeysUnique(s, key)
    requires forall x :: key(f(x)) == key(x)
    ensures KeysUnique(UpdateWhere(s, p, f), key)
  {
    var r := UpdateWhere(s, p, f);
    forall i, j | 0 <= i < j < |r| ensures key(r[i]) != key(r[j]) {
      assert key(r[i]) == key(s[i]) && key(r[j]) == key(s[j]);
    }
  }

  /** Appending a row whose key is absent keeps the keys unique. */
  lemma AppendFreshKey<T(!new), K>(s: seq<T>, x: T, key: T -> K)
    requires KeysUnique(s, key)
    requires FindByKey(s, key, key(x)).None?
    ensures KeysUnique(s + [x], key)
  {
    var r := s + [x];
    forall i, j | 0 <= i < j < |r| ensures key(r[i]) != key(r[j]) {
      if j == |s| {
        assert r[i] == s[i] && s[i] in s;
      } else {
        assert r[i] == s[i] && r[j] == s[j];
      }
    }
  }

  /** A query no row meets answers nothing. */
  lemma {:induction false} FilterNone<T(!new)>(s: seq<T>, p: T -> bool)
    requires forall i :: 0 <= i < |s| ==> !p(s[i])
    ensures Filter(s, p) == []
  {
    if s != [] {
      FilterNone(s[1..], p);
    }
  }

  /** An update that matches nothing in a prefix leaves the prefix alone. */
  lemma UpdateWhereSkipsPrefix<T>(s: seq<T>, t: seq<T>, p: T -> bool, f: T -> T)
    requires forall i :: 0 <= i < |s| ==> !p(s[i])
    ensures UpdateWhere(s + t, p, f) == s + UpdateWhere(t, p, f)
  {
    var lhs := UpdateWhere(s + t, p, f);
    var rhs := s + UpdateWhere(t, p, f);
    forall i | 0 <= i < |lhs| ensures lhs[i] == rhs[i] {
      if i < |s| {
        assert (s + t)[i] == s[i];
      } else {
        assert (s + t)[i] == t[i - |s|];
      }
    }
  }

  /** Looking a row up by key after the row with key k was updated: k now
      finds the updated row, every other key finds what it found before. */
  lemma {:induction false} FindAfterKeyedUpdate<T(!new), K>(s: seq<T>, key: T -> K, k: K, f: T -> T, k2: K)
    requires forall x :: key(f(x)) == key(x)
    ensures var before := FindByKey(s, key, k2);
      FindByKey(UpdateWhere(s, KeyIs(key, k), f), key, k2)
        == if k2 == k && before.Some? then Some(f(before.value)) else before
  {
    if s != [] {
      assert UpdateWhere(s, KeyIs(key, k), f)[1..] == UpdateWhere(s[1..], KeyIs(key, k), f);
      FindAfterKeyedUpdate(s[1..], key, k, f, k2);
    }
  }

  /** Fetching the row with key k by First(), changing it and writing it
      back by key is the keyed update, and keeps the keys unique. */
  lemma WriteBackOne<T(!new), K>(rows: seq<T>, key: T -> K, k: K, f: T -> T)
    requires KeysUnique(rows, key)
    requires forall x :: key(f(x)) == key(x)
    requires FindByKey(rows, key, k).Some?
    ensures ReplaceByKey(rows, [f(FindByKey(rows, key, k).value)], key) == UpdateWhere(rows, KeyIs(key, k), f)
    ensures KeysUnique(UpdateWhere(rows, KeyIs(key, k), f), key)
  {
    FilterByUniqueKey(rows, key, k);
    WriteBackIsUpdateWhere(rows, KeyIs(key, k), f, key, [f(FindByKey(rows, key, k).value)]);
    UpdateKeepsKeys(rows, KeyIs(key, k), f, key);
  }

  function Not<T>(p: T -> bool): T -> bool
  {
    x => !p(x)
  }

  /** A query every row meets returns the whole table. */
  lemma {:induction false} FilterKeepsAll<T(!new)>(s: seq<T>, p: T -> bool)
    requires forall i :: 0 <= i < |s| ==> p(s[i])
    ensures Filter(s, p) == s
  {
    if s != [] {
      FilterKeepsAll(s[1..], p);
    }
  }

  /** Removing the rows meeting p leaves the answer of a query q that no
      such row meets as it was. */
  lemma {:induction false} FilterPastRemoval<T(!new)>(s: seq<T>, p: T -> bool, q: T -> bool)
    requires forall x :: q(x) ==> !p(x)
    ensures Filter(Filter(s, Not(p)), q) == Filter(s, q)
  {
    if s != [] {
      var head := if Not(p)(s[0]) then [s[0]] else [];
      FilterAppend(head, Filter(s[1..], Not(p)), q);
      FilterPastRemoval(s[1..], p, q);
      if head != [] {
        assert head[1..] == [];
      }
    }
  }

  /** First(p): the first row meeting p, or nothing. */
  function FindFirst<T(!new)>(s: seq<T>, p: T -> bool): (r: Option<T>)
    ensures r.Some? ==> r.value in s && p(r.value)
    ensures r.None? <==> forall x :: x in s ==> !p(x)
  {
    if s == [] then None
    else if p(s[0]) then Some(s[0])
    else
      assert forall x :: x in s <==> x == s[0] || x in s[1..];
      FindFirst(s[1..], p)
  }

  function KeyAbsentIn<T(!new), K(==)>(list: seq<T>, key: T -> K): T -> bool
  {
    x => FindByKey(list, key, key(x)).None?
  }

  /** Deleteable(list).ExecuteCommand(): every row whose key occurs in the
      list is deleted. */
  function DeleteByKey<T(!new), K(==)>(rows: seq<T>, list: seq<T>, key: T -> K): seq<T>
  {
    Filter(rows, KeyAbsentIn(list, key))
  }

  /** Two conditions that agree on every row give the same answer. */
  lemma {:induction false} FilterCongruent<T(!new)>(s: seq<T>, p: T -> bool, q: T -> bool)
    requires forall i :: 0 <= i < |s| ==> p(s[i]) == q(s[i])
    ensures Filter(s, p) == Filter(s, q)
  {
    if s != [] {
      FilterCongruent(s[1..], p, q);
    }
  }

  /** Deleting the fetched rows by key removes exactly the rows meeting p. */
  lemma DeleteFetchedIsFilterOut<T(!new), K>(rows: seq<T>, p: T -> bool, key: T -> K)
    requires KeysUnique(rows, key)
    ensures DeleteByKey(rows, Filter(rows, p), key) == Filter(rows, Not(p))
  {
    var fetched := Filter(rows, p);
    forall i | 0 <= i < |rows| ensures KeyAbsentIn(fetched, key)(rows[i]) == Not(p)(rows[i]) {
      var found := FindByKey(fetched, key, key(rows[i]));
      if p(rows[i]) {
        assert rows[i] in fetched;
      } else if found.Some? {
        UniqueKeyIdentifies(rows, key, found.value, rows[i]);
      }
    }
    FilterCongruent(rows, KeyAbsentIn(fetched, key), Not(p));
  }

  /** A query over a table with unique keys has unique keys. */
  lemma {:induction false} FilterKeepsKeys<T(!new), K>(s: seq<T>, p: T -> bool, key: T -> K)
    requires KeysUnique(s, key)
    ensures KeysUnique(Filter(s, p), key)
  {
    if s != [] {
      assert KeysUnique(s[1..], key) by {
        forall i, j | 0 <= i < j < |s[1..]| ensures key(s[1..][i]) != key(s[1..][j]) {
          assert s[1..][i] == s[i + 1] && s[1..][j] == s[j + 1];
        }
      }
      FilterKeepsKeys(s[1..], p, key);
      var rest := Filter(s[1..], p);
      if p(s[0]) {
        var r := [s[0]] + rest;
        forall i, j | 0 <= i < j < |r| ensures key(r[i]) != key(r[j]) {
          if i == 0 {
            assert r[j] in rest;
            var k :| 0 <= k < |s[1..]| && s[1..][k] == r[j];
            assert s[k + 1] == r[j];
          } else {
            assert r[i] == rest[i - 1] && r[j] == rest[j - 1];
          }
        }
      }
    }
  }

  /** In a table with unique keys a row is found by its own key. */
  lemma FoundByOwnKey<T(!new), K>(s: seq<T>, key: T -> K, x: T)
    requires KeysUnique(s, key) && x in s
    ensures FindByKey(s, key, key(x)) == Some(x)
  {
    UniqueKeyIdentifies(s, key, FindByKey(s, key, key(x)).value, x);
  }
}
