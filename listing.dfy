/** `ORDER BY created_at DESC` over the rows a query selects: rows are kept
    newest first by inserting each selected row before the first older one. */
module Listing {

  /** Newest first: the key never increases along the sequence. */
  ghost predicate SortedDesc<T>(s: seq<T>, key: T -> int) {
    forall i, j :: 0 <= i < j < |s| ==> key(s[i]) >= key(s[j])
  }

  ghost predicate NoDuplicates<T>(s: seq<T>) {
    forall i, j :: 0 <= i < j < |s| ==> s[i] != s[j]
  }

  /** Places x in front of the first row whose key is not greater than its own. */
  function InsertDesc<T(!new)>(x: T, s: seq<T>, key: T -> int): (r: seq<T>)
    ensures |r| == |s| + 1
    ensures multiset(r) == multiset(s) + multiset{x}
    ensures forall y :: y in r <==> y == x || y in s
  {
    if s == [] || key(s[0]) <= key(x) then [x] + s
    else
      var tail := InsertDesc(x, s[1..], key);
      assert s == [s[0]] + s[1..];
      [s[0]] + tail
  }

  lemma {:induction false} InsertDescSorted<T(!new)>(x: T, s: seq<T>, key: T -> int)
    requires SortedDesc(s, key)
    ensures SortedDesc(InsertDesc(x, s, key), key)
  {
    if s == [] || key(s[0]) <= key(x) {
    } else {
      var tail := InsertDesc(x, s[1..], key);
      assert SortedDesc(s[1..], key) by {
        forall i, j | 0 <= i < j < |s[1..]| ensures key(s[1..][i]) >= key(s[1..][j]) {
          assert s[1..][i] == s[i + 1] && s[1..][j] == s[j + 1];
        }
      }
      InsertDescSorted(x, s[1..], key);
      var r := [s[0]] + tail;
      forall k | 0 < k < |r| ensures key(r[0]) >= key(r[k]) {
        assert r[k] == tail[k - 1];
        assert r[k] in multiset(tail);
        if r[k] != x {
          assert r[k] in multiset(s[1..]);
          var m :| 0 <= m < |s[1..]| && s[1..][m] == r[k];
          assert s[m + 1] == r[k];
        }
      }
    }
  }

  lemma {:induction false} InsertDescDistinct<T(!new)>(x: T, s: seq<T>, key: T -> int)
    requires NoDuplicates(s) && x !in s
    ensures NoDuplicates(InsertDesc(x, s, key))
  {
    if s == [] || key(s[0]) <= key(x) {
      var r := [x] + s;
      forall i, j | 0 <= i < j < |r| ensures r[i] != r[j] {
        assert r[j] == s[j - 1];
        if i > 0 { assert r[i] == s[i - 1]; }
      }
    } else {
      assert NoDuplicates(s[1..]) by {
        forall i, j | 0 <= i < j < |s[1..]| ensures s[1..][i] != s[1..][j] {
          assert s[1..][i] == s[i + 1] && s[1..][j] == s[j + 1];
        }
      }
      assert x !in s[1..];
      InsertDescDistinct(x, s[1..], key);
      var tail := InsertDesc(x, s[1..], key);
      assert s[0] !in s[1..] by {
        forall m | 0 <= m < |s[1..]| ensures s[1..][m] != s[0] {
          assert s[1..][m] == s[m + 1];
        }
      }
      assert s[0] !in multiset(tail);
      var r := [s[0]] + tail;
      forall i, j | 0 <= i < j < |r| ensures r[i] != r[j] {
        assert r[j] == tail[j - 1];
        if i > 0 { assert r[i] == tail[i - 1]; }
      }
    }
  }

  /** How the store answers `SELECT * FROM t WHERE <filters> ORDER BY created_at
      DESC`: every row that passes the filters, once, newest first. Rows carry
      their own id, so distinct keys hold distinct rows. */
  method Select<R(==,!new)>(table: map<nat, R>, keep: R -> bool, key: R -> int) returns (rows: seq<R>)
    requires forall a, b :: a in table && b in table && table[a] == table[b] ==> a == b
    ensures forall r :: r in rows ==> r in table.Values && keep(r)
    ensures forall k :: k in table && keep(table[k]) ==> table[k] in rows
    ensures NoDuplicates(rows) && SortedDesc(rows, key)
  {
    var todo := table.Keys;
    rows := [];
    while todo != {}
      invariant todo <= table.Keys
      invariant forall r :: r in rows ==> r in table.Values && keep(r)
      invariant forall k :: k in table && k !in todo && keep(table[k]) ==> table[k] in rows
      invariant forall k :: k in todo ==> table[k] !in rows
      invariant NoDuplicates(rows) && SortedDesc(rows, key)
      decreases |todo|
    {
      var k :| k in todo;
      if keep(table[k]) {
        InsertDescSorted(table[k], rows, key);
        InsertDescDistinct(table[k], rows, key);
        rows := InsertDesc(table[k], rows, key);
      }
      assert table[k] in table.Values;
      todo := todo - {k};
    }
  }
}
