/**
 * The part of the document store the routes use for listing: a collection is
 * a table from identifiers to documents, and `find(filter).sort(order)`
 * returns every document the filter keeps, each once, in the given order.
 */
module Store {

  /** Document identifiers; the store hands out fresh ones on insertion. */
  type Id = nat

  /** Adjacent entries are in order; for a transitive order the whole sequence then is (SortedByAll). */
  ghost predicate SortedBy<T>(le: (T, T) -> bool, s: seq<T>) {
    forall i :: 0 < i < |s| ==> le(s[i - 1], s[i])
  }

  /** The order compares any two entries one way or the other. */
  ghost predicate Total<T(!new)>(le: (T, T) -> bool) {
    forall a, b :: le(a, b) || le(b, a)
  }

  /** The order chains: a before b and b before c puts a before c. */
  ghost predicate Transitive<T(!new)>(le: (T, T) -> bool) {
    forall a, b, c :: le(a, b) && le(b, c) ==> le(a, c)
  }

  /** Under a transitive order, adjacent entries in order means every earlier entry is before every later one. */
  lemma {:induction false} SortedByAll<T(!new)>(le: (T, T) -> bool, s: seq<T>)
    requires Transitive(le) && SortedBy(le, s)
    ensures forall i, j :: 0 <= i < j < |s| ==> le(s[i], s[j])
  {
    if |s| > 1 {
      var init := s[..|s| - 1];
      assert SortedBy(le, init);
      SortedByAll(le, init);
      forall i, j | 0 <= i < j < |s| ensures le(s[i], s[j]) {
        if j < |s| - 1 {
          assert le(init[i], init[j]);
        } else if i < j - 1 {
          assert le(init[i], init[j - 1]);
          assert le(s[j - 1], s[j]);
        }
      }
    }
  }

  lemma TotalAt<T(!new)>(le: (T, T) -> bool, a: T, b: T)
    requires Total(le)
    ensures le(a, b) || le(b, a)
  {
  }

  /**
   * Where x goes in s: after every entry at or before it in the order, so
   * that entries comparing equal keep their arrival order.
   */
  function InsertionPoint<T>(le: (T, T) -> bool, s: seq<T>, x: T): (k: nat)
    ensures k <= |s|
    ensures forall i :: 0 <= i < k ==> le(s[i], x)
    ensures k < |s| ==> !le(s[k], x)
  {
    if |s| == 0 || !le(s[0], x) then 0 else 1 + InsertionPoint(le, s[1..], x)
  }

  /** Inserting x between a neighbour before it and one after it keeps a sorted sequence sorted. */
  lemma InsertKeepsSorted<T>(le: (T, T) -> bool, s: seq<T>, x: T, k: nat)
    requires SortedBy(le, s)
    requires k <= |s|
    requires 0 < k ==> le(s[k - 1], x)
    requires k < |s| ==> le(x, s[k])
    ensures SortedBy(le, s[..k] + [x] + s[k..])
  {
    var r := s[..k] + [x] + s[k..];
    forall i | 0 < i < |r| ensures le(r[i - 1], r[i]) {
      if i < k {
        assert r[i - 1] == s[i - 1] && r[i] == s[i];
      } else if i == k {
        assert r[i - 1] == s[k - 1] && r[i] == x;
      } else if i == k + 1 {
        assert r[i - 1] == x && r[i] == s[k];
      } else {
        assert r[i - 1] == s[i - 2] && r[i] == s[i - 1];
      }
    }
  }

  /** Inserting x at k adds exactly x to the elements of s. */
  lemma InsertElements<T>(s: seq<T>, x: T, k: nat)
    requires k <= |s|
    ensures forall y :: y in s[..k] + [x] + s[k..] <==> y in s || y == x
  {
    var r := s[..k] + [x] + s[k..];
    forall y | y in r ensures y in s || y == x {
      var i :| 0 <= i < |r| && r[i] == y;
      if i < k {
        assert s[i] == y;
      } else if k < i {
        assert s[i - 1] == y;
      }
    }
    forall y | y in s ensures y in r {
      var j :| 0 <= j < |s| && s[j] == y;
      if j < k {
        assert r[j] == y;
      } else {
        assert r[j + 1] == y;
      }
    }
  }

  /** Inserting an entry whose identifier is new keeps identifiers distinct. */
  lemma InsertFresh<V>(r: seq<(Id, V)>, e: (Id, V), k: nat)
    requires k <= |r|
    requires forall i, j :: 0 <= i < j < |r| ==> r[i].0 != r[j].0
    requires forall i :: 0 <= i < |r| ==> r[i].0 != e.0
    ensures var r' := r[..k] + [e] + r[k..];
      forall i, j :: 0 <= i < j < |r'| ==> r'[i].0 != r'[j].0
  {
    var r' := r[..k] + [e] + r[k..];
    forall i, j | 0 <= i < j < |r'| ensures r'[i].0 != r'[j].0 {
      var si := if i < k then i else i - 1;
      var sj := if j <= k then j else j - 1;
      if i == k {
        assert r'[j] == r[sj];
      } else if j == k {
        assert r'[i] == r[si];
      } else {
        assert r'[i] == r[si] && r'[j] == r[sj] && si < sj;
      }
    }
  }

  /**
   * find(filter).sort(order) on one collection: every document the filter
   * keeps, listed once with its identifier, in the order `le`.
   */
  method FindSorted<V(!new)>(table: map<Id, V>, keep: V -> bool, le: ((Id, V), (Id, V)) -> bool)
    returns (r: seq<(Id, V)>)
    requires Total(le)
    ensures forall i :: 0 <= i < |r| ==> r[i].0 in table && table[r[i].0] == r[i].1 && keep(r[i].1)
    ensures forall id :: id in table && keep(table[id]) ==> exists i :: 0 <= i < |r| && r[i].0 == id
    ensures forall i, j :: 0 <= i < j < |r| ==> r[i].0 != r[j].0
    ensures SortedBy(le, r)
    ensures Transitive(le) ==> forall i, j :: 0 <= i < j < |r| ==> le(r[i], r[j])
  {
    r := [];
    var todo := table.Keys;
    while todo != {}
      invariant todo <= table.Keys
      invariant forall x :: x in r ==>
        x.0 in table && x.0 !in todo && table[x.0] == x.1 && keep(x.1)
      invariant forall id :: id in table && id !in todo && keep(table[id]) ==> (id, table[id]) in r
      invariant forall i, j :: 0 <= i < j < |r| ==> r[i].0 != r[j].0
      invariant SortedBy(le, r)
      decreases todo
    {
      var id :| id in todo;
      if keep(table[id]) {
        var e := (id, table[id]);
        var k := InsertionPoint(le, r, e);
        if k < |r| {
          TotalAt(le, r[k], e);
        }
        InsertKeepsSorted(le, r, e, k);
        InsertElements(r, e, k);
        InsertFresh(r, e, k);
        r := r[..k] + [e] + r[k..];
      }
      todo := todo - {id};
    }
    forall id | id in table && keep(table[id])
      ensures exists i :: 0 <= i < |r| && r[i].0 == id
    {
      var i :| 0 <= i < |r| && r[i] == (id, table[id]);
    }
    if Transitive(le) {
      SortedByAll(le, r);
    }
  }
}
