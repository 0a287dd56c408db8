/** The user table's sort: a stable sort by lower-cased email, ascending or
    descending, with the comparator of components/user-table.tsx. */
module EmailSort {

  import opened Users
  import opened Text
  import opened Seqs

  /** The table's sort direction. */
  datatype SortDir = Asc | Desc

  /** The sort key: the lower-cased email. */
  function EmailKey(u: User): string
  {
    LowerStr(u.email)
  }

  /** The comparator returns a negative number: `a` goes before `b`. Equal
      keys compare as 0, so neither goes before the other. */
  predicate Before(dir: SortDir, a: User, b: User)
  {
    if dir == Asc then StrLt(EmailKey(a), EmailKey(b)) else StrLt(EmailKey(b), EmailKey(a))
  }

  /** No later element should have gone before an earlier one. */
  ghost predicate Ordered(dir: SortDir, s: seq<User>)
  {
    forall i, j :: 0 <= i < j < |s| ==> !Before(dir, s[j], s[i])
  }

  /** Selects the users whose sort key is `k`. */
  function KeyIs(k: string): User -> bool
  {
    (u: User) => EmailKey(u) == k
  }

  /** Stability: for every key, the users carrying it appear in `r` in the
      same order as in `s`. */
  ghost predicate SameOrderPerKey(r: seq<User>, s: seq<User>)
  {
    forall k :: Filter(r, KeyIs(k)) == Filter(s, KeyIs(k))
  }

  /** `Before` never holds both ways. */
  lemma BeforeAsymmetric(dir: SortDir, a: User, b: User)
    ensures !(Before(dir, a, b) && Before(dir, b, a))
  {
    StrLtIsStrictTotalOrder(EmailKey(a), EmailKey(b), EmailKey(a));
  }

  /** "May go no later than" chains. */
  lemma NotBeforeTransitive(dir: SortDir, a: User, b: User, c: User)
    requires !Before(dir, b, a) && !Before(dir, c, b)
    ensures !Before(dir, c, a)
  {
    var ka, kb, kc := EmailKey(a), EmailKey(b), EmailKey(c);
    StrLtIsStrictTotalOrder(ka, kb, kc);
    StrLtIsStrictTotalOrder(kc, kb, ka);
    StrLtIsStrictTotalOrder(kb, kc, ka);
    StrLtIsStrictTotalOrder(ka, kc, kb);
  }

  /** Place `x` in front of the first element that does not strictly go before it. */
  function Insert(dir: SortDir, x: User, ys: seq<User>): seq<User>
  {
    if |ys| == 0 then [x]
    else if Before(dir, ys[0], x) then [ys[0]] + Insert(dir, x, ys[1..])
    else [x] + ys
  }

  /** `Insert` adds exactly `x`. */
  lemma {:induction false} InsertPermutes(dir: SortDir, x: User, ys: seq<User>)
    ensures multiset(Insert(dir, x, ys)) == multiset(ys) + multiset{x}
  {
    if |ys| > 0 && Before(dir, ys[0], x) {
      InsertPermutes(dir, x, ys[1..]);
      assert ys == [ys[0]] + ys[1..];
    }
  }

  /** `Insert` keeps an ordered sequence ordered. */
  lemma {:induction false} InsertOrdered(dir: SortDir, x: User, ys: seq<User>)
    requires Ordered(dir, ys)
    ensures Ordered(dir, Insert(dir, x, ys))
  {
    if |ys| == 0 {
    } else if Before(dir, ys[0], x) {
      var rest := Insert(dir, x, ys[1..]);
      InsertOrdered(dir, x, ys[1..]);
      InsertPermutes(dir, x, ys[1..]);
      BeforeAsymmetric(dir, ys[0], x);
      forall j | 0 <= j < |rest|
        ensures !Before(dir, rest[j], ys[0])
      {
        assert rest[j] in multiset(rest);
        if rest[j] != x {
          assert rest[j] in multiset(ys[1..]);
          var k :| 0 <= k < |ys[1..]| && ys[1..][k] == rest[j];
          assert ys[k + 1] == rest[j];
        }
      }
      assert Insert(dir, x, ys) == [ys[0]] + rest;
      OrderedCons(dir, ys[0], rest);
    } else {
      forall j | 0 <= j < |ys|
        ensures !Before(dir, ys[j], x)
      {
        if j > 0 {
          NotBeforeTransitive(dir, x, ys[0], ys[j]);
        }
      }
      OrderedCons(dir, x, ys);
    }
  }

  /** An element no later element goes before, in front of an ordered sequence. */
  lemma OrderedCons(dir: SortDir, y: User, rest: seq<User>)
    requires Ordered(dir, rest)
    requires forall j :: 0 <= j < |rest| ==> !Before(dir, rest[j], y)
    ensures Ordered(dir, [y] + rest)
  {
    var r := [y] + rest;
    forall i, j | 0 <= i < j < |r|
      ensures !Before(dir, r[j], r[i])
    {
      assert r[j] == rest[j - 1];
      if i > 0 {
        assert r[i] == rest[i - 1];
      }
    }
  }

  /** `Insert` puts `x` before every element with the same key. */
  lemma {:induction false} InsertPerKey(dir: SortDir, x: User, ys: seq<User>, k: string)
    ensures Filter(Insert(dir, x, ys), KeyIs(k)) == (if EmailKey(x) == k then [x] else []) + Filter(ys, KeyIs(k))
  {
    var p := KeyIs(k);
    if |ys| == 0 {
      FilterCons(x, [], p);
    } else if Before(dir, ys[0], x) {
      InsertPerKey(dir, x, ys[1..], k);
      if EmailKey(x) == k && EmailKey(ys[0]) == k {
        StrLtIrreflexive(k);
        assert false;
      }
      var rest := Insert(dir, x, ys[1..]);
      assert [ys[0]] + ys[1..] == ys;
      if EmailKey(x) == k {
        FilterDroppedHead(ys[0], rest, p);
        FilterDroppedHead(ys[0], ys[1..], p);
      } else {
        assert Filter(rest, p) == Filter(ys[1..], p);
        FilterSameHead(ys[0], rest, ys[1..], p);
      }
    } else {
      FilterCons(x, ys, p);
    }
  }

  /** One step of the insertion sort: inserting the head into the sorted tail. */
  lemma SortStep(dir: SortDir, s: seq<User>, t: seq<User>)
    requires |s| > 0
    requires multiset(t) == multiset(s[1..]) && Ordered(dir, t) && SameOrderPerKey(t, s[1..])
    ensures multiset(Insert(dir, s[0], t)) == multiset(s)
    ensures Ordered(dir, Insert(dir, s[0], t))
    ensures SameOrderPerKey(Insert(dir, s[0], t), s)
  {
    assert s == [s[0]] + s[1..];
    InsertPermutes(dir, s[0], t);
    InsertOrdered(dir, s[0], t);
    forall k
      ensures Filter(Insert(dir, s[0], t), KeyIs(k)) == Filter(s, KeyIs(k))
    {
      InsertPerKey(dir, s[0], t, k);
      FilterCons(s[0], s[1..], KeyIs(k));
    }
  }

  /** `[...filtered].sort(cmp)`: a permutation of the input, ordered by the
      comparator, with users of equal key left in their input order. */
  function Sort(dir: SortDir, s: seq<User>): (r: seq<User>)
    ensures multiset(r) == multiset(s)
    ensures Ordered(dir, r)
    ensures SameOrderPerKey(r, s)
  {
    if |s| == 0 then []
    else
      var t := Sort(dir, s[1..]);
      SortStep(dir, s, t);
      Insert(dir, s[0], t)
  }

  /** Sorting keeps the number of users. */
  lemma SortKeepsLength(dir: SortDir, s: seq<User>)
    ensures |Sort(dir, s)| == |s|
  {
    assert |multiset(Sort(dir, s))| == |multiset(s)|;
  }

  /** Ascending order is non-decreasing by lower-cased email and descending
      order is non-increasing. */
  lemma OrderedMeansMonotone(dir: SortDir, s: seq<User>)
    requires Ordered(dir, s)
    ensures dir == Asc ==> forall i, j :: 0 <= i < j < |s| ==> StrLe(EmailKey(s[i]), EmailKey(s[j]))
    ensures dir == Desc ==> forall i, j :: 0 <= i < j < |s| ==> StrLe(EmailKey(s[j]), EmailKey(s[i]))
  {
    forall i, j | 0 <= i < j < |s|
      ensures dir == Asc ==> StrLe(EmailKey(s[i]), EmailKey(s[j]))
      ensures dir == Desc ==> StrLe(EmailKey(s[j]), EmailKey(s[i]))
    {
      StrLtTotal(EmailKey(s[i]), EmailKey(s[j]));
    }
  }

  /** Sorting is a stable permutation: the result has the same users, is
      monotone in the lower-cased email for the chosen direction, and keeps
      users with equal keys in their input order. */
  lemma SortIsStablePermutation(dir: SortDir, s: seq<User>)
    ensures |Sort(dir, s)| == |s|
    ensures forall u :: u in Sort(dir, s) <==> u in s
    ensures dir == Asc ==> forall i, j :: 0 <= i < j < |s| ==> StrLe(EmailKey(Sort(dir, s)[i]), EmailKey(Sort(dir, s)[j]))
    ensures dir == Desc ==> forall i, j :: 0 <= i < j < |s| ==> StrLe(EmailKey(Sort(dir, s)[j]), EmailKey(Sort(dir, s)[i]))
    ensures forall k :: Filter(Sort(dir, s), KeyIs(k)) == Filter(s, KeyIs(k))
  {
    var r := Sort(dir, s);
    SortKeepsLength(dir, s);
    forall u
      ensures u in r <==> u in s
    {
      assert u in r <==> u in multiset(r);
      assert u in s <==> u in multiset(s);
    }
    OrderedMeansMonotone(dir, r);
  }
}
