/** Days-since-contact values, their order, and the stable descending sort
    `sort((a, b) => b.daysSince - a.daysSince)` of the reconnect list. */
module Ranking {
  import opened Seqs
  import opened Domain

  /** Whole days since the last contact, or Infinity for a contact never made. */
  datatype Staleness = Finite(days: nat) | Infinite

  /** `a >= b` on the JavaScript numbers the two values stand for. */
  predicate AtLeast(a: Staleness, b: Staleness)
  {
    match (a, b)
    case (Infinite, _) => true
    case (Finite(_), Infinite) => false
    case (Finite(x), Finite(y)) => x >= y
  }

  /** `daysSince >= reconnectDays`: Infinity reaches every threshold, and a
      finite count reaches one it equals. */
  predicate Reaches(s: Staleness, threshold: int)
  {
    s.Infinite? || s.days >= threshold
  }

  /** A contact together with its `daysSince`: `{ ...c, daysSince }`. */
  datatype Ranked = Ranked(contact: Contact, daysSince: Staleness)

  /** The comparator `b.daysSince - a.daysSince` does not put `b` before `a`:
      it is negative, zero, or NaN (Infinity - Infinity), which the sort
      reads as zero (section 23.1.3.30.2 of ECMA-262). */
  function StaleFirst(a: Ranked, b: Ranked): bool
  {
    AtLeast(a.daysSince, b.daysSince)
  }

  function WithStaleness(k: Staleness): Ranked -> bool
  {
    (x: Ranked) => x.daysSince == k
  }

  /** Most overdue first. */
  predicate NonIncreasing(s: seq<Ranked>)
  {
    Pairwise(s, StaleFirst)
  }

  /** Inserts `x` in front of the first element it is at least as stale as. */
  function Insert(x: Ranked, t: seq<Ranked>): seq<Ranked>
  {
    if t == [] || StaleFirst(x, t[0]) then [x] + t else [t[0]] + Insert(x, t[1..])
  }

  /** The stable sort, most overdue first (section 23.1.3.30 of ECMA-262
      requires `Array.prototype.sort` to be stable). */
  function SortByStaleness(s: seq<Ranked>): seq<Ranked>
  {
    if s == [] then [] else Insert(s[0], SortByStaleness(s[1..]))
  }

  lemma AtLeastTotal(a: Staleness, b: Staleness)
    ensures AtLeast(a, b) || AtLeast(b, a)
    ensures AtLeast(a, b) && AtLeast(b, a) ==> a == b
  {
  }

  lemma {:induction false} InsertPermutes(x: Ranked, t: seq<Ranked>)
    ensures multiset(Insert(x, t)) == multiset([x] + t)
  {
    if t != [] && !StaleFirst(x, t[0]) {
      InsertPermutes(x, t[1..]);
      assert t == [t[0]] + t[1..];
    }
  }

  lemma {:induction false} InsertSorted(x: Ranked, t: seq<Ranked>)
    requires NonIncreasing(t)
    ensures NonIncreasing(Insert(x, t))
  {
    if t == [] || StaleFirst(x, t[0]) {
      InsertFrontSorted(x, t);
    } else {
      NonIncreasingTail(t);
      InsertSorted(x, t[1..]);
      InsertPermutes(x, t[1..]);
      var rest := Insert(x, t[1..]);
      forall y | y in rest ensures StaleFirst(t[0], y) {
        assert y in multiset([x] + t[1..]);
        if y != x {
          assert y in t[1..];
          var k :| 0 <= k < |t[1..]| && t[1..][k] == y;
          assert t[k + 1] == y;
        }
      }
      PairwiseCons(t[0], rest, StaleFirst);
    }
  }

  lemma InsertFrontSorted(x: Ranked, t: seq<Ranked>)
    requires NonIncreasing(t) && (t == [] || StaleFirst(x, t[0]))
    ensures NonIncreasing([x] + t)
  {
    forall y | y in t ensures StaleFirst(x, y) {
      var k :| 0 <= k < |t| && t[k] == y;
      if k > 0 {
        assert StaleFirst(t[0], t[k]);
      }
    }
    PairwiseCons(x, t, StaleFirst);
  }

  /** Inserting into a sorted list puts `x` before every element of its own
      staleness, as if it had been at the front. */
  lemma {:induction false} InsertStable(x: Ranked, t: seq<Ranked>, k: Staleness)
    requires NonIncreasing(t)
    ensures Filter(Insert(x, t), WithStaleness(k)) == Filter([x] + t, WithStaleness(k))
  {
    if t != [] && !StaleFirst(x, t[0]) {
      assert NonIncreasing(t[1..]) by {
        forall i, j | 0 <= i < j < |t[1..]| ensures StaleFirst(t[1..][i], t[1..][j]) {
          assert t[1..][i] == t[i + 1] && t[1..][j] == t[j + 1];
        }
      }
      InsertStable(x, t[1..], k);
      FilterCons(t[0], Insert(x, t[1..]), WithStaleness(k));
      FilterCons(x, t[1..], WithStaleness(k));
      FilterCons(x, t, WithStaleness(k));
      FilterCons(t[0], t[1..], WithStaleness(k));
      assert t == [t[0]] + t[1..];
      AtLeastTotal(x.daysSince, t[0].daysSince);
    }
  }

  /** The sort orders by staleness, most overdue first. */
  lemma {:induction false} SortIsNonIncreasing(s: seq<Ranked>)
    ensures NonIncreasing(SortByStaleness(s))
  {
    if s != [] {
      SortIsNonIncreasing(s[1..]);
      InsertSorted(s[0], SortByStaleness(s[1..]));
    }
  }

  /** The sort neither adds nor drops anything. */
  lemma {:induction false} SortPermutes(s: seq<Ranked>)
    ensures multiset(SortByStaleness(s)) == multiset(s)
  {
    if s != [] {
      SortPermutes(s[1..]);
      InsertPermutes(s[0], SortByStaleness(s[1..]));
      assert s == [s[0]] + s[1..];
    }
  }

  /** The sort is stable: the elements of any one staleness come out in the
      order they went in. */
  lemma {:induction false} SortIsStable(s: seq<Ranked>, k: Staleness)
    ensures Filter(SortByStaleness(s), WithStaleness(k)) == Filter(s, WithStaleness(k))
  {
    if s != [] {
      SortIsStable(s[1..], k);
      SortIsNonIncreasing(s[1..]);
      InsertStable(s[0], SortByStaleness(s[1..]), k);
      FilterCons(s[0], SortByStaleness(s[1..]), WithStaleness(k));
      FilterCons(s[0], s[1..], WithStaleness(k));
      assert s == [s[0]] + s[1..];
    }
  }

  lemma NonIncreasingTail(s: seq<Ranked>)
    requires s != [] && NonIncreasing(s)
    ensures NonIncreasing(s[1..])
  {
    forall i, j | 0 <= i < j < |s[1..]| ensures StaleFirst(s[1..][i], s[1..][j]) {
      assert s[1..][i] == s[i + 1] && s[1..][j] == s[j + 1];
    }
  }

  /** Two orderings, most overdue first, of the same elements that agree on
      the order within every staleness are one and the same list. */
  lemma {:induction false} StableOrderIsUnique(r1: seq<Ranked>, r2: seq<Ranked>)
    requires NonIncreasing(r1) && NonIncreasing(r2)
    requires multiset(r1) == multiset(r2)
    requires forall k :: Filter(r1, WithStaleness(k)) == Filter(r2, WithStaleness(k))
    ensures r1 == r2
    decreases |r1|
  {
    if r1 != [] {
      assert r2 != [] by { assert r1[0] in multiset(r2); }
      SameHead(r1, r2);
      TailsAgree(r1, r2);
      NonIncreasingTail(r1);
      NonIncreasingTail(r2);
      MultisetTail(r1);
      MultisetTail(r2);
      StableOrderIsUnique(r1[1..], r2[1..]);
      assert r1 == [r1[0]] + r1[1..] && r2 == [r2[0]] + r2[1..];
    }
  }

  lemma MultisetTail(r: seq<Ranked>)
    requires r != []
    ensures multiset(r[1..]) == multiset(r) - multiset{r[0]}
  {
    assert r == [r[0]] + r[1..];
  }

  lemma SameHead(r1: seq<Ranked>, r2: seq<Ranked>)
    requires r1 != [] && r2 != []
    requires NonIncreasing(r1) && NonIncreasing(r2)
    requires multiset(r1) == multiset(r2)
    requires forall k :: Filter(r1, WithStaleness(k)) == Filter(r2, WithStaleness(k))
    ensures r1[0] == r2[0]
  {
    var x, y := r1[0], r2[0];
    assert y in multiset(r1);
    var j1 :| 0 <= j1 < |r1| && r1[j1] == y;
    assert AtLeast(x.daysSince, y.daysSince) by {
      if j1 > 0 { assert StaleFirst(r1[0], r1[j1]); }
    }
    assert x in multiset(r2);
    var j2 :| 0 <= j2 < |r2| && r2[j2] == x;
    assert AtLeast(y.daysSince, x.daysSince) by {
      if j2 > 0 { assert StaleFirst(r2[0], r2[j2]); }
    }
    AtLeastTotal(x.daysSince, y.daysSince);
    var f := WithStaleness(x.daysSince);
    assert Filter(r1, f) == [x] + Filter(r1[1..], f);
    assert Filter(r2, f) == [y] + Filter(r2[1..], f);
    assert Filter(r1, f)[0] == Filter(r2, f)[0];
  }

  lemma TailAgreesAt(r1: seq<Ranked>, r2: seq<Ranked>, k: Staleness)
    requires r1 != [] && r2 != [] && r1[0] == r2[0]
    requires Filter(r1, WithStaleness(k)) == Filter(r2, WithStaleness(k))
    ensures Filter(r1[1..], WithStaleness(k)) == Filter(r2[1..], WithStaleness(k))
  {
    var f := WithStaleness(k);
    var t1 := Filter(r1[1..], f);
    if f(r1[0]) {
      assert Filter(r1, f) == [r1[0]] + t1;
      assert Filter(r2, f) == [r1[0]] + Filter(r2[1..], f);
      assert t1 == Filter(r1, f)[1..];
    }
  }

  lemma TailsAgree(r1: seq<Ranked>, r2: seq<Ranked>)
    requires r1 != [] && r2 != [] && r1[0] == r2[0]
    requires forall k :: Filter(r1, WithStaleness(k)) == Filter(r2, WithStaleness(k))
    ensures forall k :: Filter(r1[1..], WithStaleness(k)) == Filter(r2[1..], WithStaleness(k))
  {
    forall k ensures Filter(r1[1..], WithStaleness(k)) == Filter(r2[1..], WithStaleness(k)) {
      TailAgreesAt(r1, r2, k);
    }
  }

  /** Every stable sort, most overdue first, gives `SortByStaleness`: it is
      the one order a stable sort with this comparator can produce. */
  lemma StableSortIsUnique(s: seq<Ranked>, r: seq<Ranked>)
    requires NonIncreasing(r) && multiset(r) == multiset(s)
    requires forall k :: Filter(r, WithStaleness(k)) == Filter(s, WithStaleness(k))
    ensures r == SortByStaleness(s)
  {
    SortIsNonIncreasing(s);
    SortPermutes(s);
    forall k ensures Filter(r, WithStaleness(k)) == Filter(SortByStaleness(s), WithStaleness(k)) {
      SortIsStable(s, k);
    }
    StableOrderIsUnique(r, SortByStaleness(s));
  }
}
