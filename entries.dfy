/**
 * The intake entry record and the two list operations every statistic is
 * built from: keeping the entries that satisfy a predicate (`Array.filter`)
 * and adding up their amounts (`reduce((acc, curr) => acc + curr.amount, 0)`).
 */
module Entries {

  /** One logged intake event: an opaque id, an amount in litres and an
      epoch-milliseconds timestamp. */
  datatype Entry = Entry(id: string, amount: real, timestamp: int)

  /** The elements of `s` that satisfy `p`, in their original order. */
  function Filter<T>(s: seq<T>, p: T -> bool): (r: seq<T>)
    ensures |r| <= |s|
    ensures forall i :: 0 <= i < |r| ==> r[i] in s && p(r[i])
    ensures forall i :: 0 <= i < |s| && p(s[i]) ==> s[i] in r
  {
    if s == [] then [] else (if p(s[0]) then [s[0]] else []) + Filter(s[1..], p)
  }

  /** Every entry of the list has a non-negative amount. */
  predicate NonNegative(es: seq<Entry>)
  {
    forall i :: 0 <= i < |es| ==> es[i].amount >= 0.0
  }

  /** The total amount of a list of entries, 0 for the empty list. */
  function Sum(es: seq<Entry>): real
  {
    if es == [] then 0.0 else es[0].amount + Sum(es[1..])
  }

  lemma {:induction false} FilterAppend<T>(a: seq<T>, b: seq<T>, p: T -> bool)
    ensures Filter(a + b, p) == Filter(a, p) + Filter(b, p)
  {
    if a == [] {
      assert a + b == b;
    } else {
      assert (a + b)[0] == a[0];
      assert (a + b)[1..] == a[1..] + b;
      FilterAppend(a[1..], b, p);
    }
  }

  /** Filtering a list extended by one element filters the prefix and then
      keeps or drops the new element. */
  lemma FilterSnoc<T>(a: seq<T>, x: T, p: T -> bool)
    ensures Filter(a + [x], p) == Filter(a, p) + (if p(x) then [x] else [])
  {
    FilterAppend(a, [x], p);
    assert Filter([x], p) == (if p(x) then [x] else []) + Filter([x][1..], p);
  }

  lemma {:induction false} SumAppend(a: seq<Entry>, b: seq<Entry>)
    ensures Sum(a + b) == Sum(a) + Sum(b)
  {
    if a == [] {
      assert a + b == b;
    } else {
      assert (a + b)[0] == a[0];
      assert (a + b)[1..] == a[1..] + b;
      SumAppend(a[1..], b);
    }
  }

  /** The total of the filtered list grows by the new entry's amount exactly
      when the new entry passes the filter. */
  lemma SumFilterSnoc(a: seq<Entry>, x: Entry, p: Entry -> bool)
    ensures Sum(Filter(a + [x], p)) == Sum(Filter(a, p)) + (if p(x) then x.amount else 0.0)
  {
    FilterSnoc(a, x, p);
    SumAppend(Filter(a, p), if p(x) then [x] else []);
    assert Sum([x]) == x.amount + Sum([x][1..]);
  }

  lemma {:induction false} FilterNonNegative(es: seq<Entry>, p: Entry -> bool)
    requires NonNegative(es)
    ensures NonNegative(Filter(es, p))
  {
    var r := Filter(es, p);
    forall i | 0 <= i < |r| ensures r[i].amount >= 0.0 {
      var j :| 0 <= j < |es| && es[j] == r[i];
    }
  }

  /** A total of non-negative amounts is non-negative. */
  lemma {:induction false} SumNonNegative(es: seq<Entry>)
    requires NonNegative(es)
    ensures Sum(es) >= 0.0
  {
    if es != [] {
      assert NonNegative(es[1..]) by {
        assert forall i :: 0 <= i < |es[1..]| ==> es[1..][i] == es[i + 1];
      }
      SumNonNegative(es[1..]);
    }
  }

  /** A filtered total over non-negative amounts is at most the whole total. */
  lemma {:induction false} SumFilterAtMost(es: seq<Entry>, p: Entry -> bool)
    requires NonNegative(es)
    ensures Sum(Filter(es, p)) <= Sum(es)
  {
    if es != [] {
      assert NonNegative(es[1..]) by {
        assert forall i :: 0 <= i < |es[1..]| ==> es[1..][i] == es[i + 1];
      }
      SumFilterAtMost(es[1..], p);
      var h := if p(es[0]) then [es[0]] else [];
      SumAppend(h, Filter(es[1..], p));
      assert Sum([es[0]]) == es[0].amount + Sum([es[0]][1..]);
    }
  }

  /** What a filtered total is at the extremes: the whole total when every
      entry passes, zero when none does, and between zero and the whole
      total when no amount is negative. */
  lemma SumFilterBounds(es: seq<Entry>, p: Entry -> bool)
    ensures (forall i :: 0 <= i < |es| ==> p(es[i])) ==> Sum(Filter(es, p)) == Sum(es)
    ensures (forall i :: 0 <= i < |es| ==> !p(es[i])) ==> Sum(Filter(es, p)) == 0.0
    ensures NonNegative(es) ==> 0.0 <= Sum(Filter(es, p)) <= Sum(es)
  {
    if forall i :: 0 <= i < |es| ==> p(es[i]) {
      FilterAllPass(es, p);
    }
    if forall i :: 0 <= i < |es| ==> !p(es[i]) {
      FilterNonePass(es, p);
    }
    if NonNegative(es) {
      FilterNonNegative(es, p);
      SumNonNegative(Filter(es, p));
      SumFilterAtMost(es, p);
    }
  }

  /** Filtering keeps a list unchanged when every element passes. */
  lemma {:induction false} FilterAllPass<T>(s: seq<T>, p: T -> bool)
    requires forall i :: 0 <= i < |s| ==> p(s[i])
    ensures Filter(s, p) == s
  {
    if s != [] {
      assert forall i :: 0 <= i < |s[1..]| ==> p(s[1..][i]) by {
        forall i | 0 <= i < |s[1..]| ensures p(s[1..][i]) { assert s[1..][i] == s[i + 1]; }
      }
      FilterAllPass(s[1..], p);
    }
  }

  /** Filtering twice by the same predicate is filtering once. */
  lemma FilterIdempotent<T>(s: seq<T>, p: T -> bool)
    ensures Filter(Filter(s, p), p) == Filter(s, p)
  {
    var r := Filter(s, p);
    FilterAllPass(r, p);
  }

  /** A list filtered by a predicate no element satisfies is empty. */
  lemma FilterNonePass<T>(s: seq<T>, p: T -> bool)
    requires forall i :: 0 <= i < |s| ==> !p(s[i])
    ensures Filter(s, p) == []
  {
    var r := Filter(s, p);
    if r != [] {
      var j :| 0 <= j < |s| && s[j] == r[0];
      assert false;
    }
  }

  /** When `u` holds exactly where one of two never-overlapping predicates
      holds, the total over `u` is the sum of the two totals. */
  lemma {:induction false} SumFilterDisjoint(es: seq<Entry>, p: Entry -> bool, q: Entry -> bool, u: Entry -> bool)
    requires forall e :: u(e) == (p(e) || q(e))
    requires forall e :: !(p(e) && q(e))
    ensures Sum(Filter(es, u)) == Sum(Filter(es, p)) + Sum(Filter(es, q))
  {
    if es != [] {
      SumFilterDisjoint(es[1..], p, q, u);
      var x := es[0];
      var hp := if p(x) then [x] else [];
      var hq := if q(x) then [x] else [];
      var hu := if u(x) then [x] else [];
      SumAppend(hu, Filter(es[1..], u));
      SumAppend(hp, Filter(es[1..], p));
      SumAppend(hq, Filter(es[1..], q));
      assert Sum([x]) == x.amount + Sum([x][1..]);
    }
  }
}
