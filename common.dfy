/** Shared building blocks: optional values, integer percent rounding, counting and
    filtering over sequences, and the day window of the search pages. */
module Common {

  /** A value that may be missing: `null`/`undefined` in the dashboard's data. */
  datatype Option<+T> = None | Some(value: T) {
    /** The `??` operator: the value, or `default` when it is missing. */
    function GetOr(default: T): T {
      match this
      case Some(v) => v
      case None => default
    }
  }

  /** `Math.round(n / total * 100)` on exact rationals: the integer nearest to
      100 * n / total, halves rounded up. */
  function RoundPct(n: int, total: int): (r: int)
    requires total > 0
    ensures 2 * total * r <= 200 * n + total < 2 * total * (r + 1)
    ensures 0 <= n <= total ==> 0 <= r <= 100
    ensures n == 0 ==> r == 0
    ensures n == total ==> r == 100
  {
    var r := (200 * n + total) / (2 * total);
    RoundPctBounds(n, total, r);
    r
  }

  /** The characterisation of the rounded value pins it down and bounds it. */
  lemma RoundPctBounds(n: int, total: int, r: int)
    requires total > 0
    requires r == (200 * n + total) / (2 * total)
    ensures 2 * total * r <= 200 * n + total < 2 * total * (r + 1)
    ensures 0 <= n <= total ==> 0 <= r <= 100
    ensures n == 0 ==> r == 0
    ensures n == total ==> r == 100
  {
    var d := 2 * total;
    var q := 200 * n + total;
    assert q == d * r + q % d;
    if 0 <= n <= total {
      if r < 0 {
        MulMonotone(d, r, -1);
        assert false;
      }
      if r > 100 {
        MulMonotone(d, 101, r);
        assert false;
      }
    }
    if n == 0 {
      if r != 0 {
        if r > 0 { MulMonotone(d, 1, r); } else { MulMonotone(d, r + 1, 0); }
        assert false;
      }
    }
    if n == total {
      if r != 100 {
        if r > 100 { MulMonotone(d, 101, r); } else { MulMonotone(d, r + 1, 100); }
        assert false;
      }
    }
  }

  lemma MulMonotone(d: int, a: int, b: int)
    requires d > 0 && a <= b
    ensures d * a <= d * b
  {
    assert d * b - d * a == d * (b - a);
  }

  /** Rounding keeps order: a larger count never shows a smaller percent. */
  lemma RoundPctMonotone(m: int, n: int, total: int)
    requires total > 0 && m <= n
    ensures RoundPct(m, total) <= RoundPct(n, total)
  {
    var a, b := RoundPct(m, total), RoundPct(n, total);
    if a > b {
      MulMonotone(2 * total, b + 1, a);
      assert false;
    }
  }

  /** Two complementary counts show percents that add up to 100, or to 101 when both
      sit exactly on a half. */
  lemma {:induction false} RoundPctComplement(n: int, total: int)
    requires 0 <= n <= total
    requires total > 0
    ensures 100 <= RoundPct(n, total) + RoundPct(total - n, total) <= 101
  {
    var a, b := RoundPct(n, total), RoundPct(total - n, total);
    var d := 2 * total;
    assert d * (a + b) <= 202 * total < d * (a + b + 2);
    if a + b > 101 {
      MulMonotone(d, 102, a + b);
      assert false;
    }
    if a + b < 100 {
      MulMonotone(d, a + b + 2, 101);
      assert false;
    }
  }

  /** How many elements of `s` satisfy `p`. */
  function Count<T>(s: seq<T>, p: T -> bool): (c: nat)
    ensures c <= |s|
  {
    if |s| == 0 then 0 else Count(s[..|s| - 1], p) + (if p(s[|s| - 1]) then 1 else 0)
  }

  lemma CountSnoc<T>(s: seq<T>, x: T, p: T -> bool)
    ensures Count(s + [x], p) == Count(s, p) + (if p(x) then 1 else 0)
  {
    assert (s + [x])[..|s|] == s;
  }

  /** A predicate and its negation split every sequence. */
  lemma {:induction false} CountComplement<T>(s: seq<T>, p: T -> bool, q: T -> bool)
    requires forall x :: q(x) <==> !p(x)
    ensures Count(s, p) + Count(s, q) == |s|
  {
    if |s| > 0 {
      CountComplement(s[..|s| - 1], p, q);
    }
  }

  /** Three predicates of which exactly one holds of each element split every sequence. */
  lemma {:induction false} CountPartition3<T>(s: seq<T>, p: T -> bool, q: T -> bool, r: T -> bool)
    requires forall x :: (p(x) || q(x) || r(x)) && !(p(x) && q(x)) && !(p(x) && r(x)) && !(q(x) && r(x))
    ensures Count(s, p) + Count(s, q) + Count(s, r) == |s|
  {
    if |s| > 0 {
      CountPartition3(s[..|s| - 1], p, q, r);
    }
  }

  /** A weaker predicate counts at least as many elements. */
  lemma {:induction false} CountMonotone<T>(s: seq<T>, p: T -> bool, q: T -> bool)
    requires forall x :: p(x) ==> q(x)
    ensures Count(s, p) <= Count(s, q)
  {
    if |s| > 0 {
      CountMonotone(s[..|s| - 1], p, q);
    }
  }

  /** `Array.prototype.filter`: the elements of `s` that satisfy `p`, in order. */
  function Filter<T>(s: seq<T>, p: T -> bool): (r: seq<T>)
    ensures |r| <= |s|
    ensures forall i :: 0 <= i < |r| ==> r[i] in s && p(r[i])
    ensures forall i :: 0 <= i < |s| && p(s[i]) ==> s[i] in r
    ensures |r| == Count(s, p)
  {
    if |s| == 0 then []
    else
      var rest := Filter(s[..|s| - 1], p);
      if p(s[|s| - 1]) then rest + [s[|s| - 1]] else rest
  }

  /** Each element passing `p` is kept as many times as it occurs; no other is kept. */
  lemma {:induction false} FilterMultiplicity<T>(s: seq<T>, p: T -> bool)
    ensures forall x :: multiset(Filter(s, p))[x] == if p(x) then multiset(s)[x] else 0
  {
    if |s| > 0 {
      var init := s[..|s| - 1];
      FilterMultiplicity(init, p);
      assert s == init + [s[|s| - 1]];
    }
  }

  /** `sub` is `s` with some elements dropped and the rest left in order. */
  ghost predicate IsSubsequence<T>(sub: seq<T>, s: seq<T>) {
    exists idx: seq<nat> ::
      |idx| == |sub|
      && (forall k :: 0 <= k < |idx| ==> idx[k] < |s| && sub[k] == s[idx[k]])
      && (forall k, l :: 0 <= k < l < |idx| ==> idx[k] < idx[l])
  }

  lemma {:induction false} FilterIsSubsequence<T>(s: seq<T>, p: T -> bool)
    ensures IsSubsequence(Filter(s, p), s)
  {
    var idx := FilterIndices(s, p);
  }

  /** The positions in `s` that `Filter(s, p)` keeps, as a witness of `IsSubsequence`. */
  lemma {:induction false} FilterIndices<T>(s: seq<T>, p: T -> bool) returns (idx: seq<nat>)
    ensures |idx| == |Filter(s, p)|
    ensures forall k :: 0 <= k < |idx| ==> idx[k] < |s| && Filter(s, p)[k] == s[idx[k]]
    ensures forall k, l :: 0 <= k < l < |idx| ==> idx[k] < idx[l]
  {
    if |s| == 0 {
      idx := [];
    } else {
      var init := s[..|s| - 1];
      idx := FilterIndices(init, p);
      var rest := Filter(init, p);
      if p(s[|s| - 1]) {
        idx := idx + [|s| - 1];
        var r := rest + [s[|s| - 1]];
        forall k | 0 <= k < |idx|
          ensures idx[k] < |s| && r[k] == s[idx[k]]
        {
          if k < |rest| {
            assert r[k] == rest[k] && s[idx[k]] == init[idx[k]];
          }
        }
      } else {
        forall k | 0 <= k < |idx|
          ensures idx[k] < |s| && rest[k] == s[idx[k]]
        {
          assert s[idx[k]] == init[idx[k]];
        }
      }
    }
  }

  /** Filtering a second time with the same predicate changes nothing. */
  lemma {:induction false} FilterIdempotent<T>(s: seq<T>, p: T -> bool)
    ensures Filter(Filter(s, p), p) == Filter(s, p)
  {
    if |s| > 0 {
      var init := s[..|s| - 1];
      FilterIdempotent(init, p);
      var rest := Filter(init, p);
      if p(s[|s| - 1]) {
        var r := rest + [s[|s| - 1]];
        assert r[..|r| - 1] == rest;
      }
    }
  }

  /** A sequence without repeated elements. */
  predicate NoDup<T(==)>(s: seq<T>) {
    forall i, j :: 0 <= i < j < |s| ==> s[i] != s[j]
  }

  lemma {:induction false} NoDupCard<T>(s: seq<T>)
    requires NoDup(s)
    ensures |set x | x in s| == |s|
  {
    if |s| > 0 {
      var init := s[..|s| - 1];
      NoDupCard(init);
      assert (set x | x in s) == (set x | x in init) + {s[|s| - 1]};
      assert s[|s| - 1] !in init;
    }
  }

  /** Filtering a sequence without repetitions leaves one without repetitions. */
  lemma {:induction false} FilterNoDup<T>(s: seq<T>, p: T -> bool)
    requires NoDup(s)
    ensures NoDup(Filter(s, p))
  {
    if |s| > 0 {
      var init := s[..|s| - 1];
      assert NoDup(init) by {
        forall i, j | 0 <= i < j < |init| ensures init[i] != init[j] {
          assert init[i] == s[i] && init[j] == s[j];
        }
      }
      FilterNoDup(init, p);
      var rest := Filter(init, p);
      var last := s[|s| - 1];
      if p(last) {
        assert last !in init by {
          forall i | 0 <= i < |init| ensures init[i] != last {
            assert init[i] == s[i];
          }
        }
        var r := rest + [last];
        forall i, j | 0 <= i < j < |r| ensures r[i] != r[j] {
          if j == |r| - 1 {
            assert r[i] == rest[i] && rest[i] in init;
          } else {
            assert r[i] == rest[i] && r[j] == rest[j];
          }
        }
      }
    }
  }

  /** Filtering with a predicate every element satisfies changes nothing. */
  lemma {:induction false} FilterAll<T>(s: seq<T>, p: T -> bool)
    requires forall i :: 0 <= i < |s| ==> p(s[i])
    ensures Filter(s, p) == s
  {
    if |s| > 0 {
      var init := s[..|s| - 1];
      FilterAll(init, p);
      assert init + [s[|s| - 1]] == s;
    }
  }

  /** Iteration order of a JavaScript `Map` after `set(k, ...)`: a key already present
      keeps its place, a new key goes last. */
  function InsertionOrder<K(==)>(order: seq<K>, k: K): (r: seq<K>)
    ensures k in r
    ensures forall i :: 0 <= i < |order| ==> order[i] in r
    ensures forall i :: 0 <= i < |r| ==> r[i] in order || r[i] == k
    ensures NoDup(order) ==> NoDup(r)
    ensures k in order ==> r == order
    ensures k !in order ==> r == order + [k]
  {
    if k in order then order else order + [k]
  }

  /** Milliseconds in a day. */
  const DAY_MS: int := 24 * 3600 * 1000

  /** How many days ahead a "next match" window reaches: "today" 0, "j1" 1, "j2" 2,
      anything else 3. */
  function WindowOffset(window: string): (d: nat)
    ensures d <= 3
    ensures d == 0 <==> window == "today"
    ensures d == 3 <==> window !in {"today", "j1", "j2"}
    ensures window == "j1" ==> d == 1
    ensures window == "j2" ==> d == 2
  {
    if window == "today" then 0 else if window == "j1" then 1 else if window == "j2" then 2 else 3
  }

  /** A kickoff is in the window when it falls in
      [startOfDay(now), startOfDay(now + (offset + 1) days)). `startOfDay` (local
      midnight) and `now` are parameters; a missing or unreadable date is never in it. */
  predicate InWindow(target: Option<int>, window: string, now: int, startOfDay: int -> int) {
    && target.Some?
    && startOfDay(now) <= target.value
    && target.value < startOfDay(now + (WindowOffset(window) + 1) * DAY_MS)
  }
}
