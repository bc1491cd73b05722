/** Leaderboard order (backend/routes/test.js, the leaderboard route): attempts
    sorted by score descending, then time taken ascending, with
    `Array.prototype.sort`, which is stable (ECMA-262 10th edition, section
    22.1.3.27). `Rank` is a stable insertion sort; `SortedTieEqual` shows that a
    sorted, tie-order-preserving arrangement is unique, so `Rank` is the result
    of any stable sort with this comparator. */
module Ranking {
  import opened Common
  import opened Scoring

  /** The route's comparator: negative when `a` goes before `b`. */
  function Compare(a: Attempt, b: Attempt): int {
    if b.score != a.score then b.score - a.score else a.timeTaken - b.timeTaken
  }

  /** The comparator orders attempts lexicographically by higher score, then
      shorter time; it is zero exactly on full ties. */
  lemma CompareMeaning(a: Attempt, b: Attempt)
    ensures Compare(a, b) < 0 <==> a.score > b.score || (a.score == b.score && a.timeTaken < b.timeTaken)
    ensures Compare(a, b) == 0 <==> Tied(a, b)
    ensures Compare(a, b) == -Compare(b, a)
  {
  }

  predicate Tied(a: Attempt, b: Attempt) {
    a.score == b.score && a.timeTaken == b.timeTaken
  }

  predicate Sorted(s: seq<Attempt>) {
    forall i, j :: 0 <= i < j < |s| ==> Compare(s[i], s[j]) <= 0
  }

  /** Insert `x` into `ys` after every attempt that ranks strictly above it and
      before the first one that does not, so `x` precedes the attempts it ties
      with. */
  function Insert(x: Attempt, ys: seq<Attempt>): seq<Attempt> {
    if ys == [] || Compare(ys[0], x) >= 0 then [x] + ys
    else [ys[0]] + Insert(x, ys[1..])
  }

  /** The leaderboard order of an attempt log. */
  function Rank(s: seq<Attempt>): seq<Attempt> {
    if s == [] then [] else Insert(s[0], Rank(s[1..]))
  }

  /** The attempts of `s` with the given score and time, in their order in `s`. */
  function TiesOf(s: seq<Attempt>, score: int, time: int): seq<Attempt> {
    if s == [] then []
    else if s[0].score == score && s[0].timeTaken == time then [s[0]] + TiesOf(s[1..], score, time)
    else TiesOf(s[1..], score, time)
  }

  ghost predicate SameTies(r: seq<Attempt>, s: seq<Attempt>) {
    forall score, time :: TiesOf(r, score, time) == TiesOf(s, score, time)
  }

  lemma {:induction false} InsertPermutation(x: Attempt, ys: seq<Attempt>)
    ensures multiset(Insert(x, ys)) == multiset([x] + ys)
  {
    if !(ys == [] || Compare(ys[0], x) >= 0) {
      InsertPermutation(x, ys[1..]);
      assert ys == [ys[0]] + ys[1..];
    }
  }

  /** The leaderboard holds exactly the stored attempts. */
  lemma {:induction false} RankPermutation(s: seq<Attempt>)
    ensures multiset(Rank(s)) == multiset(s)
  {
    if s != [] {
      RankPermutation(s[1..]);
      InsertPermutation(s[0], Rank(s[1..]));
      assert s == [s[0]] + s[1..];
    }
  }

  lemma {:induction false} InsertSorted(x: Attempt, ys: seq<Attempt>)
    requires Sorted(ys)
    ensures Sorted(Insert(x, ys))
  {
    if !(ys == [] || Compare(ys[0], x) >= 0) {
      InsertSorted(x, ys[1..]);
      InsertPermutation(x, ys[1..]);
      var r := Insert(x, ys[1..]);
      forall k | 0 <= k < |r| ensures Compare(ys[0], r[k]) <= 0 {
        assert r[k] in multiset(r);
        assert r[k] == x || r[k] in ys[1..];
      }
    }
  }

  /** The leaderboard is ordered by score descending, then time ascending. */
  lemma {:induction false} RankSorted(s: seq<Attempt>)
    ensures Sorted(Rank(s))
  {
    if s != [] {
      RankSorted(s[1..]);
      InsertSorted(s[0], Rank(s[1..]));
    }
  }

  lemma {:induction false} InsertTies(x: Attempt, ys: seq<Attempt>, score: int, time: int)
    ensures TiesOf(Insert(x, ys), score, time)
         == if x.score == score && x.timeTaken == time then [x] + TiesOf(ys, score, time) else TiesOf(ys, score, time)
  {
    if ys == [] || Compare(ys[0], x) >= 0 {
      assert ([x] + ys)[1..] == ys;
    } else {
      InsertTies(x, ys[1..], score, time);
      assert ([ys[0]] + Insert(x, ys[1..]))[1..] == Insert(x, ys[1..]);
    }
  }

  /** Stability: attempts that tie on both score and time keep their order of
      submission. */
  lemma {:induction false} RankStable(s: seq<Attempt>)
    ensures SameTies(Rank(s), s)
  {
    if s != [] {
      RankStable(s[1..]);
      forall score, time ensures TiesOf(Rank(s), score, time) == TiesOf(s, score, time) {
        InsertTies(s[0], Rank(s[1..]), score, time);
      }
    }
  }

  lemma {:induction false} TiesMember(s: seq<Attempt>, score: int, time: int, e: Attempt)
    requires e in TiesOf(s, score, time)
    ensures e in s && e.score == score && e.timeTaken == time
  {
    if s != [] && !(s[0].score == score && s[0].timeTaken == time && e == s[0]) {
      TiesMember(s[1..], score, time, e);
    }
  }

  lemma HeadTies(s: seq<Attempt>)
    ensures s != [] ==> TiesOf(s, s[0].score, s[0].timeTaken) != []
  {
  }

  lemma HeadRanksFirst(s: seq<Attempt>, e: Attempt)
    requires Sorted(s) && e in s
    ensures Compare(s[0], e) <= 0
  {
    var i :| 0 <= i < |s| && s[i] == e;
  }

  /** Two sorted sequences that agree on the order of every group of tied
      attempts are equal: a stable sort has exactly one possible result. */
  lemma {:induction false} SortedTieEqual(r1: seq<Attempt>, r2: seq<Attempt>)
    requires Sorted(r1) && Sorted(r2) && SameTies(r1, r2)
    ensures r1 == r2
  {
    if r1 == [] {
      if r2 != [] {
        HeadTies(r2);
        assert false;
      }
    } else {
      var a := r1[0];
      assert TiesOf(r1, a.score, a.timeTaken) == [a] + TiesOf(r1[1..], a.score, a.timeTaken);
      assert a in TiesOf(r2, a.score, a.timeTaken);
      TiesMember(r2, a.score, a.timeTaken, a);
      var b := r2[0];
      assert TiesOf(r2, b.score, b.timeTaken) == [b] + TiesOf(r2[1..], b.score, b.timeTaken);
      assert b in TiesOf(r1, b.score, b.timeTaken);
      TiesMember(r1, b.score, b.timeTaken, b);
      HeadRanksFirst(r2, a);
      HeadRanksFirst(r1, b);
      assert Tied(a, b);
      assert TiesOf(r2, a.score, a.timeTaken) == [b] + TiesOf(r2[1..], a.score, a.timeTaken);
      assert TiesOf(r1, a.score, a.timeTaken) == TiesOf(r2, a.score, a.timeTaken);
      assert TiesOf(r1, a.score, a.timeTaken)[0] == a;
      assert a == b;
      forall score, time ensures TiesOf(r1[1..], score, time) == TiesOf(r2[1..], score, time) {
        var t1, t2 := TiesOf(r1, score, time), TiesOf(r2, score, time);
        assert t1 == t2;
        if a.score == score && a.timeTaken == time {
          assert t1[1..] == TiesOf(r1[1..], score, time);
          assert t2[1..] == TiesOf(r2[1..], score, time);
        }
      }
      SortedTieEqual(r1[1..], r2[1..]);
      assert r1 == [a] + r1[1..] && r2 == [b] + r2[1..];
    }
  }

  /** Any stable sort of the log with the route's comparator yields `Rank`. */
  lemma StableSortIsRank(s: seq<Attempt>, r: seq<Attempt>)
    requires Sorted(r) && SameTies(r, s)
    ensures r == Rank(s)
  {
    RankSorted(s);
    RankStable(s);
    SortedTieEqual(r, Rank(s));
  }

  /** Ranking an already ranked leaderboard changes nothing, so two reads with
      no submission in between show the same order. */
  lemma RankIdempotent(s: seq<Attempt>)
    ensures Rank(Rank(s)) == Rank(s)
  {
    RankSorted(s);
    StableSortIsRank(Rank(s), Rank(s));
  }

  /** If the first `m` attempts of `ys` rank strictly above `x` and the next
      does not, `Insert` puts `x` at position `m`. */
  lemma {:induction false} InsertAt(x: Attempt, ys: seq<Attempt>, m: nat)
    requires m <= |ys|
    requires forall t :: 0 <= t < m ==> Compare(ys[t], x) < 0
    requires m == |ys| || Compare(ys[m], x) >= 0
    ensures Insert(x, ys) == ys[..m] + [x] + ys[m..]
  {
    if m > 0 {
      InsertAt(x, ys[1..], m - 1);
      assert ys[..m] == [ys[0]] + ys[1..][..m - 1];
      assert ys[m..] == ys[1..][m - 1..];
    }
  }

  /** One step of the in-place sort: moves `a[i]` right past the attempts of
      the ranked suffix `a[i + 1..]` that rank strictly above it. */
  method InsertStep(a: array<Attempt>, i: nat)
    requires i < a.Length
    modifies a
    ensures a[..i] == old(a[..i])
    ensures a[i..] == Insert(old(a[i]), old(a[i + 1..]))
  {
    var n := a.Length;
    var x := a[i];
    ghost var tail := a[i + 1..];
    var j := i;
    while j + 1 < n && Compare(a[j + 1], x) < 0
      invariant i <= j < n
      invariant forall t :: 0 <= t < i ==> a[t] == old(a[t])
      invariant forall t :: i <= t < j ==> a[t] == tail[t - i]
      invariant forall t :: j < t < n ==> a[t] == tail[t - i - 1]
      invariant forall t :: 0 <= t < j - i ==> Compare(tail[t], x) < 0
    {
      a[j] := a[j + 1];
      j := j + 1;
    }
    a[j] := x;
    InsertAt(x, tail, j - i);
    ghost var inserted := tail[..j - i] + [x] + tail[j - i..];
    assert forall t :: 0 <= t < n - i ==> a[i..][t] == inserted[t];
  }

  /** The in-place `attempts.sort(...)` of the leaderboard route. It inserts
      each attempt, from the last to the first, into the already ranked suffix
      after it. */
  method SortInPlace(a: array<Attempt>)
    modifies a
    ensures a[..] == Rank(old(a[..]))
  {
    ghost var s := a[..];
    var i := a.Length;
    while i > 0
      invariant 0 <= i <= a.Length
      invariant a[..i] == s[..i]
      invariant a[i..] == Rank(s[i..])
    {
      i := i - 1;
      assert s[i..] == [s[i]] + s[i + 1..];
      assert a[i] == s[i];
      InsertStep(a, i);
    }
  }

  /** A higher score ranks first whatever the times; on equal scores the
      shorter time ranks first. */
  lemma RankExamples(u: UserId)
    ensures var slow8 := Attempt(u, "B", 8, 90, "");
            var fast8 := Attempt(u, "B", 8, 45, "");
            var fast7 := Attempt(u, "A", 7, 10, "");
            Rank([fast7, slow8, fast8]) == [fast8, slow8, fast7]
  {
    var slow8 := Attempt(u, "B", 8, 90, "");
    var fast8 := Attempt(u, "B", 8, 45, "");
    var fast7 := Attempt(u, "A", 7, 10, "");
    assert Rank([fast8]) == [fast8];
    assert Rank([slow8, fast8]) == Insert(slow8, [fast8]) == [fast8, slow8];
    assert Insert(fast7, [slow8]) == [slow8, fast7];
    assert Rank([fast7, slow8, fast8]) == Insert(fast7, [fast8, slow8]) == [fast8, slow8, fast7];
  }
}
