/** Chord candidates and the stable, score-descending sort that
    `detect_top4_chords` applies to them before keeping the first four
    (Python's `list.sort(key=..., reverse=True)`, which keeps equal keys in
    their original order). */
module Ranking {

  /** A `(name, score)` pair produced by chord matching. */
  datatype Candidate = Candidate(name: string, score: real)

  /** Non-increasing order of score. */
  ghost predicate SortedDesc(s: seq<Candidate>) {
    forall i, j :: 0 <= i < j < |s| ==> s[i].score >= s[j].score
  }

  /** The candidates with score exactly `v`, in their order in `s`. */
  function WithScore(s: seq<Candidate>, v: real): (r: seq<Candidate>)
    ensures |r| <= |s|
  {
    if s == [] then []
    else (if s[0].score == v then [s[0]] else []) + WithScore(s[1..], v)
  }

  /** Places `c` after every element whose score is at least `c`'s. */
  function Insert(c: Candidate, s: seq<Candidate>): seq<Candidate> {
    if s == [] then [c]
    else if s[0].score >= c.score then [s[0]] + Insert(c, s[1..])
    else [c] + s
  }

  /** Stable sort by descending score: each element, taken in input order,
      goes behind everything already placed with a score at least as big. */
  function SortByScoreDesc(s: seq<Candidate>): seq<Candidate> {
    if s == [] then [] else Insert(s[|s| - 1], SortByScoreDesc(s[..|s| - 1]))
  }

  /** Python's `s[:n]`. */
  function Take(s: seq<Candidate>, n: nat): (r: seq<Candidate>)
    ensures |r| == if |s| < n then |s| else n
    ensures r == s[..|r|]
  {
    if |s| <= n then s else s[..n]
  }

  lemma {:induction false} InsertPermutes(c: Candidate, s: seq<Candidate>)
    ensures multiset(Insert(c, s)) == multiset(s) + multiset{c}
  {
    if s != [] && s[0].score >= c.score {
      InsertPermutes(c, s[1..]);
      assert s == [s[0]] + s[1..];
    }
  }

  lemma {:induction false} InsertSorted(c: Candidate, s: seq<Candidate>)
    requires SortedDesc(s)
    ensures SortedDesc(Insert(c, s))
  {
    if s != [] && s[0].score >= c.score {
      InsertSorted(c, s[1..]);
      InsertPermutes(c, s[1..]);
      var r := Insert(c, s[1..]);
      forall k | 0 <= k < |r| ensures s[0].score >= r[k].score {
        assert r[k] in multiset(r);
        assert r[k] in multiset(s[1..]) + multiset{c};
        if r[k] != c {
          assert r[k] in s[1..];
        }
      }
    }
  }

  lemma {:induction false} WithScoreAppend(a: seq<Candidate>, b: seq<Candidate>, v: real)
    ensures WithScore(a + b, v) == WithScore(a, v) + WithScore(b, v)
  {
    if a == [] {
      assert a + b == b;
    } else {
      var head := if a[0].score == v then [a[0]] else [];
      assert (a + b)[0] == a[0];
      assert (a + b)[1..] == a[1..] + b;
      WithScoreAppend(a[1..], b, v);
      calc {
        WithScore(a + b, v);
        head + WithScore(a[1..] + b, v);
        head + (WithScore(a[1..], v) + WithScore(b, v));
        (head + WithScore(a[1..], v)) + WithScore(b, v);
      }
    }
  }

  lemma {:induction false} WithScoreBelow(s: seq<Candidate>, v: real)
    requires SortedDesc(s)
    requires s == [] || s[0].score < v
    ensures WithScore(s, v) == []
  {
    if s != [] {
      WithScoreBelow(s[1..], v);
    }
  }

  lemma {:induction false} InsertStable(c: Candidate, s: seq<Candidate>, v: real)
    requires SortedDesc(s)
    ensures WithScore(Insert(c, s), v) == WithScore(s, v) + (if c.score == v then [c] else [])
  {
    if s == [] {
    } else if s[0].score >= c.score {
      InsertStable(c, s[1..], v);
      assert ([s[0]] + Insert(c, s[1..]))[1..] == Insert(c, s[1..]);
    } else {
      assert ([c] + s)[1..] == s;
      WithScoreBelow(s, c.score);
      if c.score == v {
        assert WithScore(s, v) == [];
      } else {
        assert WithScore([c] + s, v) == WithScore(s, v);
      }
    }
  }

  /** The sort returns a permutation of its input, in non-increasing score
      order, and keeps equally scored candidates in input order. */
  lemma {:induction false} SortByScoreDescCorrect(s: seq<Candidate>)
    ensures multiset(SortByScoreDesc(s)) == multiset(s)
    ensures SortedDesc(SortByScoreDesc(s))
    ensures forall v :: WithScore(SortByScoreDesc(s), v) == WithScore(s, v)
  {
    if s != [] {
      var init, last := s[..|s| - 1], s[|s| - 1];
      assert s == init + [last];
      SortByScoreDescCorrect(init);
      InsertPermutes(last, SortByScoreDesc(init));
      InsertSorted(last, SortByScoreDesc(init));
      forall v ensures WithScore(SortByScoreDesc(s), v) == WithScore(s, v) {
        InsertStable(last, SortByScoreDesc(init), v);
        WithScoreAppend(init, [last], v);
      }
    }
  }

  /** The first `n` of the ranking: at most `n` candidates, best first,
      drawn from the input, and none left out scores above one kept. */
  lemma TopNBest(s: seq<Candidate>, n: nat)
    ensures var top := Take(SortByScoreDesc(s), n);
            && |top| <= n
            && SortedDesc(top)
            && multiset(top) <= multiset(s)
            && forall c, k :: c in multiset(s) - multiset(top) && 0 <= k < |top| ==> c.score <= top[k].score
  {
    var sorted := SortByScoreDesc(s);
    SortByScoreDescCorrect(s);
    assert multiset(sorted) == multiset(s);
    TakeKeepsBest(sorted, n);
  }

  /** Keeping the first `n` of a sorted list keeps the best: every candidate
      left out scores no higher than any candidate kept. */
  lemma TakeKeepsBest(s: seq<Candidate>, n: nat)
    requires SortedDesc(s)
    ensures SortedDesc(Take(s, n))
    ensures multiset(Take(s, n)) <= multiset(s)
    ensures forall c, k :: c in multiset(s) - multiset(Take(s, n)) && 0 <= k < |Take(s, n)| ==>
              c.score <= Take(s, n)[k].score
  {
    var t := Take(s, n);
    var rest := s[|t|..];
    assert s == t + rest;
    assert multiset(s) - multiset(t) == multiset(rest);
    forall m, k | 0 <= m < |rest| && 0 <= k < |t|
      ensures rest[m].score <= t[k].score
    {
      assert rest[m] == s[|t| + m] && t[k] == s[k];
    }
    forall c, k | c in multiset(rest) && 0 <= k < |t|
      ensures c.score <= t[k].score
    {
      assert c in rest;
    }
  }
}
