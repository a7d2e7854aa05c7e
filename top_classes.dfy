/** getTopClasses: the three best-scoring labels of a classifier output.

    The source pairs every score with its index, sorts the pairs ascending
    by score with a comparator that returns 0 for equal scores (the sort is
    stable), reverses the array and reads its first three entries.  Scores
    are exact reals: the float32 rounding of the buffer and NaN scores are
    not modelled.

    Ranking is an independent reference for the array after the reversal:
    a functional insertion sort into the order Precedes (higher score first,
    and among equal scores the later index first).  RankedUnique shows that
    a sequence sorted by Precedes is determined by its multiset, which is
    how the in-place sort-then-reverse is proved equal to Ranking.
 */
module TopClasses {
  import opened Wrappers

  /** One [prob, index] pair. */
  datatype Entry = Entry(prob: real, index: nat)

  /** One result: labels[index] (None when that is undefined) and the score
      (the source turns it into a percentage text, which is not modelled). */
  datatype Class = Class(labelText: Option<string>, prob: real)

  /** sorted[position] is undefined, so reading sorted[position][0] throws
      a TypeError. */
  datatype RankError = UndefinedEntry(position: nat)

  /** Every score paired with its position in the buffer. */
  function Pairs(buffer: seq<real>): (s: seq<Entry>)
    ensures |s| == |buffer|
    ensures forall i :: 0 <= i < |s| ==> s[i].index == i && s[i].prob == buffer[i]
  {
    seq(|buffer|, i requires 0 <= i < |buffer| => Entry(buffer[i], i))
  }

  /** The comparator handed to sort: 0 for equal scores, else -1 or 1. */
  function Compare(a: Entry, b: Entry): (r: int)
    ensures -1 <= r <= 1
    ensures r == 0 <==> a.prob == b.prob
    ensures r < 0 <==> a.prob < b.prob
  {
    if a.prob == b.prob then 0 else if a.prob < b.prob then -1 else 1
  }

  /** a may stand before b in the final order: a higher score, or an equal
      score and an index at least as late. */
  predicate Precedes(a: Entry, b: Entry)
  {
    a.prob > b.prob || (a.prob == b.prob && a.index >= b.index)
  }

  /** Sorted by score ascending, equal scores by index ascending. */
  predicate Ascending(s: seq<Entry>)
  {
    forall i, j :: 0 <= i < j < |s| ==> Precedes(s[j], s[i])
  }

  /** Sorted by score descending, equal scores by index descending. */
  predicate Ranked(s: seq<Entry>)
  {
    forall i, j :: 0 <= i < j < |s| ==> Precedes(s[i], s[j])
  }

  /** Precedes is a total order on entries. */
  lemma PrecedesTotalOrder(a: Entry, b: Entry, c: Entry)
    ensures Precedes(a, a)
    ensures Precedes(a, b) || Precedes(b, a)
    ensures Precedes(a, b) && Precedes(b, a) ==> a == b
    ensures Precedes(a, b) && Precedes(b, c) ==> Precedes(a, c)
  {
  }

  /** Inserts e into a ranked sequence, before the first entry it precedes. */
  function Insert(e: Entry, s: seq<Entry>): (r: seq<Entry>)
    ensures |r| == |s| + 1
  {
    if s == [] then [e]
    else if Precedes(e, s[0]) then [e] + s
    else
      assert s == [s[0]] + s[1..];
      [s[0]] + Insert(e, s[1..])
  }

  /** Insert adds exactly e. */
  lemma {:induction false} InsertMultiset(e: Entry, s: seq<Entry>)
    ensures multiset(Insert(e, s)) == multiset(s) + multiset{e}
  {
    if s != [] && !Precedes(e, s[0]) {
      InsertMultiset(e, s[1..]);
      assert s == [s[0]] + s[1..];
    }
  }

  lemma {:induction false} InsertRanked(e: Entry, s: seq<Entry>)
    requires Ranked(s)
    ensures Ranked(Insert(e, s))
  {
    if s != [] && !Precedes(e, s[0]) {
      InsertRanked(e, s[1..]);
      InsertMultiset(e, s[1..]);
      var r := Insert(e, s[1..]);
      forall x | x in r
        ensures Precedes(s[0], x)
      {
        assert x in multiset(r);
        assert x == e || x in multiset(s[1..]);
      }
    }
  }

  /** Functional insertion sort into the order Precedes. */
  function SortRanked(s: seq<Entry>): (r: seq<Entry>)
    ensures |r| == |s|
  {
    if s == [] then [] else Insert(s[0], SortRanked(s[1..]))
  }

  /** SortRanked keeps the entries of s. */
  lemma {:induction false} SortRankedMultiset(s: seq<Entry>)
    ensures multiset(SortRanked(s)) == multiset(s)
  {
    if s != [] {
      SortRankedMultiset(s[1..]);
      InsertMultiset(s[0], SortRanked(s[1..]));
      assert s == [s[0]] + s[1..];
    }
  }

  lemma {:induction false} SortRankedRanked(s: seq<Entry>)
    ensures Ranked(SortRanked(s))
  {
    if s != [] {
      SortRankedRanked(s[1..]);
      InsertRanked(s[0], SortRanked(s[1..]));
    }
  }

  /** The reference result of sorting and reversing the pairs of buffer. */
  function Ranking(buffer: seq<real>): (r: seq<Entry>)
    ensures |r| == |buffer|
    ensures multiset(r) == multiset(Pairs(buffer))
    ensures Ranked(r)
  {
    SortRankedRanked(Pairs(buffer));
    SortRankedMultiset(Pairs(buffer));
    SortRanked(Pairs(buffer))
  }

  /** Two non-empty sequences sorted by a total order and holding the same
      entries start with the same entry. */
  lemma RankedHeads(s: seq<Entry>, t: seq<Entry>)
    requires Ranked(s) && Ranked(t)
    requires multiset(s) == multiset(t)
    requires |s| > 0
    ensures |t| > 0 && s[0] == t[0]
  {
    assert s[0] in multiset(t);
    assert |t| > 0 && t[0] in multiset(s);
    var i :| 0 <= i < |t| && t[i] == s[0];
    var j :| 0 <= j < |s| && s[j] == t[0];
    assert Precedes(t[0], s[0]) by {
      if j > 0 {
        assert Precedes(s[0], s[j]);
      }
    }
    assert Precedes(s[0], t[0]) by {
      if i > 0 {
        assert Precedes(t[0], t[i]);
      }
    }
    PrecedesTotalOrder(s[0], t[0], s[0]);
  }

  /** Two sequences sorted by a total order and holding the same entries are
      equal. */
  lemma {:induction false} RankedUnique(s: seq<Entry>, t: seq<Entry>)
    requires Ranked(s) && Ranked(t)
    requires multiset(s) == multiset(t)
    ensures s == t
  {
    if s == [] {
      assert |t| == |multiset(t)| == 0;
    } else {
      RankedHeads(s, t);
      assert s == [s[0]] + s[1..] && t == [t[0]] + t[1..];
      assert multiset(s[1..]) == multiset(s) - multiset{s[0]};
      assert multiset(t[1..]) == multiset(t) - multiset{t[0]};
      RankedUnique(s[1..], t[1..]);
    }
  }

  // ---------------------------------------------------------------------
  // The in-place steps.

  method Swap(a: array<Entry>, i: nat, j: nat)
    requires i < a.Length && j < a.Length
    modifies a
    ensures a[..] == old(a[..])[i := old(a[j])][j := old(a[i])]
    ensures multiset(a[..]) == old(multiset(a[..]))
  {
    a[i], a[j] := a[j], a[i];
  }

  /** The state of one insertion round: a[j] is the entry being moved left
      over a[..k+1]; the other entries of a[..k+1] are ascending, those right
      of j score strictly higher, a[j] has the latest index of a[..k+1], and
      every index of a[..k+1] is below every index after it. */
  ghost predicate Inserting(s: seq<Entry>, j: nat, k: nat)
  {
    && j <= k < |s|
    && (forall p, q :: 0 <= p < q <= k && p != j && q != j ==> Precedes(s[q], s[p]))
    && (forall q :: j < q <= k ==> s[j].prob < s[q].prob)
    && (forall p :: 0 <= p <= k && p != j ==> s[p].index < s[j].index)
    && (forall p, q :: 0 <= p <= k < q < |s| ==> s[p].index < s[q].index)
  }

  /** A round starts with a[k] as the entry to move. */
  lemma InsertingStart(s: seq<Entry>, k: nat)
    requires k < |s|
    requires Ascending(s[..k])
    requires forall p, q :: 0 <= p < k <= q < |s| ==> s[p].index < s[q].index
    requires forall p, q :: k <= p < q < |s| ==> s[p].index < s[q].index
    ensures Inserting(s, k, k)
  {
  }

  /** Swapping a[j] with a left neighbour the comparator puts after it keeps
      the round's state, one place further left. */
  lemma InsertingStep(s: seq<Entry>, j: nat, k: nat)
    requires Inserting(s, j, k)
    requires 0 < j && Compare(s[j - 1], s[j]) > 0
    ensures Inserting(s[j - 1 := s[j]][j := s[j - 1]], j - 1, k)
  {
  }

  /** When the comparator no longer moves a[j], a[..k+1] is ascending. */
  lemma InsertingDone(s: seq<Entry>, j: nat, k: nat)
    requires Inserting(s, j, k)
    requires j == 0 || Compare(s[j - 1], s[j]) <= 0
    ensures Ascending(s[..k + 1])
    ensures forall p, q :: 0 <= p <= k < q < |s| ==> s[p].index < s[q].index
  {
  }

  /** One round of the insertion sort: moves a[k] left past every entry
      the comparator puts strictly after it, so that a[..k+1] is ascending. */
  method InsertLeft(a: array<Entry>, k: nat)
    requires k < a.Length
    requires Ascending(a[..k])
    requires forall p, q :: 0 <= p < k <= q < a.Length ==> a[p].index < a[q].index
    requires forall p, q :: k <= p < q < a.Length ==> a[p].index < a[q].index
    modifies a
    ensures Ascending(a[..k + 1])
    ensures forall p, q :: 0 <= p <= k < q < a.Length ==> a[p].index < a[q].index
    ensures a[k + 1..] == old(a[k + 1..])
    ensures multiset(a[..]) == old(multiset(a[..]))
  {
    var j: nat := k;
    InsertingStart(a[..], k);
    while j > 0 && Compare(a[j - 1], a[j]) > 0
      invariant Inserting(a[..], j, k)
      invariant a[k + 1..] == old(a[k + 1..])
      invariant multiset(a[..]) == old(multiset(a[..]))
    {
      ghost var before := a[..];
      InsertingStep(before, j, k);
      Swap(a, j - 1, j);
      assert a[..] == before[j - 1 := before[j]][j := before[j - 1]];
      j := j - 1;
    }
    InsertingDone(a[..], j, k);
  }

  /** The in-place sort of the pairs by the comparator: a stable sort by
      score, here an insertion sort.  On entries listed in index order, a
      stable sort yields the order by score with ties in index order. */
  method SortByScore(a: array<Entry>)
    requires forall p, q :: 0 <= p < q < a.Length ==> a[p].index < a[q].index
    modifies a
    ensures Ascending(a[..])
    ensures multiset(a[..]) == old(multiset(a[..]))
  {
    var k := 0;
    while k < a.Length
      invariant 0 <= k <= a.Length
      invariant Ascending(a[..k])
      invariant forall p, q :: 0 <= p < k <= q < a.Length ==> a[p].index < a[q].index
      invariant forall p, q :: k <= p < q < a.Length ==> a[p].index < a[q].index
      invariant multiset(a[..]) == old(multiset(a[..]))
    {
      InsertLeft(a, k);
      assert forall p :: k + 1 <= p < a.Length ==> a[p] == a[k + 1..][p - (k + 1)];
      k := k + 1;
    }
    assert a[..a.Length] == a[..];
  }

  /** s back to front. */
  function Reversed(s: seq<Entry>): (r: seq<Entry>)
    ensures |r| == |s|
  {
    seq(|s|, i requires 0 <= i < |s| => s[|s| - 1 - i])
  }

  lemma {:induction false} ReversedMultiset(s: seq<Entry>)
    ensures multiset(Reversed(s)) == multiset(s)
  {
    if s != [] {
      var n := |s|;
      assert Reversed(s) == [s[n - 1]] + Reversed(s[..n - 1]);
      ReversedMultiset(s[..n - 1]);
      assert s == s[..n - 1] + [s[n - 1]];
    }
  }

  /** Reversing an ascending sequence ranks it. */
  lemma AscendingReversed(s: seq<Entry>)
    requires Ascending(s)
    ensures Ranked(Reversed(s))
  {
  }

  /** Reverses the sorted array in place. */
  method Reverse(a: array<Entry>)
    modifies a
    ensures a[..] == Reversed(old(a[..]))
  {
    var n := a.Length;
    var i := 0;
    while i < n / 2
      invariant 0 <= i <= n / 2
      invariant forall p :: 0 <= p < i ==> a[p] == old(a[n - 1 - p]) && a[n - 1 - p] == old(a[p])
      invariant forall p :: i <= p < n - i ==> a[p] == old(a[p])
    {
      a[i], a[n - 1 - i] := a[n - 1 - i], a[i];
      i := i + 1;
    }
  }

  /** The result for one ranked entry: labels[index] and its score. */
  function ClassOf(e: Entry, labels: seq<string>): Class
  {
    Class(if e.index < |labels| then Some(labels[e.index]) else None, e.prob)
  }

  /** The classes of the first three entries of a ranking. */
  function TopThree(ranking: seq<Entry>, labels: seq<string>): (r: seq<Class>)
    requires |ranking| >= 3
    ensures |r| == 3
  {
    seq(3, i requires 0 <= i < 3 => ClassOf(ranking[i], labels))
  }

  /** The pairs of buffer, sorted ascending by score and then reversed:
      the array `sorted` of the source. */
  method SortedPairs(buffer: seq<real>) returns (sorted: array<Entry>)
    ensures fresh(sorted)
    ensures sorted[..] == Ranking(buffer)
  {
    sorted := new Entry[|buffer|](i requires 0 <= i < |buffer| => Entry(buffer[i], i));
    assert sorted[..] == Pairs(buffer);
    SortByScore(sorted);
    ghost var ascending := sorted[..];
    Reverse(sorted);
    ReversedMultiset(ascending);
    AscendingReversed(ascending);
    RankedUnique(sorted[..], Ranking(buffer));
  }

  /** getTopClasses(buffer, labels) */
  method GetTopClasses(buffer: seq<real>, labels: seq<string>) returns (r: Result<seq<Class>, RankError>)
    ensures |buffer| < 3 ==> r == Failure(UndefinedEntry(|buffer|))
    ensures |buffer| >= 3 ==> r == Success(TopThree(Ranking(buffer), labels))
  {
    var sorted := SortedPairs(buffer);
    ghost var ranking := Ranking(buffer);
    var classes: seq<Class> := [];
    for i := 0 to 3
      invariant i <= sorted.Length
      invariant |classes| == i
      invariant forall k :: 0 <= k < i ==> classes[k] == ClassOf(ranking[k], labels)
    {
      if i >= sorted.Length {
        return Failure(UndefinedEntry(i));
      }
      classes := classes + [ClassOf(sorted[i], labels)];
    }
    assert classes == TopThree(ranking, labels);
    return Success(classes);
  }

  // ---------------------------------------------------------------------
  // What getTopClasses promises.

  /** An entry occurring at two positions occurs at least twice. */
  lemma {:induction false} RepeatedCount(s: seq<Entry>, i: nat, j: nat)
    requires i < j < |s| && s[i] == s[j]
    ensures multiset(s)[s[i]] >= 2
  {
    assert s == s[..j] + s[j..];
    assert s[i] in multiset(s[..j]);
    assert s[j..][0] == s[j];
    assert s[j] in multiset(s[j..]);
  }

  /** Every pair of buffer occurs once. */
  lemma {:induction false} PairsCountOne(buffer: seq<real>, e: Entry)
    ensures multiset(Pairs(buffer))[e] <= 1
  {
    if buffer != [] {
      var n := |buffer| - 1;
      assert Pairs(buffer) == Pairs(buffer[..n]) + [Entry(buffer[n], n)];
      PairsCountOne(buffer[..n], e);
      if e == Entry(buffer[n], n) {
        assert e !in multiset(Pairs(buffer[..n]));
      }
    }
  }

  /** The ranking lists each original [prob, index] pair exactly once. */
  lemma RankingEntries(buffer: seq<real>)
    ensures forall i :: 0 <= i < |buffer| ==>
      Ranking(buffer)[i].index < |buffer| && Ranking(buffer)[i].prob == buffer[Ranking(buffer)[i].index]
    ensures forall m :: 0 <= m < |buffer| ==> Entry(buffer[m], m) in Ranking(buffer)
    ensures forall i, j :: 0 <= i < j < |buffer| ==> Ranking(buffer)[i] != Ranking(buffer)[j]
  {
    var r, pairs := Ranking(buffer), Pairs(buffer);
    forall i | 0 <= i < |buffer|
      ensures r[i].index < |buffer| && r[i].prob == buffer[r[i].index]
    {
      assert r[i] in multiset(pairs);
      var m :| 0 <= m < |pairs| && pairs[m] == r[i];
    }
    forall m | 0 <= m < |buffer|
      ensures Entry(buffer[m], m) in r
    {
      assert pairs[m] in multiset(r);
    }
    forall i, j | 0 <= i < j < |buffer|
      ensures r[i] != r[j]
    {
      if r[i] == r[j] {
        RepeatedCount(r, i, j);
        PairsCountOne(buffer, r[i]);
        assert false;
      }
    }
  }

  /** The ranking is strictly ordered: a higher score first, and among equal
      scores the later original index first (stable ascending sort, then
      reverse). */
  lemma RankingStrict(buffer: seq<real>, i: nat, j: nat)
    requires i < j < |buffer|
    ensures var r := Ranking(buffer);
      r[i].prob > r[j].prob || (r[i].prob == r[j].prob && r[i].index > r[j].index)
  {
    RankingEntries(buffer);
  }

  /** getTopClasses returns three classes with non-increasing scores; each is
      the label and score of a distinct original index; among equal scores
      the later index comes first; and no score left out beats the third
      (an equal one left out has an earlier index). */
  lemma TopThreeCorrect(buffer: seq<real>, labels: seq<string>)
    requires |buffer| >= 3
    ensures var r, t := Ranking(buffer), TopThree(Ranking(buffer), labels);
      && |t| == 3
      && (forall k :: 0 <= k < 3 ==>
            && r[k].index < |buffer|
            && t[k].prob == buffer[r[k].index]
            && t[k].labelText == (if r[k].index < |labels| then Some(labels[r[k].index]) else None))
      && r[0].index != r[1].index && r[1].index != r[2].index && r[0].index != r[2].index
      && t[0].prob >= t[1].prob >= t[2].prob
      && (forall k :: 0 <= k < 2 && t[k].prob == t[k + 1].prob ==> r[k].index > r[k + 1].index)
      && (forall m :: 0 <= m < |buffer| && m != r[0].index && m != r[1].index && m != r[2].index ==>
            buffer[m] < t[2].prob || (buffer[m] == t[2].prob && m < r[2].index))
  {
    var r := Ranking(buffer);
    RankingEntries(buffer);
    RankingStrict(buffer, 0, 1);
    RankingStrict(buffer, 1, 2);
    RankingStrict(buffer, 0, 2);
    forall m | 0 <= m < |buffer| && m != r[0].index && m != r[1].index && m != r[2].index
      ensures buffer[m] < r[2].prob || (buffer[m] == r[2].prob && m < r[2].index)
    {
      var p :| 0 <= p < |r| && r[p] == Entry(buffer[m], m);
      RankingStrict(buffer, 2, p);
    }
  }

  /** A candidate ranking that is ranked and holds the pairs of buffer is the
      ranking. */
  lemma RankingIs(buffer: seq<real>, expected: seq<Entry>)
    requires Ranked(expected)
    requires multiset(expected) == multiset(Pairs(buffer))
    ensures Ranking(buffer) == expected
  {
    RankedUnique(expected, Ranking(buffer));
  }

  lemma PairsOfFour(buffer: seq<real>)
    requires |buffer| == 4
    ensures Pairs(buffer) == [Entry(buffer[0], 0), Entry(buffer[1], 1), Entry(buffer[2], 2), Entry(buffer[3], 3)]
  {
  }

  lemma TopThreeOfFirst(ranking: seq<Entry>, labels: seq<string>)
    requires |ranking| >= 3
    ensures TopThree(ranking, labels)
         == [ClassOf(ranking[0], labels), ClassOf(ranking[1], labels), ClassOf(ranking[2], labels)]
  {
  }

  /** The ranking of the classifier example below. */
  lemma ExampleRanking(buffer: seq<real>)
    requires buffer == [0.1, 0.7, 0.05, 0.15]
    ensures Ranking(buffer) == [Entry(0.7, 1), Entry(0.15, 3), Entry(0.1, 0), Entry(0.05, 2)]
  {
    PairsOfFour(buffer);
    var p0, p1, p2, p3 := Entry(0.1, 0), Entry(0.7, 1), Entry(0.05, 2), Entry(0.15, 3);
    assert [p0, p1, p2, p3][1..] == [p1, p2, p3];
    assert [p1, p2, p3][1..] == [p2, p3];
    assert [p2, p3][1..] == [p3];
    assert SortRanked([p3]) == [p3];
    assert SortRanked([p2, p3]) == Insert(p2, [p3]) == [p3, p2];
    assert SortRanked([p1, p2, p3]) == Insert(p1, [p3, p2]) == [p1, p3, p2];
    assert Insert(p0, [p2]) == [p0, p2];
    assert Insert(p0, [p3, p2]) == [p3, p0, p2];
    assert SortRanked([p0, p1, p2, p3]) == Insert(p0, [p1, p3, p2]) == [p1, p3, p0, p2];
  }

  /** The classifier example: scores 0.1, 0.7, 0.05, 0.15 over labels
      a, b, c, d give b, d, a. */
  lemma TopThreeExample(buffer: seq<real>, labels: seq<string>)
    requires buffer == [0.1, 0.7, 0.05, 0.15] && labels == ["a", "b", "c", "d"]
    ensures TopThree(Ranking(buffer), labels)
         == [Class(Some("b"), 0.7), Class(Some("d"), 0.15), Class(Some("a"), 0.1)]
  {
    ExampleRanking(buffer);
    TopThreeOfFirst(Ranking(buffer), labels);
  }

  /** The ranking of the tie example below. */
  lemma TieRanking(buffer: seq<real>)
    requires buffer == [0.5, 0.5, 0.5, 0.1]
    ensures Ranking(buffer) == [Entry(0.5, 2), Entry(0.5, 1), Entry(0.5, 0), Entry(0.1, 3)]
  {
    PairsOfFour(buffer);
    var p0, p1, p2, p3 := Entry(0.5, 0), Entry(0.5, 1), Entry(0.5, 2), Entry(0.1, 3);
    assert [p0, p1, p2, p3][1..] == [p1, p2, p3];
    assert [p1, p2, p3][1..] == [p2, p3];
    assert [p2, p3][1..] == [p3];
    assert SortRanked([p3]) == [p3];
    assert SortRanked([p2, p3]) == Insert(p2, [p3]) == [p2, p3];
    assert Insert(p1, [p3]) == [p1, p3];
    assert SortRanked([p1, p2, p3]) == Insert(p1, [p2, p3]) == [p2, p1, p3];
    assert Insert(p0, [p3]) == [p0, p3];
    assert Insert(p0, [p1, p3]) == [p1, p0, p3];
    assert SortRanked([p0, p1, p2, p3]) == Insert(p0, [p2, p1, p3]) == [p2, p1, p0, p3];
  }

  /** Equal scores come out latest index first. */
  lemma TopThreeTieExample(buffer: seq<real>, labels: seq<string>)
    requires buffer == [0.5, 0.5, 0.5, 0.1] && labels == ["a", "b", "c", "d"]
    ensures TopThree(Ranking(buffer), labels)
         == [Class(Some("c"), 0.5), Class(Some("b"), 0.5), Class(Some("a"), 0.5)]
  {
    TieRanking(buffer);
    TopThreeOfFirst(Ranking(buffer), labels);
  }
}
