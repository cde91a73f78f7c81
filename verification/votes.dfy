/**
 * The vote list of `predict` in src/ai/ml/random-forest-model.ts: one entry
 * per distinct tree vote with its share of the trees, sorted by
 * `(a, b) => b.confidence - a.confidence`. `Array.prototype.sort` is stable,
 * so entries of equal confidence keep the order in which the vote `Map`
 * first saw them.
 */
module Votes {
  import opened Counting
  import opened Arith

  datatype Vote = Vote(crop: string, confidence: real)

  predicate Descending(vs: seq<Vote>)
  {
    forall i, j :: 0 <= i < j < |vs| ==> vs[i].confidence >= vs[j].confidence
  }

  predicate DistinctCrops(vs: seq<Vote>)
  {
    forall i, j :: 0 <= i < j < |vs| ==> vs[i].crop != vs[j].crop
  }

  /** Sum of the confidences. */
  function Total(vs: seq<Vote>): real
  {
    if |vs| == 0 then 0.0 else vs[0].confidence + Total(vs[1..])
  }

  /**
   * One step of a stable sort by non-increasing confidence: `v` goes after
   * every element of at least its confidence.
   */
  function Insert(s: seq<Vote>, v: Vote): (r: seq<Vote>)
    ensures |r| == |s| + 1
    ensures forall e :: e in r <==> e in s || e == v
  {
    if |s| == 0 then [v]
    else if s[0].confidence < v.confidence then [v] + s
    else
      assert s == [s[0]] + s[1..];
      [s[0]] + Insert(s[1..], v)
  }

  lemma {:induction false} InsertPermutes(s: seq<Vote>, v: Vote)
    ensures multiset(Insert(s, v)) == multiset(s) + multiset{v}
    decreases |s|
  {
    if |s| > 0 && !(s[0].confidence < v.confidence) {
      InsertPermutes(s[1..], v);
      assert s == [s[0]] + s[1..];
    }
  }

  lemma {:induction false} InsertDescending(s: seq<Vote>, v: Vote)
    requires Descending(s)
    ensures Descending(Insert(s, v))
    decreases |s|
  {
    if |s| > 0 && !(s[0].confidence < v.confidence) {
      var rest := Insert(s[1..], v);
      InsertDescending(s[1..], v);
      forall k | 0 <= k < |rest| ensures s[0].confidence >= rest[k].confidence {
        assert rest[k] in rest;
      }
    }
  }

  lemma {:induction false} InsertDistinct(s: seq<Vote>, v: Vote)
    requires DistinctCrops(s) && forall i :: 0 <= i < |s| ==> s[i].crop != v.crop
    ensures DistinctCrops(Insert(s, v))
    decreases |s|
  {
    if |s| > 0 && !(s[0].confidence < v.confidence) {
      var rest := Insert(s[1..], v);
      InsertDistinct(s[1..], v);
      forall k | 0 <= k < |rest| ensures s[0].crop != rest[k].crop {
        assert rest[k] in rest;
        if rest[k] != v {
          var m :| 0 <= m < |s[1..]| && s[1..][m] == rest[k];
          assert s[m + 1] == rest[k];
        }
      }
    }
  }

  /** The stable sort: each element is inserted in turn, left to right. */
  function SortByConfidence(vs: seq<Vote>): (r: seq<Vote>)
    ensures |r| == |vs|
    ensures multiset(r) == multiset(vs)
    ensures forall e :: e in r <==> e in vs
    ensures Descending(r)
  {
    if |vs| == 0 then []
    else
      var init, v := vs[..|vs| - 1], vs[|vs| - 1];
      assert vs == init + [v];
      var s := SortByConfidence(init);
      InsertPermutes(s, v);
      InsertDescending(s, v);
      Insert(s, v)
  }

  /** Inserting adds the inserted confidence to the total. */
  lemma {:induction false} InsertTotal(s: seq<Vote>, v: Vote)
    ensures Total(Insert(s, v)) == Total(s) + v.confidence
    decreases |s|
  {
    if |s| > 0 && !(s[0].confidence < v.confidence) {
      InsertTotal(s[1..], v);
      assert Insert(s, v)[1..] == Insert(s[1..], v);
    }
  }

  lemma {:induction false} TotalAppend(a: seq<Vote>, v: Vote)
    ensures Total(a + [v]) == Total(a) + v.confidence
    decreases |a|
  {
    if |a| == 0 {
      assert a + [v] == [v];
    } else {
      TotalAppend(a[1..], v);
      assert (a + [v])[1..] == a[1..] + [v];
    }
  }

  /** Sorting does not change the total. */
  lemma {:induction false} SortTotal(vs: seq<Vote>)
    ensures Total(SortByConfidence(vs)) == Total(vs)
    decreases |vs|
  {
    if |vs| > 0 {
      var init := vs[..|vs| - 1];
      SortTotal(init);
      InsertTotal(SortByConfidence(init), vs[|vs| - 1]);
      TotalAppend(init, vs[|vs| - 1]);
      assert vs == init + [vs[|vs| - 1]];
    }
  }

  /** Ties are ordered by the position of the crop's first vote. */
  predicate TiesByFirstVote(vs: seq<Vote>, votes: seq<string>)
  {
    && (forall i :: 0 <= i < |vs| ==> vs[i].crop in votes)
    && (forall i, j :: 0 <= i < j < |vs| && vs[i].confidence == vs[j].confidence ==>
          FirstIndex(votes, vs[i].crop) < FirstIndex(votes, vs[j].crop))
  }

  lemma {:induction false} InsertKeepsTies(s: seq<Vote>, v: Vote, votes: seq<string>)
    requires Descending(s) && TiesByFirstVote(s, votes) && v.crop in votes
    requires forall i :: 0 <= i < |s| ==> FirstIndex(votes, s[i].crop) < FirstIndex(votes, v.crop)
    ensures TiesByFirstVote(Insert(s, v), votes)
    decreases |s|
  {
    var r := Insert(s, v);
    forall i | 0 <= i < |r| ensures r[i].crop in votes {
      assert r[i] in r;
    }
    if |s| == 0 {
    } else if s[0].confidence < v.confidence {
      PrependKeepsTies(s, v, votes);
    } else {
      InsertKeepsTies(s[1..], v, votes);
      InsertBehindHead(s, v, votes);
    }
  }

  /** `v` goes first: it outranks everything behind it, so it ties with nothing. */
  lemma PrependKeepsTies(s: seq<Vote>, v: Vote, votes: seq<string>)
    requires Descending(s) && TiesByFirstVote(s, votes) && v.crop in votes
    requires |s| > 0 && s[0].confidence < v.confidence
    ensures TiesByFirstVote([v] + s, votes)
  {
    var r := [v] + s;
    forall j | 1 <= j < |r| ensures r[j].confidence < v.confidence {
      assert r[j] == s[j - 1];
    }
    forall i, j | 1 <= i < j < |r| && r[i].confidence == r[j].confidence
      ensures FirstIndex(votes, r[i].crop) < FirstIndex(votes, r[j].crop)
    {
      assert r[i] == s[i - 1] && r[j] == s[j - 1];
    }
  }

  /** The head stays first; the rest is the insertion into the tail. */
  lemma InsertBehindHead(s: seq<Vote>, v: Vote, votes: seq<string>)
    requires Descending(s) && TiesByFirstVote(s, votes) && v.crop in votes
    requires forall i :: 0 <= i < |s| ==> FirstIndex(votes, s[i].crop) < FirstIndex(votes, v.crop)
    requires |s| > 0 && !(s[0].confidence < v.confidence)
    requires TiesByFirstVote(Insert(s[1..], v), votes)
    ensures TiesByFirstVote(Insert(s, v), votes)
  {
    var rest := Insert(s[1..], v);
    HeadOutranksTies(s, v, votes, rest);
    ConsKeepsTies(s[0], rest, votes);
  }

  lemma HeadOutranksTies(s: seq<Vote>, v: Vote, votes: seq<string>, rest: seq<Vote>)
    requires TiesByFirstVote(s, votes) && v.crop in votes && |s| > 0
    requires FirstIndex(votes, s[0].crop) < FirstIndex(votes, v.crop)
    requires forall e :: e in rest ==> e in s[1..] || e == v
    requires forall j :: 0 <= j < |rest| ==> rest[j].crop in votes
    ensures forall j :: 0 <= j < |rest| && rest[j].confidence == s[0].confidence ==>
      FirstIndex(votes, s[0].crop) < FirstIndex(votes, rest[j].crop)
  {
    forall j | 0 <= j < |rest| && rest[j].confidence == s[0].confidence
      ensures FirstIndex(votes, s[0].crop) < FirstIndex(votes, rest[j].crop)
    {
      assert rest[j] in rest;
      if rest[j] != v {
        var m :| 0 <= m < |s[1..]| && s[1..][m] == rest[j];
        assert s[m + 1] == rest[j];
      }
    }
  }

  lemma ConsKeepsTies(h: Vote, rest: seq<Vote>, votes: seq<string>)
    requires TiesByFirstVote(rest, votes) && h.crop in votes
    requires forall j :: 0 <= j < |rest| && rest[j].confidence == h.confidence ==>
      FirstIndex(votes, h.crop) < FirstIndex(votes, rest[j].crop)
    ensures TiesByFirstVote([h] + rest, votes)
  {
    var r := [h] + rest;
    forall i, j | 0 <= i < j < |r| && r[i].confidence == r[j].confidence
      ensures FirstIndex(votes, r[i].crop) < FirstIndex(votes, r[j].crop)
    {
      if i == 0 {
        assert r[j] == rest[j - 1];
      } else {
        assert r[i] == rest[i - 1] && r[j] == rest[j - 1];
      }
    }
    forall i | 0 <= i < |r| ensures r[i].crop in votes {
      if i > 0 {
        assert r[i] == rest[i - 1];
      }
    }
  }

  /** Every crop was voted for, and the crops appear in order of their first vote. */
  predicate InFirstVoteOrder(vs: seq<Vote>, votes: seq<string>)
  {
    && (forall i :: 0 <= i < |vs| ==> vs[i].crop in votes)
    && (forall i, j :: 0 <= i < j < |vs| ==> FirstIndex(votes, vs[i].crop) < FirstIndex(votes, vs[j].crop))
  }

  /**
   * Sorting input whose crops appear in order of first vote leaves ties in
   * that order and lists no crop twice.
   */
  lemma {:induction false} SortKeepsTies(vs: seq<Vote>, votes: seq<string>)
    requires InFirstVoteOrder(vs, votes)
    ensures TiesByFirstVote(SortByConfidence(vs), votes)
    ensures DistinctCrops(SortByConfidence(vs))
    decreases |vs|
  {
    if |vs| > 0 {
      var init, v := vs[..|vs| - 1], vs[|vs| - 1];
      var s := SortByConfidence(init);
      SortKeepsTies(init, votes);
      forall i | 0 <= i < |s| ensures FirstIndex(votes, s[i].crop) < FirstIndex(votes, v.crop) {
        assert s[i] in s;
        var m :| 0 <= m < |init| && init[m] == s[i];
      }
      InsertKeepsTies(s, v, votes);
      forall i | 0 <= i < |s| ensures s[i].crop != v.crop {
        assert FirstIndex(votes, s[i].crop) < FirstIndex(votes, v.crop);
      }
      InsertDistinct(s, v);
    }
  }
}
