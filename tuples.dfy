/**
 * The extracted-relation records kept in the list X, and the order that
 * X.sort(key=confidence, reverse=True) puts them in.
 */
module Tuples {

  /** One entry of X: the dict {'confidence', 'subject', 'object'}. Confidence is only ever compared. */
  datatype Rel = Rel(confidence: real, subject: string, obj: string)

  /** Non-increasing confidence from front to back. */
  predicate SortedDesc(s: seq<Rel>) {
    forall i, j :: 0 <= i < j < |s| ==> s[i].confidence >= s[j].confidence
  }

  /** The entries of s whose confidence is c, in the order they appear in s. */
  function WithConfidence(s: seq<Rel>, c: real): seq<Rel> {
    if s == [] then []
    else (if s[0].confidence == c then [s[0]] else []) + WithConfidence(s[1..], c)
  }

  lemma WithConfidenceCons(x: Rel, t: seq<Rel>, c: real)
    ensures WithConfidence([x] + t, c) == (if x.confidence == c then [x] else []) + WithConfidence(t, c)
  {
    assert ([x] + t)[0] == x;
    assert ([x] + t)[1..] == t;
  }

  /** The head of s is the head of its own confidence class, and every member of a class is in s. */
  lemma {:induction false} WithConfidenceMembers(s: seq<Rel>, c: real)
    ensures s != [] ==> WithConfidence(s, s[0].confidence) == [s[0]] + WithConfidence(s[1..], s[0].confidence)
    ensures forall x :: x in WithConfidence(s, c) ==> x in s && x.confidence == c
  {
    if s != [] {
      WithConfidenceMembers(s[1..], c);
    }
  }

  lemma SortedCons(x: Rel, t: seq<Rel>)
    ensures SortedDesc(t) && (t != [] ==> x.confidence >= t[0].confidence) ==> SortedDesc([x] + t)
  {
  }

  /** Places x in front of the first entry of t whose confidence is not above x's. */
  function Insert(x: Rel, t: seq<Rel>): (r: seq<Rel>)
    ensures multiset(r) == multiset(t) + multiset{x}
    ensures r != [] && (r[0] == x || (t != [] && r[0] == t[0]))
    ensures SortedDesc(t) ==> SortedDesc(r)
  {
    if t == [] || x.confidence >= t[0].confidence then
      SortedCons(x, t);
      [x] + t
    else
      var rest := Insert(x, t[1..]);
      assert t == [t[0]] + t[1..];
      SortedCons(t[0], rest);
      [t[0]] + rest
  }

  /**
   * The order Python's stable list.sort(reverse=True) gives: by descending
   * confidence, with entries of equal confidence left in their original order.
   */
  function SortDesc(s: seq<Rel>): (r: seq<Rel>)
    ensures SortedDesc(r)
    ensures multiset(r) == multiset(s)
    ensures |r| == |s|
  {
    if s == [] then []
    else
      assert s == [s[0]] + s[1..];
      Insert(s[0], SortDesc(s[1..]))
  }

  /** Two class prefixes of which at least one is empty can be swapped. */
  lemma SwapEmpty(p: seq<Rel>, q: seq<Rel>, w: seq<Rel>)
    requires p == [] || q == []
    ensures p + (q + w) == q + (p + w)
  {
  }

  lemma {:induction false} InsertStable(x: Rel, t: seq<Rel>, c: real)
    ensures WithConfidence(Insert(x, t), c) == WithConfidence([x] + t, c)
  {
    if t != [] && x.confidence < t[0].confidence {
      var t0, rest := t[0], t[1..];
      var px: seq<Rel> := if x.confidence == c then [x] else [];
      var p0: seq<Rel> := if t0.confidence == c then [t0] else [];
      var w := WithConfidence(rest, c);
      InsertStable(x, rest, c);
      WithConfidenceCons(t0, Insert(x, rest), c);
      WithConfidenceCons(x, rest, c);
      WithConfidenceCons(x, t, c);
      assert WithConfidence(Insert(x, t), c) == p0 + (px + w);
      assert WithConfidence(t, c) == p0 + w;
      SwapEmpty(p0, px, w);
    }
  }

  /** Sorting keeps, for every confidence value, the entries with that value in their original order. */
  lemma {:induction false} SortDescStable(s: seq<Rel>, c: real)
    ensures WithConfidence(SortDesc(s), c) == WithConfidence(s, c)
  {
    if s != [] {
      SortDescStable(s[1..], c);
      InsertStable(s[0], SortDesc(s[1..]), c);
      WithConfidenceCons(s[0], SortDesc(s[1..]), c);
      WithConfidenceCons(s[0], s[1..], c);
      assert s == [s[0]] + s[1..];
    }
  }

  /** The head of a sorted sequence whose classes match those of r2 is at least as confident as r2's head. */
  lemma HeadBound(r1: seq<Rel>, r2: seq<Rel>)
    requires r1 != [] && r2 != [] && SortedDesc(r1)
    requires forall c :: WithConfidence(r1, c) == WithConfidence(r2, c)
    ensures r1[0].confidence >= r2[0].confidence
  {
    var b := r2[0];
    WithConfidenceMembers(r2, b.confidence);
    WithConfidenceMembers(r1, b.confidence);
    assert b in WithConfidence(r2, b.confidence);
    assert b in WithConfidence(r1, b.confidence);
  }

  lemma HeadClass(r: seq<Rel>)
    ensures r != [] ==> WithConfidence(r, r[0].confidence) != []
  {
    if r != [] {
      WithConfidenceMembers(r, r[0].confidence);
    }
  }

  lemma CancelPrefix(p: seq<Rel>, u: seq<Rel>, v: seq<Rel>)
    requires p + u == p + v
    ensures u == v
  {
    assert u == (p + u)[|p|..];
    assert v == (p + v)[|p|..];
  }

  /** Two sequences with the same confidence classes whose heads have the same confidence have the same head. */
  lemma SameHead(r1: seq<Rel>, r2: seq<Rel>)
    requires r1 != [] && r2 != [] && r1[0].confidence == r2[0].confidence
    requires WithConfidence(r1, r1[0].confidence) == WithConfidence(r2, r1[0].confidence)
    ensures r1[0] == r2[0]
  {
    var conf := r1[0].confidence;
    assert WithConfidence(r1, conf) == [r1[0]] + WithConfidence(r1[1..], conf);
    assert WithConfidence(r2, conf) == [r2[0]] + WithConfidence(r2[1..], conf);
    assert WithConfidence(r1, conf)[0] == r1[0];
  }

  /** Dropping equal heads keeps the confidence classes equal. */
  lemma StableTails(r1: seq<Rel>, r2: seq<Rel>)
    requires r1 != [] && r2 != [] && r1[0] == r2[0]
    requires forall c :: WithConfidence(r1, c) == WithConfidence(r2, c)
    ensures forall c :: WithConfidence(r1[1..], c) == WithConfidence(r2[1..], c)
  {
    forall c ensures WithConfidence(r1[1..], c) == WithConfidence(r2[1..], c) {
      var p: seq<Rel> := if r1[0].confidence == c then [r1[0]] else [];
      assert WithConfidence(r1, c) == p + WithConfidence(r1[1..], c);
      assert WithConfidence(r2, c) == p + WithConfidence(r2[1..], c);
      CancelPrefix(p, WithConfidence(r1[1..], c), WithConfidence(r2[1..], c));
    }
  }

  lemma EmptyClasses(r1: seq<Rel>, r2: seq<Rel>)
    requires r1 == []
    requires forall c :: WithConfidence(r1, c) == WithConfidence(r2, c)
    ensures r2 == []
  {
    HeadClass(r2);
  }

  /**
   * A stable descending order is unique: two sequences that are both sorted by
   * descending confidence and agree on the order within every confidence value
   * are equal.
   */
  lemma {:induction false} StableOrderUnique(r1: seq<Rel>, r2: seq<Rel>)
    requires SortedDesc(r1) && SortedDesc(r2)
    requires forall c :: WithConfidence(r1, c) == WithConfidence(r2, c)
    ensures r1 == r2
    decreases |r1|
  {
    if r1 == [] {
      EmptyClasses(r1, r2);
    } else if r2 == [] {
      EmptyClasses(r2, r1);
    } else {
      HeadBound(r1, r2);
      HeadBound(r2, r1);
      SameHead(r1, r2);
      StableTails(r1, r2);
      var t1, t2 := r1[1..], r2[1..];
      StableOrderUnique(t1, t2);
      assert r1 == [r1[0]] + t1;
      assert r2 == [r2[0]] + t2;
    }
  }

  /** Whatever stable descending sort the library uses, its result is SortDesc(s). */
  lemma StableSortIsSortDesc(s: seq<Rel>, r: seq<Rel>)
    requires SortedDesc(r)
    requires forall c :: WithConfidence(r, c) == WithConfidence(s, c)
    ensures r == SortDesc(s)
  {
    forall c ensures WithConfidence(r, c) == WithConfidence(SortDesc(s), c) {
      SortDescStable(s, c);
    }
    StableOrderUnique(r, SortDesc(s));
  }
}
