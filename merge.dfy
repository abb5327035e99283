/**
 * The candidate loop of main (project_2.py:208-244): each key the extractor
 * returns is filtered by target_rel, compared with the entries of X that have
 * the same lower-cased subject and object, and then appended or not.
 *
 * Modelled as the code runs, not as its comment intends: the first entry with
 * the same key and a DIFFERENT confidence decides; a more confident existing
 * entry keeps the candidate out; a less confident one reaches X.pop(item),
 * which raises TypeError (pop wants an index) and the exception is swallowed,
 * so the candidate is dropped as well; entries of equal confidence are passed
 * over, so a candidate that only meets those is appended as a duplicate.
 */
module Merge {
  import opened Wrappers
  import opened Text
  import opened Tuples

  /** One key of the extractor's dict with its value. Keys of any other shape are Malformed. */
  datatype Candidate =
    | Keyed(subject: string, relation: string, obj: string, confidence: real)
    | Malformed

  /** What the loop body does with one candidate. */
  datatype Verdict =
    | OffTarget      // rel[1] != target_rel: skipped
    | Added          // no entry with the same key and another confidence: appended
    | Outranked      // the first such entry is more confident: duplicate = True, skipped
    | PopRaised      // the first such entry is less confident: X.pop(item) raised, swallowed
    | MalformedKey   // reading the key raised, swallowed

  predicate SameKey(r: Rel, subject: string, obj: string) {
    r.subject == subject && r.obj == obj
  }

  /** Entries with the same subject and object carry the same confidence. */
  predicate KeyConsistent(X: seq<Rel>) {
    forall a, b :: a in X && b in X && a.subject == b.subject && a.obj == b.obj ==> a.confidence == b.confidence
  }

  /** Every subject and object in X is lower-case. */
  predicate AllLower(X: seq<Rel>) {
    forall a :: a in X ==> IsLower(a.subject) && IsLower(a.obj)
  }

  /** Where the scan over X, started at index from, stops: the first entry with this key and another confidence. */
  function FirstConflict(X: seq<Rel>, subject: string, obj: string, confidence: real, from: nat): (r: Option<nat>)
    requires from <= |X|
    ensures r.None? <==>
      forall j :: from <= j < |X| && SameKey(X[j], subject, obj) ==> X[j].confidence == confidence
    ensures r.Some? ==>
      && from <= r.value < |X|
      && SameKey(X[r.value], subject, obj) && X[r.value].confidence != confidence
      && forall j :: from <= j < r.value && SameKey(X[j], subject, obj) ==> X[j].confidence == confidence
    decreases |X| - from
  {
    if from == |X| then None
    else if SameKey(X[from], subject, obj) && X[from].confidence != confidence then Some(from)
    else FirstConflict(X, subject, obj, confidence, from + 1)
  }

  /** The dict appended to X for a well-formed candidate. */
  function Entry(c: Candidate): Rel
    requires c.Keyed?
  {
    Rel(c.confidence, Lower(c.subject), Lower(c.obj))
  }

  function Judge(X: seq<Rel>, target: string, c: Candidate): (v: Verdict)
    ensures v == MalformedKey <==> c.Malformed?
    ensures v == OffTarget <==> c.Keyed? && c.relation != target
    ensures v == Added <==>
      (c.Keyed? && c.relation == target
       && forall j :: 0 <= j < |X| && SameKey(X[j], Lower(c.subject), Lower(c.obj)) ==> X[j].confidence == c.confidence)
  {
    match c
    case Malformed => MalformedKey
    case Keyed(subject, relation, obj, confidence) =>
      if relation != target then OffTarget
      else match FirstConflict(X, Lower(subject), Lower(obj), confidence, 0)
        case None => Added
        case Some(i) => if X[i].confidence > confidence then Outranked else PopRaised
  }

  /** X after the loop body has run for candidate c. */
  function Merged(X: seq<Rel>, target: string, c: Candidate): (r: seq<Rel>)
    ensures X <= r && |r| <= |X| + 1
    ensures |r| == |X| + 1 ==> c.Keyed? && r[|X|] == Entry(c)
  {
    if Judge(X, target, c) == Added then X + [Entry(c)] else X
  }

  /**
   * The merge appends the lower-cased candidate exactly when the key is well
   * formed, the label is the target and every entry with the same lower-cased
   * subject and object has the candidate's confidence (none at all included);
   * otherwise X is left as it was.
   */
  lemma MergedSpec(X: seq<Rel>, target: string, c: Candidate)
    ensures Merged(X, target, c) ==
      if c.Keyed? && c.relation == target
         && forall j :: 0 <= j < |X| && SameKey(X[j], Lower(c.subject), Lower(c.obj)) ==> X[j].confidence == c.confidence
      then X + [Entry(c)]
      else X
  {
  }

  /** A malformed key or another relation label leaves X untouched. */
  lemma OffTargetUnchanged(X: seq<Rel>, target: string, c: Candidate)
    requires c.Malformed? || c.relation != target
    ensures Merged(X, target, c) == X
    ensures Judge(X, target, c) != Added
  {
  }

  /**
   * When all entries with one key agree on the confidence, any one of them
   * decides: equal confidence appends (a duplicate), a less confident
   * candidate is kept out, and a MORE confident candidate is dropped too.
   */
  lemma {:induction false} JudgeByAnyMatch(X: seq<Rel>, target: string, c: Candidate, j: int)
    requires KeyConsistent(X)
    requires c.Keyed? && c.relation == target
    requires 0 <= j < |X| && SameKey(X[j], Lower(c.subject), Lower(c.obj))
    ensures Judge(X, target, c) ==
      if X[j].confidence == c.confidence then Added
      else if X[j].confidence > c.confidence then Outranked
      else PopRaised
    ensures X[j].confidence != c.confidence ==> Merged(X, target, c) == X
  {
    var r := FirstConflict(X, Lower(c.subject), Lower(c.obj), c.confidence, 0);
    if r.Some? {
      assert X[r.value] in X && X[j] in X;
    }
  }

  lemma {:induction false} MergedKeyConsistent(X: seq<Rel>, target: string, c: Candidate)
    requires KeyConsistent(X)
    ensures KeyConsistent(Merged(X, target, c))
  {
    if Judge(X, target, c) == Added {
      var e := Entry(c);
      var Y := X + [e];
      forall a | a in X && a.subject == e.subject && a.obj == e.obj
        ensures a.confidence == e.confidence
      {
        var j :| 0 <= j < |X| && X[j] == a;
      }
    }
  }

  lemma MergedAllLower(X: seq<Rel>, target: string, c: Candidate)
    requires AllLower(X)
    ensures AllLower(Merged(X, target, c))
  {
  }

  /**
   * Merging the same candidate twice in a row does not leave X as the first
   * merge did: once appended, the candidate meets only its own copy (equal
   * confidence) and is appended again.
   */
  lemma RemergeDuplicates(X: seq<Rel>, target: string, c: Candidate)
    requires Judge(X, target, c) == Added
    ensures Judge(Merged(X, target, c), target, c) == Added
    ensures Merged(Merged(X, target, c), target, c) == X + [Entry(c), Entry(c)]
  {
    var Y := X + [Entry(c)];
    assert forall j :: 0 <= j < |X| ==> Y[j] == X[j];
  }

  // ---------------------------------------------------------------------
  // One page: the candidate loop with its early exit
  // ---------------------------------------------------------------------

  /**
   * The candidates of one page merged in order into (X, num_extracted); right
   * after an append that brings the count to k the loop stops (project_2.py:236-237).
   */
  function MergePage(X: seq<Rel>, n: int, target: string, k: int, cs: seq<Candidate>): (r: (seq<Rel>, int))
    ensures X <= r.0 && r.1 - n == |r.0| - |X|
    ensures n < k ==> r.1 <= k
    decreases |cs|
  {
    if cs == [] then (X, n)
    else if Judge(X, target, cs[0]) == Added then
      if n + 1 >= k then (X + [Entry(cs[0])], n + 1)
      else MergePage(X + [Entry(cs[0])], n + 1, target, k, cs[1..])
    else MergePage(X, n, target, k, cs[1..])
  }

  /** The entries that the target-labelled, well-formed candidates of cs would append. */
  function Entries(cs: seq<Candidate>, target: string): set<Rel> {
    set c | c in cs && c.Keyed? && c.relation == target :: Entry(c)
  }

  /**
   * Starting below k with the count equal to |X|, a page keeps the count equal
   * to |X| and at most k, only appends to X, appends only lower-cased entries of
   * target-labelled candidates, and keeps one confidence per key.
   */
  lemma {:induction false} MergePageInvariant(X: seq<Rel>, n: int, target: string, k: int, cs: seq<Candidate>)
    requires n == |X| && n < k
    requires KeyConsistent(X) && AllLower(X)
    ensures var (Y, m) := MergePage(X, n, target, k, cs);
      && m == |Y| && m <= k
      && X <= Y
      && KeyConsistent(Y) && AllLower(Y)
      && forall i :: |X| <= i < |Y| ==> Y[i] in Entries(cs, target)
    decreases |cs|
  {
    if cs != [] {
      var c := cs[0];
      assert c in cs;
      assert Entries(cs[1..], target) <= Entries(cs, target);
      MergedKeyConsistent(X, target, c);
      MergedAllLower(X, target, c);
      if Judge(X, target, c) == Added {
        var X' := X + [Entry(c)];
        if n + 1 < k {
          MergePageInvariant(X', n + 1, target, k, cs[1..]);
          var (Y, m) := MergePage(X', n + 1, target, k, cs[1..]);
          assert Y[|X|] == Entry(c) by { assert X' <= Y; }
        }
      } else {
        MergePageInvariant(X, n, target, k, cs[1..]);
      }
    }
  }

  /** A page whose candidates are all malformed or off target changes nothing. */
  lemma {:induction false} MergePageOffTarget(X: seq<Rel>, n: int, target: string, k: int, cs: seq<Candidate>)
    requires forall c :: c in cs ==> c.Malformed? || c.relation != target
    ensures MergePage(X, n, target, k, cs) == (X, n)
    decreases |cs|
  {
    if cs != [] {
      assert cs[0] in cs;
      forall c | c in cs[1..] ensures c in cs { }
      MergePageOffTarget(X, n, target, k, cs[1..]);
    }
  }
}
