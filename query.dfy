/**
 * update_query: when fewer than k tuples have been collected, the next search
 * query is the old one, lower-cased and re-joined, followed by the object and
 * the subject of the most confident tuple neither of whose words is in it yet.
 */
module Query {
  import opened Wrappers
  import opened Text
  import opened Tuples

  /** q_words in update_query: the words of q, each lower-cased. */
  function QueryWords(q: string): (ws: seq<string>)
    ensures |ws| == |Split(q)|
    ensures forall i :: 0 <= i < |ws| ==> IsWord(ws[i]) && IsLower(ws[i])
  {
    LowerEach(Split(q))
  }

  /** Word i of q_words is piece i of q.lower().split(): lower-casing first or after splitting is the same. */
  lemma QueryWordsLowered(q: string)
    ensures QueryWords(q) == Split(Lower(q))
  {
    SplitLower(q);
  }

  /** A tuple may extend the query when neither its object nor its subject is already one of its words. */
  predicate Eligible(r: Rel, words: seq<string>) {
    r.obj !in words && r.subject !in words
  }

  /** X[i] is the first tuple of X, in list order, that may extend the query. */
  predicate FirstEligibleAt(X: seq<Rel>, words: seq<string>, i: int) {
    0 <= i < |X| && Eligible(X[i], words) && forall j :: 0 <= j < i ==> !Eligible(X[j], words)
  }

  /** q_words after the loop of update_query: extended at the first eligible tuple, or None when there is none. */
  function Extended(X: seq<Rel>, words: seq<string>): (r: Option<seq<string>>)
    ensures r.Some? ==> |r.value| == |words| + 2 && r.value[..|words|] == words
  {
    if X == [] then None
    else if Eligible(X[0], words) then Some(words + [X[0].obj, X[0].subject])
    else Extended(X[1..], words)
  }

  /** The string update_query returns, for an X that is already in its sorted order. */
  function NextQuery(X: seq<Rel>, q: string): (r: string)
    ensures r == "" <==> Extended(X, QueryWords(q)).None?
  {
    match Extended(X, QueryWords(q))
    case None => ""
    case Some(ws) => Join(ws)
  }

  /** update_query(X, q): X is first sorted by descending confidence, then scanned. */
  function UpdatedQuery(X: seq<Rel>, q: string): (r: string)
    ensures r == "" <==> forall t :: t in X ==> !Eligible(t, QueryWords(q))
  {
    NextQueryEmptyIff(SortDesc(X), q);
    assert forall t :: t in X <==> t in multiset(SortDesc(X));
    NextQuery(SortDesc(X), q)
  }

  lemma {:induction false} ExtendedNone(X: seq<Rel>, words: seq<string>)
    ensures Extended(X, words).None? <==> forall j :: 0 <= j < |X| ==> !Eligible(X[j], words)
    ensures Extended(X, words).Some? ==> |Extended(X, words).value| == |words| + 2
  {
    if X != [] && !Eligible(X[0], words) {
      ExtendedNone(X[1..], words);
      forall j | 1 <= j < |X| ensures X[j] == X[1..][j - 1] { }
    }
  }

  lemma {:induction false} ExtendedFirst(X: seq<Rel>, words: seq<string>, i: int)
    requires FirstEligibleAt(X, words, i)
    ensures Extended(X, words) == Some(words + [X[i].obj, X[i].subject])
  {
    if i > 0 {
      assert !Eligible(X[0], words);
      ExtendedFirst(X[1..], words, i - 1);
    }
  }

  /** update_query returns '' exactly when no tuple has both its object and its subject outside the query. */
  lemma NextQueryEmptyIff(X: seq<Rel>, q: string)
    ensures NextQuery(X, q) == "" <==> forall j :: 0 <= j < |X| ==> !Eligible(X[j], QueryWords(q))
  {
    ExtendedNone(X, QueryWords(q));
  }

  /**
   * Otherwise the new query is the lower-cased words of q, single-space joined,
   * followed by the object and then the subject of the first eligible tuple.
   */
  lemma NextQueryFirstEligible(X: seq<Rel>, q: string, i: int)
    requires FirstEligibleAt(X, QueryWords(q), i)
    ensures NextQuery(X, q) == Join(QueryWords(q) + [X[i].obj, X[i].subject])
  {
    ExtendedFirst(X, QueryWords(q), i);
  }

  lemma LowerWords(ws: seq<string>)
    requires forall i :: 0 <= i < |ws| ==> IsWord(ws[i]) && IsLower(ws[i])
    ensures QueryWords(Join(ws)) == ws
  {
    SplitJoin(ws);
  }

  /**
   * When the chosen object and subject are single lower-case words, the next
   * call sees exactly the old words plus those two, so that tuple is no longer
   * eligible.
   */
  lemma NextQueryAddsWords(X: seq<Rel>, q: string, i: int)
    requires FirstEligibleAt(X, QueryWords(q), i)
    requires IsWord(X[i].obj) && IsLower(X[i].obj)
    requires IsWord(X[i].subject) && IsLower(X[i].subject)
    ensures QueryWords(NextQuery(X, q)) == QueryWords(q) + [X[i].obj, X[i].subject]
    ensures !Eligible(X[i], QueryWords(NextQuery(X, q)))
  {
    NextQueryFirstEligible(X, q, i);
    var ws := QueryWords(q) + [X[i].obj, X[i].subject];
    LowerWords(ws);
  }

  /**
   * An object or subject that is not a single word (several words, or empty)
   * never matches a query word, so a tuple whose object and subject are both
   * of that kind stays eligible however often the query is extended.
   */
  lemma MultiWordStaysEligible(r: Rel, q: string)
    requires !IsWord(r.obj) && !IsWord(r.subject)
    ensures Eligible(r, QueryWords(q))
  {
  }

  /**
   * The loop of update_query after its sort: scan X in order, extend q_words
   * at the first tuple whose object and subject are both new, and return ''
   * when q_words did not grow.
   */
  method ExtendQuery(X: seq<Rel>, q: string) returns (newQ: string)
    ensures newQ == NextQuery(X, q)
  {
    var qWords := QueryWords(q);
    ghost var words := qWords;
    var query := q;
    var qlenBefore := |qWords|;
    var i := 0;
    while i < |X|
      invariant 0 <= i <= |X|
      invariant qWords == words
      invariant Extended(X, words) == Extended(X[i..], words)
    {
      if X[i].obj !in qWords {
        if X[i].subject !in qWords {
          qWords := qWords + [X[i].obj, X[i].subject];
          query := Join(qWords);
          break;
        }
      }
      assert X[i..][1..] == X[i + 1..];
      i := i + 1;
    }
    if |qWords| == qlenBefore {
      newQ := "";
    } else {
      newQ := query;
    }
  }
}
