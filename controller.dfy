/**
 * The bootstrapping loop of main (project_2.py:152-267): search with the
 * current query, visit each result link not seen before, truncate the page
 * text, merge the extracted candidates into X, stop as soon as k tuples are
 * held, and otherwise extend the query from X and go round again.
 */
module Controller {
  import opened Wrappers
  import opened Text
  import opened Tuples
  import opened Query
  import opened Merge
  import opened Selector

  /**
   * The collaborators main calls but does not own. A fetch may fail (timeout,
   * HTTP or parse error); a search may raise. Taking the fetcher as a function
   * of the link loses nothing, because no link is fetched twice in a run.
   */
  datatype Web = Web(
    search: string -> Option<seq<string>>,
    fetch: string -> Option<string>,
    extract: (seq<string>, string) -> seq<Candidate>)

  /** main's bookkeeping: X, num_extracted and prev_url. */
  datatype RunState = RunState(tuples: seq<Rel>, count: int, seen: seq<string>)

  /** How a run ends. */
  datatype Outcome =
    | ReachedK                          // the while condition num_extracted < k failed
    | QueryExhausted(lastQuery: string) // update_query returned '' for this query
    | SearchFailed(query: string)       // the search call raised; the script stops with the exception
    | FuelSpent                         // the iteration bound of the model was reached
    | BadSelector                       // r - 1 is no index of the selector lists: IndexError

  predicate NoDup(s: seq<string>) {
    forall i, j :: 0 <= i < j < |s| ==> s[i] != s[j]
  }

  /** What main's loop keeps true between pages and between iterations. */
  predicate Inv(st: RunState, k: int)
    ensures Inv(st, k) && st.count >= k ==> st.count == Max(k, 0)
  {
    && st.count == |st.tuples|
    && st.count <= Max(k, 0)
    && NoDup(st.seen)
    && KeyConsistent(st.tuples)
    && AllLower(st.tuples)
  }

  /**
   * One result link (project_2.py:169-247). A link in prev_url is skipped;
   * otherwise it is appended to prev_url before the fetch, and a failed fetch
   * skips the page. The second component says whether the page reached the
   * extractor, and with it the check at line 246.
   */
  function VisitPage(st: RunState, link: string, web: Web, sel: Selection, k: int): (r: (RunState, bool))
    ensures st.seen <= r.0.seen && link in r.0.seen
    ensures r.1 <==> link !in st.seen && web.fetch(link).Some?
    ensures !r.1 ==> r.0.tuples == st.tuples && r.0.count == st.count
  {
    if link in st.seen then (st, false)
    else
      var seen := st.seen + [link];
      match web.fetch(link)
      case None => (RunState(st.tuples, st.count, seen), false)
      case Some(text) =>
        var candidates := web.extract(sel.entities, Truncate(text, Cap));
        var merged := MergePage(st.tuples, st.count, sel.targetRel, k, candidates);
        (RunState(merged.0, merged.1, seen), true)
  }

  /** The links of one search in order, leaving the loop after a processed page that brings the count to k. */
  function VisitPages(st: RunState, links: seq<string>, web: Web, sel: Selection, k: int): (r: RunState)
    ensures st.seen <= r.seen
    ensures st.count < k && r.count < k ==> forall l :: l in links ==> l in r.seen
    decreases |links|
  {
    if links == [] then st
    else
      var (next, processed) := VisitPage(st, links[0], web, sel, k);
      if processed && next.count >= k then next
      else VisitPages(next, links[1..], web, sel, k)
  }

  lemma VisitPageInvariant(st: RunState, link: string, web: Web, sel: Selection, k: int)
    requires Inv(st, k) && st.count < k
    ensures var (next, processed) := VisitPage(st, link, web, sel, k);
      && Inv(next, k)
      && st.tuples <= next.tuples
      && next.seen == (if link in st.seen then st.seen else st.seen + [link])
      && (!processed ==> next.tuples == st.tuples && next.count == st.count)
  {
    if link !in st.seen {
      var seen := st.seen + [link];
      assert NoDup(seen);
      match web.fetch(link)
      case None =>
      case Some(text) =>
        var candidates := web.extract(sel.entities, Truncate(text, Cap));
        MergePageInvariant(st.tuples, st.count, sel.targetRel, k, candidates);
    }
  }

  /**
   * Over the links of one search, starting below k: the invariant holds after,
   * X and prev_url only grew, and unless k was reached every link is in prev_url.
   */
  lemma {:induction false} VisitPagesInvariant(st: RunState, links: seq<string>, web: Web, sel: Selection, k: int)
    requires Inv(st, k) && st.count < k
    ensures var next := VisitPages(st, links, web, sel, k);
      && Inv(next, k)
      && st.tuples <= next.tuples
      && st.seen <= next.seen
      && (next.count < k ==> forall l :: l in links ==> l in next.seen)
    decreases |links|
  {
    if links != [] {
      VisitPageInvariant(st, links[0], web, sel, k);
      var (next, processed) := VisitPage(st, links[0], web, sel, k);
      if !(processed && next.count >= k) {
        VisitPagesInvariant(next, links[1..], web, sel, k);
      }
    }
  }

  lemma PrefixMultiset(a: seq<Rel>, b: seq<Rel>)
    requires a <= b
    ensures multiset(a) <= multiset(b)
  {
    assert b == a + b[|a|..];
  }

  lemma SortKeepsInv(X: seq<Rel>)
    requires KeyConsistent(X) && AllLower(X)
    ensures KeyConsistent(SortDesc(X)) && AllLower(SortDesc(X))
  {
    assert forall a :: a in SortDesc(X) <==> a in multiset(SortDesc(X));
    assert forall a :: a in X <==> a in multiset(X);
  }

  /**
   * One pass of the while body of main (project_2.py:159-256): search with q,
   * visit the result links, and below k sort X and extend the query, leaving
   * the loop when update_query returns ''. A search that raises ends the run.
   * Some(outcome) says the loop is left without reaching k.
   */
  function Step(st: RunState, q: string, web: Web, sel: Selection, k: int): (r: (RunState, string, Option<Outcome>))
    ensures r.2.Some? ==> r.2.value == SearchFailed(q) || r.2.value == QueryExhausted(q)
    ensures r.2 == Some(SearchFailed(q)) <==> web.search(q).None?
    ensures r.2 == Some(QueryExhausted(q)) ==> r.1 == ""
    ensures st.seen <= r.0.seen
  {
    match web.search(q)
    case None => (st, q, Some(SearchFailed(q)))
    case Some(links) =>
      var next := VisitPages(st, links, web, sel, k);
      if next.count >= k then (next, q, None)
      else
        var sorted := RunState(SortDesc(next.tuples), next.count, next.seen);
        var newQuery := UpdatedQuery(next.tuples, q);
        (sorted, newQuery, if newQuery == "" then Some(QueryExhausted(q)) else None)
  }

  /** One pass of the loop body with the run's collaborators, selection and k fixed. */
  function Pass(web: Web, sel: Selection, k: int): (RunState, string) -> (RunState, string, Option<Outcome>) {
    (st: RunState, q: string) => Step(st, q, web, sel, k)
  }

  /** pass is Step with the run's collaborators, selection and k fixed. */
  ghost predicate IsStep(pass: (RunState, string) -> (RunState, string, Option<Outcome>), web: Web, sel: Selection, k: int) {
    forall st: RunState, q: string {:trigger Step(st, q, web, sel, k)} :: pass(st, q) == Step(st, q, web, sel, k)
  }

  lemma PassIsStep(web: Web, sel: Selection, k: int)
    ensures IsStep(Pass(web, sel, k), web, sel, k)
  {
  }

  /**
   * The while loop of main (project_2.py:158-256) run for at most fuel
   * passes, each pass given by pass: the final state and query, the number of
   * passes made, and how the loop ended.
   */
  function RunSpec(st: RunState, q: string, pass: (RunState, string) -> (RunState, string, Option<Outcome>), k: int, fuel: nat)
    : (r: (RunState, string, nat, Outcome))
    ensures r.2 <= fuel
    ensures r.2 == 0 <==> st.count >= k || fuel == 0
    decreases fuel
  {
    if st.count >= k then (st, q, 0, ReachedK)
    else if fuel == 0 then (st, q, 0, FuelSpent)
    else
      var (next, newQuery, stop) := pass(st, q);
      if stop.Some? then (next, newQuery, 1, stop.value)
      else
        var rest := RunSpec(next, newQuery, pass, k, fuel - 1);
        (rest.0, rest.1, rest.2 + 1, rest.3)
  }

  /** A run's result with done more passes counted. */
  function Shift(run: (RunState, string, nat, Outcome), done: nat): (RunState, string, nat, Outcome) {
    (run.0, run.1, run.2 + done, run.3)
  }

  /**
   * One pass taken from below k with fuel left: the whole run is that pass
   * followed by the rest of the run, with one pass more counted.
   */
  lemma RunSpecPass(st: RunState, q: string, pass: (RunState, string) -> (RunState, string, Option<Outcome>), k: int, fuel: nat, done: nat)
    requires st.count < k && fuel > 0
    ensures var (next, newQuery, stop) := pass(st, q);
      && (stop.Some? ==> Shift(RunSpec(st, q, pass, k, fuel), done) == (next, newQuery, done + 1, stop.value))
      && (stop.None? ==> Shift(RunSpec(st, q, pass, k, fuel), done) == Shift(RunSpec(next, newQuery, pass, k, fuel - 1), done + 1))
  {
  }

  /**
   * What a pass entered below k from st with query q promises: Inv holds
   * after it, X and prev_url only grew, and it leaves the loop early only
   * below k, either after a raising search that changed nothing, or with
   * q == '', X sorted and no tuple of X eligible for the query just used.
   */
  predicate PassPost(st: RunState, q: string, step: (RunState, string, Option<Outcome>), web: Web, k: int) {
    && Inv(step.0, k)
    && multiset(st.tuples) <= multiset(step.0.tuples)
    && st.seen <= step.0.seen
    && (step.2.Some? ==> step.0.count < k)
    && (step.2.Some? ==> match step.2.value
        case SearchFailed(query) => query == q && web.search(q).None? && step.0 == st
        case QueryExhausted(lastQuery) =>
          && lastQuery == q
          && step.1 == ""
          && SortedDesc(step.0.tuples)
          && forall i :: 0 <= i < |step.0.tuples| ==> !Eligible(step.0.tuples[i], QueryWords(q))
        case _ => false)
  }

  lemma StepInvariant(st: RunState, q: string, web: Web, sel: Selection, k: int)
    requires Inv(st, k) && st.count < k
    ensures PassPost(st, q, Step(st, q, web, sel, k), web, k)
  {
    match web.search(q)
    case None =>
    case Some(links) =>
      VisitPagesInvariant(st, links, web, sel, k);
      var visited := VisitPages(st, links, web, sel, k);
      PrefixMultiset(st.tuples, visited.tuples);
      if visited.count < k {
        SortKeepsInv(visited.tuples);
        NextQueryEmptyIff(SortDesc(visited.tuples), q);
      }
  }

  /** Every pass of a loop keeps PassPost. */
  ghost predicate PassOk(pass: (RunState, string) -> (RunState, string, Option<Outcome>), web: Web, k: int) {
    forall st: RunState, q: string :: Inv(st, k) && st.count < k ==> PassPost(st, q, pass(st, q), web, k)
  }

  lemma PassIsOk(web: Web, sel: Selection, k: int)
    ensures PassOk(Pass(web, sel, k), web, k)
  {
    forall st: RunState, q: string | Inv(st, k) && st.count < k
      ensures PassPost(st, q, Pass(web, sel, k)(st, q), web, k)
    {
      StepInvariant(st, q, web, sel, k);
    }
  }

  /**
   * The state at the end of a run started from a state satisfying Inv: Inv
   * holds, X and prev_url only grew, and at most fuel passes were made, all
   * of them when the bound ended the run.
   */
  lemma {:induction false} RunSpecState(st: RunState, q: string, pass: (RunState, string) -> (RunState, string, Option<Outcome>), web: Web, k: int, fuel: nat)
    requires Inv(st, k) && PassOk(pass, web, k)
    ensures var run := RunSpec(st, q, pass, k, fuel);
      && Inv(run.0, k)
      && st.seen <= run.0.seen
      && multiset(st.tuples) <= multiset(run.0.tuples)
      && run.2 <= fuel
      && (run.3.FuelSpent? ==> run.2 == fuel)
    decreases fuel
  {
    if st.count < k && fuel > 0 {
      var step := pass(st, q);
      assert PassPost(st, q, step, web, k);
      if step.2.None? {
        RunSpecState(step.0, step.1, pass, web, k, fuel - 1);
      }
    }
  }

  /**
   * How a run started from a state satisfying Inv ends: with k tuples exactly
   * when the count reached k, and then exactly max(k, 0) of them; with q == ''
   * only when X is sorted and no tuple is eligible for the last query; with a
   * failed search only when that search raised; never with a bad selector.
   */
  lemma {:induction false} RunSpecOutcome(st: RunState, q: string, pass: (RunState, string) -> (RunState, string, Option<Outcome>), web: Web, k: int, fuel: nat)
    requires Inv(st, k) && PassOk(pass, web, k)
    ensures var run := RunSpec(st, q, pass, k, fuel);
      && !run.3.BadSelector?
      && (run.3.ReachedK? <==> run.0.count >= k)
      && (run.3.ReachedK? ==> run.0.count == Max(k, 0))
      && (run.3.QueryExhausted? ==>
          && run.1 == ""
          && SortedDesc(run.0.tuples)
          && forall i :: 0 <= i < |run.0.tuples| ==> !Eligible(run.0.tuples[i], QueryWords(run.3.lastQuery)))
      && (run.3.SearchFailed? ==> web.search(run.3.query).None?)
    decreases fuel
  {
    if st.count < k && fuel > 0 {
      var step := pass(st, q);
      assert PassPost(st, q, step, web, k);
      if step.2.None? {
        RunSpecOutcome(step.0, step.1, pass, web, k, fuel - 1);
      }
    }
  }

  /** The state main keeps in local variables. */
  class Bootstrap {
    const entitiesOfInterest: seq<string>
    const targetRel: string
    const k: int
    var q: string
    var numOfIter: nat
    var numExtracted: int
    var prevUrl: seq<string>
    var X: seq<Rel>

    function State(): RunState
      reads this
    {
      RunState(X, numExtracted, prevUrl)
    }

    function Sel(): Selection {
      Selection(entitiesOfInterest, targetRel)
    }

    ghost predicate Valid()
      reads this
    {
      Inv(State(), k)
    }

    /** project_2.py:146-155. */
    constructor (sel: Selection, seedQuery: string, k: int)
      ensures entitiesOfInterest == sel.entities && targetRel == sel.targetRel && this.k == k
      ensures q == seedQuery && numOfIter == 0
      ensures X == [] && numExtracted == 0 && prevUrl == []
      ensures Valid()
    {
      entitiesOfInterest := sel.entities;
      targetRel := sel.targetRel;
      this.k := k;
      q := seedQuery;
      numOfIter := 0;
      numExtracted := 0;
      prevUrl := [];
      X := [];
    }

    /**
     * The scan over X for one well-formed candidate with the target label
     * (project_2.py:216-227). duplicate: a more confident entry was met;
     * raised: a less confident one was met and X.pop(item) raised.
     */
    method Scan(subject: string, obj: string, confidence: real) returns (duplicate: bool, raised: bool)
      ensures match FirstConflict(X, subject, obj, confidence, 0)
        case None => !duplicate && !raised
        case Some(i) => duplicate == (X[i].confidence > confidence) && raised == (X[i].confidence < confidence)
    {
      duplicate, raised := false, false;
      var i := 0;
      while i < |X|
        invariant 0 <= i <= |X|
        invariant FirstConflict(X, subject, obj, confidence, 0) == FirstConflict(X, subject, obj, confidence, i)
      {
        var item := X[i];
        if item.subject == subject {
          if item.obj == obj {
            if item.confidence > confidence {
              duplicate := true;
              break;
            } else if item.confidence < confidence {
              raised := true;
              break;
            }
          }
        }
        i := i + 1;
      }
    }

    /** The body of the candidate loop for one key (project_2.py:209-244). */
    method MergeCandidate(c: Candidate) returns (added: bool)
      modifies this`X, this`numExtracted
      ensures added <==> Judge(old(X), targetRel, c) == Added
      ensures X == Merged(old(X), targetRel, c)
      ensures numExtracted == if added then old(numExtracted) + 1 else old(numExtracted)
    {
      added := false;
      match c
      case Malformed =>
      case Keyed(subject, relation, obj, confidence) =>
        if relation != targetRel {
          return;
        }
        var duplicate, raised := Scan(Lower(subject), Lower(obj), confidence);
        if raised {
          return;
        }
        if !duplicate {
          X := X + [Rel(confidence, Lower(subject), Lower(obj))];
          numExtracted := numExtracted + 1;
          added := true;
        }
    }

    /** The candidate loop of one page, leaving it once num_extracted reaches k (project_2.py:208-244). */
    method MergeCandidates(candidates: seq<Candidate>)
      modifies this`X, this`numExtracted
      ensures (X, numExtracted) == MergePage(old(X), old(numExtracted), targetRel, k, candidates)
    {
      var i := 0;
      while i < |candidates|
        invariant 0 <= i <= |candidates|
        invariant MergePage(X, numExtracted, targetRel, k, candidates[i..])
               == MergePage(old(X), old(numExtracted), targetRel, k, candidates)
      {
        assert candidates[i..][1..] == candidates[i + 1..];
        var added := MergeCandidate(candidates[i]);
        if added && numExtracted >= k {
          break;
        }
        i := i + 1;
      }
    }

    /** One result link (project_2.py:169-247); processed says whether the page reached the extractor. */
    method ProcessPage(link: string, web: Web) returns (processed: bool)
      modifies this`X, this`numExtracted, this`prevUrl
      ensures (State(), processed) == VisitPage(old(State()), link, web, Sel(), k)
    {
      processed := false;
      if link in prevUrl {
        return;
      }
      prevUrl := prevUrl + [link];
      var text := web.fetch(link);
      if text.None? {
        return;
      }
      var plainText := Truncate(text.value, Cap);
      var relations := web.extract(entitiesOfInterest, plainText);
      MergeCandidates(relations);
      processed := true;
    }

    /** The loop over the links of one search (project_2.py:167-249), and the invariant it keeps below k. */
    method ProcessResults(links: seq<string>, web: Web)
      modifies this`X, this`numExtracted, this`prevUrl
      ensures State() == VisitPages(old(State()), links, web, Sel(), k)
      ensures old(Valid()) && old(numExtracted) < k ==>
        Valid() && multiset(old(X)) <= multiset(X) && old(prevUrl) <= prevUrl
    {
      ghost var start := State();
      ProcessLinks(links, web);
      if old(Valid()) && start.count < k {
        VisitPagesInvariant(start, links, web, Sel(), k);
        PrefixMultiset(start.tuples, X);
      }
    }

    /** The for loop over the result links, leaving it after a processed page that reaches k (project_2.py:246-247). */
    method ProcessLinks(links: seq<string>, web: Web)
      modifies this`X, this`numExtracted, this`prevUrl
      ensures State() == VisitPages(old(State()), links, web, Sel(), k)
    {
      var i := 0;
      while i < |links|
        invariant 0 <= i <= |links|
        invariant VisitPages(State(), links[i..], web, Sel(), k) == VisitPages(old(State()), links, web, Sel(), k)
      {
        assert links[i..][1..] == links[i + 1..];
        var processed := ProcessPage(links[i], web);
        if processed && numExtracted >= k {
          break;
        }
        i := i + 1;
      }
    }

    /** update_query(X, q) (project_2.py:79-104): X is sorted in place, then the query is extended. */
    method UpdateQuery(query: string) returns (newQuery: string)
      modifies this`X
      ensures X == SortDesc(old(X))
      ensures newQuery == UpdatedQuery(old(X), query)
      ensures old(Valid()) ==> Valid()
    {
      if KeyConsistent(X) && AllLower(X) {
        SortKeepsInv(X);
      }
      X := SortDesc(X);
      newQuery := ExtendQuery(X, query);
    }

    /** One pass of the while body of main (project_2.py:159-256), entered below k. */
    method Iteration(web: Web, ghost pass: (RunState, string) -> (RunState, string, Option<Outcome>)) returns (stop: Option<Outcome>)
      requires IsStep(pass, web, Sel(), k)
      modifies this
      ensures (State(), q, stop) == pass(old(State()), old(q))
      ensures numOfIter == old(numOfIter) + 1
    {
      ghost var expected := Step(State(), q, web, Sel(), k);
      assert pass(State(), q) == expected;
      numOfIter := numOfIter + 1;
      var results := web.search(q);
      if results.None? {
        return Some(SearchFailed(q));
      }
      ProcessResults(results.value, web);
      stop := None;
      if numExtracted < k {
        var lastQuery := q;
        q := UpdateQuery(q);
        if q == "" {
          stop := Some(QueryExhausted(lastQuery));
        }
      }
    }

    /** The while loop of main (project_2.py:158-256), leaving it after fuel passes; pass is its body as a function. */
    method Loop(web: Web, fuel: nat, ghost pass: (RunState, string) -> (RunState, string, Option<Outcome>)) returns (outcome: Outcome)
      requires IsStep(pass, web, Sel(), k)
      modifies this
      ensures var spec := RunSpec(old(State()), old(q), pass, k, fuel);
        && State() == spec.0 && q == spec.1
        && numOfIter == old(numOfIter) + spec.2
        && outcome == spec.3
    {
      ghost var total := RunSpec(State(), q, pass, k, fuel);
      var start := numOfIter;
      while numExtracted < k
        invariant start <= numOfIter <= start + fuel
        invariant total == Shift(RunSpec(State(), q, pass, k, start + fuel - numOfIter), numOfIter - start)
        decreases start + fuel - numOfIter
      {
        if numOfIter == start + fuel {
          return FuelSpent;
        }
        RunSpecPass(State(), q, pass, k, start + fuel - numOfIter, numOfIter - start);
        var stop := Iteration(web, pass);
        if stop.Some? {
          return stop.value;
        }
      }
      return ReachedK;
    }

    /**
     * The bootstrapping loop of main run for at most fuel iterations. It ends
     * with k tuples, or when update_query finds nothing to add, or when a
     * search raises, or when the bound is reached.
     */
    method Run(web: Web, fuel: nat) returns (outcome: Outcome)
      requires Valid()
      modifies this
      ensures var spec := RunSpec(old(State()), old(q), Pass(web, Sel(), k), k, fuel);
        && State() == spec.0 && q == spec.1
        && numOfIter == old(numOfIter) + spec.2
        && outcome == spec.3
      ensures Valid()
      ensures !outcome.BadSelector?
      ensures outcome.ReachedK? <==> numExtracted >= k
      ensures outcome.ReachedK? ==> numExtracted == Max(k, 0)
      ensures outcome.QueryExhausted? ==>
        && q == ""
        && SortedDesc(X)
        && forall i :: 0 <= i < |X| ==> !Eligible(X[i], QueryWords(outcome.lastQuery))
      ensures outcome.SearchFailed? ==> web.search(outcome.query).None?
      ensures outcome.FuelSpent? ==> numOfIter == old(numOfIter) + fuel
      ensures old(numOfIter) <= numOfIter <= old(numOfIter) + fuel
      ensures old(prevUrl) <= prevUrl
      ensures multiset(old(X)) <= multiset(X)
    {
      PassIsOk(web, Sel(), k);
      RunSpecState(State(), q, Pass(web, Sel(), k), web, k, fuel);
      RunSpecOutcome(State(), q, Pass(web, Sel(), k), web, k, fuel);
      PassIsStep(web, Sel(), k);
      outcome := Loop(web, fuel, Pass(web, Sel(), k));
    }
  }

  /**
   * main (project_2.py:107-267) without its printing: select the relation,
   * run the loop, and report X sorted by descending confidence together with
   * num_extracted and the number of iterations.
   */
  method Start(r: int, seedQuery: string, k: int, web: Web, fuel: nat)
    returns (outcome: Outcome, results: seq<Rel>, extracted: int, iterations: nat)
    ensures outcome.BadSelector? <==> Select(r).None?
    ensures outcome.BadSelector? ==> results == [] && extracted == 0 && iterations == 0
    ensures Select(r).Some? ==>
      var spec := RunSpec(RunState([], 0, []), seedQuery, Pass(web, Select(r).value, k), k, fuel);
      && outcome == spec.3
      && results == SortDesc(spec.0.tuples)
      && extracted == spec.0.count
      && iterations == spec.2
    ensures SortedDesc(results) && KeyConsistent(results) && AllLower(results)
    ensures extracted == |results| <= Max(k, 0)
    ensures iterations <= fuel
    ensures outcome.ReachedK? ==> extracted == Max(k, 0)
    ensures outcome.QueryExhausted? || outcome.SearchFailed? || outcome.FuelSpent? ==> extracted < k
  {
    var sel := Select(r);
    if sel.None? {
      return BadSelector, [], 0, 0;
    }
    var run := new Bootstrap(sel.value, seedQuery, k);
    outcome := run.Run(web, fuel);
    SortKeepsInv(run.X);
    results := SortDesc(run.X);
    extracted := run.numExtracted;
    iterations := run.numOfIter;
  }
}
