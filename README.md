# Iterative set expansion: a Dafny model of the bootstrapping loop

`project_2.py` extracts relation tuples (subject, relation, object) from web
pages by iterative set expansion. It starts from a seed query and a relation
selector `r` (1 Schools_Attended, 2 Work_For, 3 Live_In, 4
Top_Member_Employees), then repeats these steps:

1. Issue a web search.
2. Visit every result link it has not visited before.
3. Truncate the page text to 20000 characters.
4. Merge the target-relation candidates the extractor finds into the list `X`.
5. Stop once `k` tuples are held.
6. Otherwise extend the query with the words of the most confident tuple
   that is not yet in it, and go round again.

The project models that control logic as the code runs. The modules are:

- `Wrappers`: `Option`, `Max`, `Min`.
- `Text`: `str.split()` and `' '.join` (with the round trip between them),
  lower-casing, and `truncate_plain_text`.
- `Tuples`: the record kept in `X` and the stable descending sort by
  confidence. The sort is proved to be the unique stable order.
- `Query`: `update_query`, as the specification function `UpdatedQuery`
  (sort, then `NextQuery`). The scan loop `ExtendQuery` is proved equal to
  `NextQuery` for every `X` and `q`, and `Bootstrap.UpdateQuery` leaves `X`
  as `SortDesc(old X)` and returns `UpdatedQuery(old X, q)`.
- `Merge`: the duplicate check and append for one candidate, and the
  candidate loop of one page with its early exit at `k`.
- `Selector`: the `r`-indexed tables of entity types and relation labels,
  with Python's list indexing.
- `Controller`: the state of `main` as a class `Bootstrap`.
  - Its fields are `q`, `numOfIter`, `numExtracted`, `prevUrl` and `X`.
  - Its methods are proved against the specification functions
    `MergePage`, `VisitPage`, `VisitPages`, `UpdatedQuery`, `Step` (one pass
    of the while body) and `RunSpec` (the whole loop, bounded by `fuel`).
  - `Inv` is preserved throughout. It says the counter equals `|X|` and
    never exceeds max(k, 0), no URL is fetched twice, each subject and object
    pair carries one confidence, and every subject and object is lower-case.

The search engine, the page fetcher and the spaCy/SpanBERT extractor are
parameters (`Controller.Web`). They are total functions:

- a search that raises gives `None`;
- a fetch that fails gives `None`;
- the extractor returns its dict keys in order, as `Merge.Candidate`s. It
  stands for `extract_relations` specialised to the run's `r` and `t`
  (project_2.py:202 passes both), so it receives only the entity list and
  the text.

## Where the code differs from its comments

The model follows the code, and these behaviours are proved about it:

- The comment at project_2.py:214 says a candidate with a higher confidence
  replaces the existing entry. The code calls `X.pop(item)` with a dict. That
  raises `TypeError`, which the `except` at line 242 swallows, so the
  candidate is dropped and `X` is unchanged (`Merge.JudgeByAnyMatch`).
- An existing entry with the same key and the *same* confidence is passed
  over by the scan, so the candidate is appended again as a duplicate.
  Merging the same candidate twice therefore appends it twice
  (`Merge.RemergeDuplicates`).
- The counter never goes out of step with `X`, because the decrement at
  line 225 is never reached (`Controller.Inv`).
- `r` outside 1..4 is not rejected. Python indexing makes -3..0 select the
  same entity list and relation label as `r + 4`
  (`Selector.SelectWrapsAround`), and any other value raises `IndexError`
  before the first search. Runs with `r` and `r + 4` need not agree all the
  same, because the extractor still receives the raw `r`.
- A tuple whose subject and object both contain a space never matches a
  query word (`Query.MultiWordStaysEligible`). Such a tuple stays eligible,
  so the query can keep growing without `update_query` ever returning `''`.
  Termination is therefore not claimed, and `Run` takes an iteration bound.

## Model

| member | source | states |
|---|---|---|
| Text.Lower | project_2.py:86 | each character is kept or is an ASCII upper-case letter moved 32 code points up to its lower-case form, so the result has the input's length and no upper-case letter; a lower-case string is left unchanged; a whitespace-free word stays a word |
| Text.Split | project_2.py:85 | every piece `q.split()` yields is non-empty and holds no whitespace; what the pieces are is stated by `Text.SplitKeepsText`, `Text.SplitWord` and `Text.SplitAtSpace` |
| Text.SplitKeepsText | project_2.py:85 | the pieces of `split()`, concatenated, are exactly the non-whitespace characters of the input, in order |
| Text.SplitJoin | project_2.py:85-94 | splitting `' '.join(ws)` gives back `ws` whenever every element of `ws` is a whitespace-free word |
| Text.SplitWord | project_2.py:85 | a whitespace-free word splits into itself alone |
| Text.SplitAtSpace | project_2.py:85 | pieces break at every whitespace character: splitting a, a whitespace character, then b gives the pieces of a followed by those of b |
| Text.SplitLower | project_2.py:85-86 | lower-casing each piece of `s.split()` gives the pieces of the lower-cased `s` |
| Text.Join | project_2.py:94 | `' '.join`: no words give `''`, one word gives itself, and two or more give a non-empty string; its partner is `Text.SplitJoin` |
| Text.PrefixSlice | project_2.py:73 | Python's `s[:stop]`: a prefix of `s` whose length is `stop` clamped to `len(s)`, or for a negative stop `len(s) + stop` clamped at 0 |
| Text.Truncate | project_2.py:65-76 | the result is a prefix of the text; a text no longer than the cap is returned unchanged; otherwise the result's length is the cap (Python slice semantics for a negative cap) |
| Text.TruncateIdempotent | project_2.py:65-76 | truncating twice with the same non-negative cap is the same as truncating once |
| Tuples.Insert | project_2.py:82 | inserting into a descending sequence keeps it descending and adds exactly the element to the multiset |
| Tuples.SortDesc | project_2.py:82 | `X.sort(key=confidence, reverse=True)` yields a sequence that is non-increasing in confidence and a permutation of `X` |
| Tuples.SortDescStable | project_2.py:82 | the sort is stable: for every confidence value, the entries with that value keep their original relative order |
| Tuples.StableOrderUnique | project_2.py:82 | two descending sequences that agree on the order within every confidence value are equal |
| Tuples.StableSortIsSortDesc | project_2.py:82 | any descending, stable rearrangement of `X` (which is what Python's list.sort guarantees) equals `SortDesc(X)` |
| Query.QueryWords | project_2.py:85-86 | `q_words` has one element per piece of `q.split()`, each a lower-case whitespace-free word; `Query.QueryWordsLowered` says which words |
| Query.QueryWordsLowered | project_2.py:85-86 | word i of `q_words` is piece i of the lower-cased query split on whitespace |
| Query.Extended | project_2.py:88-98 | the scan of `update_query` over `X` in order: when it extends `q_words`, it keeps them as they were and adds exactly two words; which ones is stated by `Query.ExtendedNone` and `Query.ExtendedFirst` |
| Query.NextQuery | project_2.py:84-104 | `update_query` on an `X` already in sorted order returns `''` exactly when the scan finds no tuple, and a non-empty query otherwise |
| Query.UpdatedQuery | project_2.py:79-104 | `update_query(X, q)` returns `''` exactly when no tuple of `X` has both its object and its subject outside the words of `q`; the sort does not change that |
| Query.ExtendedNone | project_2.py:88-98 | the scan finds nothing exactly when every tuple has its object or its subject among the query words; when it finds one, it adds exactly two words |
| Query.ExtendedFirst | project_2.py:89-96 | the scan extends `q_words` with the object and then the subject of the first tuple, in list order, whose object and subject are both new |
| Query.NextQueryEmptyIff | project_2.py:100-102 | `update_query` returns `''` if and only if no tuple has both its object and its subject outside the query's words |
| Query.NextQueryFirstEligible | project_2.py:89-104 | otherwise it returns the lower-cased query words, single-space joined, followed by that first eligible tuple's object and subject |
| Query.LowerWords | project_2.py:85-94 | re-splitting a query built from lower-case words gives those words back |
| Query.NextQueryAddsWords | project_2.py:89-94 | when the chosen object and subject are single lower-case words, the next call sees exactly the old words plus those two, and that tuple is no longer eligible |
| Query.MultiWordStaysEligible | project_2.py:90-91 | a tuple whose object and subject are both not single words is eligible for every query |
| Query.ExtendQuery | project_2.py:84-104 | the loop of `update_query` returns the string `NextQuery` specifies, for every `X` and `q` |
| Merge.FirstConflict | project_2.py:216-227 | the scan over `X` stops at the first entry with the candidate's lower-cased key and a different confidence; it finds none exactly when every entry with that key has the candidate's confidence |
| Merge.Judge | project_2.py:209-244 | the branch the loop body takes for one key: malformed exactly for a key that is not a well-formed tuple, off target exactly for another label, and appended exactly when every entry with the lower-cased subject and object has the candidate's confidence; otherwise outranked or `pop` raised (`Merge.JudgeByAnyMatch`) |
| Merge.Merged | project_2.py:229-235 | `X` after one key: `X` itself or `X` with one more entry at the end, and that entry is the lower-cased candidate |
| Merge.MergedSpec | project_2.py:208-244 | a candidate is appended, lower-cased, exactly when its key is well formed, its label is `target_rel`, and every existing entry with its key has its confidence; otherwise `X` is unchanged |
| Merge.OffTargetUnchanged | project_2.py:209-211 | a key of another relation, or a malformed key, leaves `X` unchanged |
| Merge.JudgeByAnyMatch | project_2.py:216-235 | when entries agree per key, any entry with the candidate's key decides: equal confidence appends, a more confident entry keeps the candidate out, and a less confident entry makes `pop` raise, which also keeps it out |
| Merge.MergedKeyConsistent | project_2.py:216-235 | after a merge, entries with the same subject and object still carry one confidence |
| Merge.MergedAllLower | project_2.py:230-234 | after a merge, every subject and object in `X` is still lower-case |
| Merge.RemergeDuplicates | project_2.py:216-235 | merging an appended candidate a second time appends it again, so `X` ends with two copies |
| Merge.MergePage | project_2.py:208-237 | the keys of one page merged in order: `X` only grows, the counter grows by exactly the number of entries appended, and a page started below `k` leaves the counter at most `k` because the loop is left right after the k-th append |
| Merge.MergePageInvariant | project_2.py:208-237 | over one page, starting below `k`: the counter stays equal to `len(X)` and at most `k`, `X` only grows, only entries of target-labelled candidates are added, and one confidence per key and lower case are kept |
| Merge.MergePageOffTarget | project_2.py:208-211 | a page whose keys are all malformed or of another relation changes neither `X` nor the counter |
| Selector.PyIndex | project_2.py:146 | Python list indexing: defined exactly for -len..len-1, a negative index counting from the end |
| Selector.Select | project_2.py:141-150 | `r` selects exactly when -3 <= r <= 4, giving the entity list and relation label at position (r-1) mod 4 |
| Selector.SelectWrapsAround | project_2.py:146-150 | r in -3..0 selects the same relation as r + 4 |
| Controller.Inv | project_2.py:152-256 | what the loop keeps: the counter equals `len(X)` and is at most max(k, 0), `prev_url` has no repeats, one confidence per subject and object pair, and lower case; a state with `Inv` whose counter reached `k` holds exactly max(k, 0) tuples |
| Controller.VisitPage | project_2.py:169-247 | one link ends up in `prev_url`, which only grows; the page reaches the extractor exactly when the link was new and the fetch succeeded, and otherwise `X` and the counter are unchanged |
| Controller.VisitPages | project_2.py:167-249 | the links of one search in order: `prev_url` only grows, and unless the counter reached `k` every link is in it |
| Controller.VisitPageInvariant | project_2.py:169-247 | one link, below `k`: `Inv` is kept, `X` only grows, the link is added to `prev_url` exactly when it was not there, and a skipped or failed page leaves `X` and the counter unchanged |
| Controller.VisitPagesInvariant | project_2.py:167-249 | one search's links: `Inv` is kept, `X` and `prev_url` only grow, and unless `k` was reached every link is in `prev_url` |
| Controller.Step | project_2.py:159-256 | one pass of the while body: it leaves the loop only with a failed search, exactly when the search raised, or with `update_query` returning `''` for the query used, and the new query is then `''`; `prev_url` only grows |
| Controller.RunSpec | project_2.py:158-256 | the while loop for at most `fuel` passes, with the condition `num_extracted < k` tested before each: it makes at most `fuel` passes, and none exactly when the counter already reached `k` or no fuel is left |
| Controller.StepInvariant | project_2.py:159-256 | a pass entered below `k` with `Inv` keeps `Inv`, only adds to `X` and `prev_url`, and leaves the loop early only below `k`: after a raising search that changed nothing, or with `q == ''`, `X` sorted and no tuple eligible for the query just used |
| Controller.RunSpecState | project_2.py:158-256 | a run from a state with `Inv` ends with `Inv`, `X` and `prev_url` only grown, and at most `fuel` passes, all of them when the bound ended it |
| Controller.RunSpecOutcome | project_2.py:158-256 | a run from a state with `Inv` ends with `k` tuples exactly when the counter reached `k`, and then holds exactly max(k, 0); with `''` only when `X` is sorted and no tuple is eligible for the last query; with a failed search only when that search raised |
| Controller.SortKeepsInv | project_2.py:82 | sorting `X` keeps one confidence per key and lower case |
| Controller.Bootstrap.constructor | project_2.py:146-155 | the loop starts with no iterations, an empty `X`, a zero counter and an empty `prev_url`, and `Inv` holds |
| Controller.Bootstrap.Scan | project_2.py:216-227 | the scan loop reports a duplicate or a raising `pop` exactly as `FirstConflict` says |
| Controller.Bootstrap.MergeCandidate | project_2.py:209-244 | one candidate: `X` becomes `Merged(X, target_rel, c)`, and the counter grows by one exactly when the candidate was appended |
| Controller.Bootstrap.MergeCandidates | project_2.py:208-244 | the candidate loop leaves `X` and the counter as `MergePage` specifies, including the exit right after the k-th append |
| Controller.Bootstrap.ProcessPage | project_2.py:169-247 | one link leaves the state as `VisitPage` specifies |
| Controller.Bootstrap.ProcessLinks | project_2.py:167-249 | the link loop leaves the state as `VisitPages` specifies, including the exit after a page that reaches `k` |
| Controller.Bootstrap.ProcessResults | project_2.py:167-249 | the link loop as `VisitPages` specifies; entered below `k` with `Inv`, it keeps `Inv`, and `X` and `prev_url` only grow |
| Controller.Bootstrap.Iteration | project_2.py:159-256 | one pass of the while body leaves the state, the query and the stop signal exactly as `Step` of the old state and query (through `pass`, which `Controller.IsStep` ties to `Step`), and counts one iteration |
| Controller.Bootstrap.Loop | project_2.py:158-256 | the while loop leaves the state, the query, the iteration count and the outcome exactly as `RunSpec` of the old state and query |
| Controller.Bootstrap.UpdateQuery | project_2.py:79-104 | `X` is sorted in place and the returned query is `UpdatedQuery(old X, q)` |
| Controller.Bootstrap.Run | project_2.py:158-256 | the final state, query, iteration count and outcome are `RunSpec` of the old state and query with `Step` as the pass; `Inv` is kept; the loop ends with k tuples exactly when the counter reached k, and then holds exactly max(k, 0); it ends with an empty query only when `X` is sorted and no tuple is eligible for the last query; `X` only gains entries and `prev_url` only grows |
| Controller.Start | project_2.py:107-267 | an invalid `r` is reported; otherwise the outcome, the count and the iterations are those of `RunSpec` from the empty state and the seed query, and the result is its `X` sorted by descending confidence (line 262), with one confidence per key and lower case; its length is the count, which is at most max(k, 0), exactly max(k, 0) when k was reached, and below k otherwise |

## Left out

- Network I/O: `initiate_query` (Google Custom Search) and `extract_plain_text` (requests and BeautifulSoup, with NFKD normalisation) are not modelled. They are the `search` and `fetch` parameters of `Controller.Web`.
- A search response without `items`, or a search that raises, ends the script with an uncaught exception. The model returns `SearchFailed`. `Controller.Start` still hands back the state at that point, which the script would not print.
- spaCy and SpanBERT (`extract_relations`), including the threshold `t`, are the `extract` parameter. `t` is only forwarded by the source, so it is not a parameter of the model.
- `signal.alarm(20)` is not modelled. No SIGALRM handler is installed, so a fetch longer than 20 seconds ends the process instead of raising. A failed fetch is modelled as a skipped page, and timing is not modelled.
- Argument parsing and all `print` output are not modelled.
- Text.Lower: only ASCII letters are lower-cased. Python's `str.lower()` also maps other Unicode upper-case letters, and a few of them to several characters.
- Merge.Judge: a key that is not a (subject, relation, object) tuple of strings is `MalformedKey` even when its second element differs from `target_rel`. The script skips it as off-target in that case. The effect on `X` is the same: nothing changes.
- Controller.Bootstrap.Run: bounded by `fuel` iterations (`FuelSpent`), because the source's loop need not terminate. The postconditions hold for every bound.
- Page contents and the candidates found on them are arbitrary, so no claim is made that a run ever reaches `k`.
