/**
 * The relation selector of main (project_2.py:141-150): r picks, by Python
 * list indexing with r - 1, the entity types handed to the extractor and the
 * relation label that candidates are filtered by.
 */
module Selector {
  import opened Wrappers

  const EntitiesOfInterest: seq<seq<string>> := [
    ["ORGANIZATION", "PERSON"],
    ["ORGANIZATION", "PERSON"],
    ["ORGANIZATION", "PERSON", "LOCATION", "CITY", "STATE_OR_PROVINCE", "COUNTRY"],
    ["ORGANIZATION", "PERSON"]
  ]

  const RelationLabels: seq<string> := [
    "per:schools_attended",
    "per:employee_of",
    "per:cities_of_residence",
    "org:top_members/employees"
  ]

  /** Python's xs[i]: a negative i counts from the end; anything else out of range raises IndexError (None). */
  function PyIndex<T>(xs: seq<T>, i: int): (r: Option<T>)
    ensures r.Some? <==> -|xs| <= i < |xs|
    ensures r.Some? ==> r.value == xs[i % |xs|]
  {
    if 0 <= i < |xs| then Some(xs[i])
    else if -|xs| <= i < 0 then Some(xs[|xs| + i])
    else None
  }

  datatype Selection = Selection(entities: seq<string>, targetRel: string)

  /**
   * entities_of_interest_ls[r-1] and relation_ls[r-1]. Besides 1..4, the values
   * -3..0 also select (counting from the end of the lists); any other r raises
   * IndexError before the first search.
   */
  function Select(r: int): (sel: Option<Selection>)
    ensures sel.Some? <==> -3 <= r <= 4
    ensures sel.Some? ==> sel.value == Selection(EntitiesOfInterest[(r - 1) % 4], RelationLabels[(r - 1) % 4])
  {
    match PyIndex(EntitiesOfInterest, r - 1)
    case None => None
    case Some(entities) =>
      match PyIndex(RelationLabels, r - 1)
      case None => None
      case Some(relation) => Some(Selection(entities, relation))
  }

  /** r and r + 4 select the same relation whenever r is one of the wrapped-around values -3..0. */
  lemma SelectWrapsAround(r: int)
    requires -3 <= r <= 0
    ensures Select(r) == Select(r + 4)
  {
  }
}
