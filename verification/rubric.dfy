/** The fixed scoring rubric (constants.ts). Weights are integers in hundredths. */
module Rubric {
  import opened Wrappers

  datatype Criterion = Criterion(id: string, name: string, weight: nat)

  /** CRITERIA: six weighted criteria in a fixed order. */
  const Criteria: seq<Criterion> := [
    Criterion("c1", "Problem Clarity", 20),
    Criterion("c2", "Structure of Policy Proposal", 10),
    Criterion("c3", "Solution Innovativeness & Feasibility", 30),
    Criterion("c4", "Potential Impact", 25),
    Criterion("c5", "Clarity of Implementation Plan", 10),
    Criterion("c6", "Overall Presentation", 5)
  ]

  /** The highest score a single criterion can receive. */
  const MaxScore: int := 5

  function Ids(criteria: seq<Criterion>): (ids: seq<string>)
    ensures |ids| == |criteria|
    ensures forall k :: 0 <= k < |criteria| ==> ids[k] == criteria[k].id
  {
    seq(|criteria|, k requires 0 <= k < |criteria| => criteria[k].id)
  }

  function TotalWeight(criteria: seq<Criterion>): nat
  {
    if criteria == [] then 0 else criteria[0].weight + TotalWeight(criteria[1..])
  }

  predicate DistinctIds(criteria: seq<Criterion>)
  {
    forall i, j :: 0 <= i < j < |criteria| ==> criteria[i].id != criteria[j].id
  }

  /** `criteria.find(c => c.id === id)`: the first criterion with that id. */
  function FindCriterion(criteria: seq<Criterion>, id: string): (r: Option<Criterion>)
    ensures r.None? <==> forall k :: 0 <= k < |criteria| ==> criteria[k].id != id
    ensures r.Some? ==> exists k :: 0 <= k < |criteria| && criteria[k] == r.value && r.value.id == id
                                     && forall j :: 0 <= j < k ==> criteria[j].id != id
  {
    if criteria == [] then None
    else if criteria[0].id == id then Some(criteria[0])
    else
      var r := FindCriterion(criteria[1..], id);
      if r.Some? then
        ghost var k :| 0 <= k < |criteria[1..]| && criteria[1..][k] == r.value && r.value.id == id
                       && forall j :: 0 <= j < k ==> criteria[1..][j].id != id;
        assert criteria[k + 1] == r.value;
        r
      else r
  }

  lemma RubricIds()
    ensures |Criteria| == 6
    ensures Ids(Criteria) == ["c1", "c2", "c3", "c4", "c5", "c6"]
  {
  }

  lemma RubricIdsDistinct()
    ensures DistinctIds(Criteria)
  {
  }

  lemma RubricWeightsPositive()
    ensures forall k :: 0 <= k < |Criteria| ==> Criteria[k].weight > 0
  {
  }

  /** The weights add up to 1.00, so all-5 scores reach the 5.00 ceiling shown in the form. */
  lemma RubricWeightsSumToOne()
    ensures TotalWeight(Criteria) == 100
  {
  }

  /** With distinct ids, looking up the id of the k-th criterion finds that criterion. */
  lemma FindCriterionAt(criteria: seq<Criterion>, k: nat)
    requires DistinctIds(criteria)
    requires k < |criteria|
    ensures FindCriterion(criteria, criteria[k].id) == Some(criteria[k])
  {
    var r := FindCriterion(criteria, criteria[k].id);
    var j :| 0 <= j < |criteria| && criteria[j] == r.value && r.value.id == criteria[k].id
             && forall i :: 0 <= i < j ==> criteria[i].id != criteria[k].id;
    if j < k { assert criteria[j].id == criteria[k].id; }
  }
}
