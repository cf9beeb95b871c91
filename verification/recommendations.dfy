/**
 * The "Recommendations" tab: the ranked list of recommended movies, each with
 * its description, the first one with an explanation of why it was chosen.
 */
module Recommendations {

  /** Shown for a movie that has no description. */
  const NO_DESCRIPTION: string := "No description available."

  /** One expander of the list. */
  datatype Item = Item(rank: nat, movie: string, description: string, explained: bool)

  /** What the tab shows: a warning when there is nothing to list, else the items. */
  datatype RecommendationsView = NoneAvailable | Listed(items: seq<Item>)

  /** The description of `movie`, or the placeholder when it has none. */
  function Describe(descriptions: map<string, string>, movie: string): (r: string)
    ensures movie in descriptions ==> r == descriptions[movie]
    ensures movie !in descriptions ==> r == NO_DESCRIPTION
  {
    if movie in descriptions then descriptions[movie] else NO_DESCRIPTION
  }

  /**
   * The list: the warning exactly when there are no recommendations;
   * otherwise one item per recommendation, in order, ranked from 1, each with
   * its description, and only the first one explained.
   */
  method RenderRecommendations(recs: seq<string>, descriptions: map<string, string>)
    returns (v: RecommendationsView)
    ensures v.NoneAvailable? <==> recs == []
    ensures v.Listed? ==> |v.items| == |recs|
    ensures v.Listed? ==> forall k :: 0 <= k < |recs| ==>
              && v.items[k].rank == k + 1
              && v.items[k].movie == recs[k]
              && v.items[k].description == Describe(descriptions, recs[k])
              && (v.items[k].explained <==> k == 0)
  {
    if recs == [] {
      return NoneAvailable;
    }
    var items: seq<Item> := [];
    var i := 1;
    while i <= |recs|
      invariant 1 <= i <= |recs| + 1
      invariant |items| == i - 1
      invariant forall k :: 0 <= k < i - 1 ==>
                  items[k] == Item(k + 1, recs[k], Describe(descriptions, recs[k]), k == 0)
    {
      var movie := recs[i - 1];
      var plot := if movie in descriptions then descriptions[movie] else NO_DESCRIPTION;
      items := items + [Item(i, movie, plot, i == 1)];
      i := i + 1;
    }
    return Listed(items);
  }
}
