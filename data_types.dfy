/** The fixed list of dataset names that one run fetches, in fetch order. */
module DataTypes {

  const TYPES: seq<string> := [
    "actions", "blueprints", "collectibleResources", "equipmentItemTypes",
    "harvestLoots", "itemTypes", "itemProperties", "items",
    "jobsItems", "recipeCategories", "recipeIngredients", "recipeResults",
    "recipes", "resourceTypes", "resources", "states"
  ]

  /** Sixteen names, no name twice, and the item dataset among them. */
  lemma TypesDistinct()
    ensures |TYPES| == 16
    ensures forall i, j :: 0 <= i < j < |TYPES| ==> TYPES[i] != TYPES[j]
    ensures "items" in TYPES
  {
    assert TYPES[7] == "items";
  }
}
