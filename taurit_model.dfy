/** The current variant's `DenormalizedModel`: the flat food list built from the SR26 tables with
    the full curated table of 150 nutrient assignments. */
module TauritModel {
  import opened Usda26Tables
  import opened DenormalizedItems
  import opened FieldLists
  import opened CuratedFields
  import opened Denormalization

  class DenormalizedModel {
    /** The flat items, one per FOOD_DES row. */
    var foodItems: seq<DenormalizedItem>

    /** Builds one new item per food, in FOOD_DES order, each a separate object equal to the
        direct join of its food with FD_GROUP and NUT_DATA over the curated codes. On an input
        that is not `Loadable` the constructor raises; `Denormalization.Run` models which exception. */
    constructor (dbModel: DatabaseRepresentation)
      requires Loadable(dbModel, TauritTable)
      ensures |foodItems| == |dbModel.foodDescription|
      ensures forall i :: 0 <= i < |foodItems| ==>
        fresh(foodItems[i]) && foodItems[i].View() == ExpectedItem(dbModel, TauritTable, dbModel.foodDescription[i])
      ensures forall i, j :: 0 <= i < j < |foodItems| ==> foodItems[i] != foodItems[j]
    {
      DenormalizeMeaning(dbModel, TauritTable);
      var items := Run(dbModel, TauritTable);
      foodItems := items.value;
    }
  }

  /** Every item carries one nutrient value per curated assignment, 150 in all. */
  lemma ItemNutrientCount(db: DatabaseRepresentation, food: FoodDescription)
    ensures ExpectedItem(db, TauritTable, food).nutrients.Keys == TableCodes(TauritTable)
    ensures |ExpectedItem(db, TauritTable, food).nutrients| == 150
  {
    CuratedOrder();
    var nutrients := ExpectedItem(db, TauritTable, food).nutrients;
    assert nutrients.Keys == TableCodes(TauritTable);
    assert |nutrients| == |nutrients.Keys|;
  }
}
