/** The earlier variant's `DenormalizedModel`: it keeps a reference to the database it was built
    from and assigns the shorter curated table of 99 nutrients. */
module EarlierModel {
  import opened Usda26Tables
  import opened DenormalizedItems
  import opened FieldLists
  import opened CuratedFields
  import opened Denormalization

  class DenormalizedModel {
    /** The database the model was built from. */
    var dbModel: DatabaseRepresentation
    /** The flat items, one per FOOD_DES row. */
    var foodItems: seq<DenormalizedItem>

    /** Stores the database, then builds one new item per food, in FOOD_DES order, each a
        separate object equal to the direct join of its food with FD_GROUP and NUT_DATA over the
        curated codes. On an input that is not `Loadable` the constructor raises;
        `Denormalization.Run` models which exception. */
    constructor (dbModel: DatabaseRepresentation)
      requires Loadable(dbModel, EarlierTable)
      ensures this.dbModel == dbModel
      ensures |foodItems| == |dbModel.foodDescription|
      ensures forall i :: 0 <= i < |foodItems| ==>
        fresh(foodItems[i]) && foodItems[i].View() == ExpectedItem(dbModel, EarlierTable, dbModel.foodDescription[i])
      ensures forall i, j :: 0 <= i < j < |foodItems| ==> foodItems[i] != foodItems[j]
    {
      this.dbModel := dbModel;
      DenormalizeMeaning(dbModel, EarlierTable);
      var items := Run(dbModel, EarlierTable);
      foodItems := items.value;
    }
  }

  /** Every item carries one nutrient value per curated assignment, 99 in all. */
  lemma ItemNutrientCount(db: DatabaseRepresentation, food: FoodDescription)
    ensures ExpectedItem(db, EarlierTable, food).nutrients.Keys == TableCodes(EarlierTable)
    ensures |ExpectedItem(db, EarlierTable, food).nutrients| == 99
  {
    CuratedOrder();
    var nutrients := ExpectedItem(db, EarlierTable, food).nutrients;
    assert nutrients.Keys == TableCodes(EarlierTable);
    assert |nutrients| == |nutrients.Keys|;
  }
}
