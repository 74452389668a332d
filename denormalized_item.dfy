/** The flat output record: one per food, with its descriptive fields, its food-group name and
    one optional decimal per curated nutrient. */
module DenormalizedItems {
  import opened Wrappers
  import opened Usda26Tables
  import opened DecimalParsing

  /** The state of a `DenormalizedItem` as a value. `nutrients` holds the curated nutrient
      fields that have been assigned, keyed by nutrient code; a code that is not a key is a
      field still at its initial `null`. */
  datatype FlatRecord = FlatRecord(
    name: NullableString,
    scientificName: NullableString,
    companyName: NullableString,
    refuseDescription: NullableString,
    refusePercentage: NullableString,
    nitrogenToProteinFactor: Option<real>,
    proteinToCaloriesFactor: Option<real>,
    fatToCaloriesFactor: Option<real>,
    carbohydratesToCaloriesFactor: Option<real>,
    foodGroupName: NullableString,
    nutrients: map<int, Option<real>>)

  /** The record as the item's constructor leaves it for a food row. */
  function Initial(food: FoodDescription): FlatRecord {
    FlatRecord(
      food.longDescription, food.sciName, food.manufacName, food.refDesc, food.refuse,
      TryParse(food.nFactor), TryParse(food.proFactor), TryParse(food.fatFactor), TryParse(food.choFactor),
      None, map[])
  }

  class DenormalizedItem {
    var name: NullableString
    var scientificName: NullableString
    var companyName: NullableString
    var refuseDescription: NullableString
    var refusePercentage: NullableString
    var nitrogenToProteinFactor: Option<real>
    var proteinToCaloriesFactor: Option<real>
    var fatToCaloriesFactor: Option<real>
    var carbohydratesToCaloriesFactor: Option<real>
    var foodGroupName: NullableString
    var nutrients: map<int, Option<real>>

    function View(): FlatRecord
      reads this
    {
      FlatRecord(
        name, scientificName, companyName, refuseDescription, refusePercentage,
        nitrogenToProteinFactor, proteinToCaloriesFactor, fatToCaloriesFactor, carbohydratesToCaloriesFactor,
        foodGroupName, nutrients)
    }

    /** Copies the descriptive fields and sets each conversion factor only when its text parses;
        the group name and the nutrient fields stay null. */
    constructor (foodItem: FoodDescription)
      ensures name == foodItem.longDescription && scientificName == foodItem.sciName
      ensures companyName == foodItem.manufacName && refuseDescription == foodItem.refDesc
      ensures refusePercentage == foodItem.refuse
      ensures nitrogenToProteinFactor == TryParse(foodItem.nFactor)
      ensures proteinToCaloriesFactor == TryParse(foodItem.proFactor)
      ensures fatToCaloriesFactor == TryParse(foodItem.fatFactor)
      ensures carbohydratesToCaloriesFactor == TryParse(foodItem.choFactor)
      ensures foodGroupName == None && nutrients == map[]
      ensures View() == Initial(foodItem)
    {
      name := foodItem.longDescription;
      scientificName := foodItem.sciName;
      companyName := foodItem.manufacName;
      refuseDescription := foodItem.refDesc;
      refusePercentage := foodItem.refuse;
      foodGroupName := None;
      nutrients := map[];

      nitrogenToProteinFactor := None;
      var nFactor := TryParse(foodItem.nFactor);
      if nFactor.Some? {
        nitrogenToProteinFactor := nFactor;
      }

      proteinToCaloriesFactor := None;
      var proFactor := TryParse(foodItem.proFactor);
      if proFactor.Some? {
        proteinToCaloriesFactor := proFactor;
      }

      fatToCaloriesFactor := None;
      var fatFactor := TryParse(foodItem.fatFactor);
      if fatFactor.Some? {
        fatToCaloriesFactor := fatFactor;
      }

      carbohydratesToCaloriesFactor := None;
      var choFactor := TryParse(foodItem.choFactor);
      if choFactor.Some? {
        carbohydratesToCaloriesFactor := choFactor;
      }
    }
  }

  /** A conversion factor holds a value exactly when its text is present and spells a decimal
      literal, and the value is then that literal's; a given literal gives its exact value. */
  lemma FactorParsed(text: NullableString, lit: DecimalLiteral)
    requires lit.Valid()
    ensures TryParse(text).Some? <==> text.Some? && exists l: DecimalLiteral :: l.Valid() && l.Text() == text.value
    ensures TryParse(text).Some? ==>
      exists l: DecimalLiteral :: l.Valid() && l.Text() == text.value && TryParse(text).value == l.Value()
    ensures text == Some(lit.Text()) ==> TryParse(text) == Some(lit.Value())
  {
    if TryParse(text).Some? {
      ParsedIsLiteral(text.value);
    }
    if text.Some? && exists l: DecimalLiteral :: l.Valid() && l.Text() == text.value {
      var l: DecimalLiteral :| l.Valid() && l.Text() == text.value;
      ParseLiteral(l);
    }
    if text == Some(lit.Text()) {
      ParseLiteral(lit);
    }
  }
}
