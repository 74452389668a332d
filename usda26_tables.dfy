/** The rows of the four SR26 tables the denormalization reads, with the fields the join uses.
    Every text field is a nullable .NET string; the numeric keys are `int`s. */
module Usda26Tables {
  import opened Wrappers

  /** A row of FOOD_DES. */
  datatype FoodDescription = FoodDescription(
    nutrientDatabankNumber: int,   // NDB number, unique per food
    foodGroup: int,                // FdGrp_Cd
    longDescription: NullableString,
    manufacName: NullableString,
    refDesc: NullableString,
    refuse: NullableString,
    sciName: NullableString,
    nFactor: NullableString,
    proFactor: NullableString,
    fatFactor: NullableString,
    choFactor: NullableString)

  /** A row of FD_GROUP. */
  datatype FoodGroupDescription = FoodGroupDescription(fdGrpCd: int, fdGrpDesc: NullableString)

  /** A row of NUT_DATA: the value of one nutrient in one food, kept as text. */
  datatype NutrientData = NutrientData(ndbNo: int, nutrNo: int, nutrVal: NullableString)

  /** A row of NUTR_DEF. */
  datatype NutrientDefinition = NutrientDefinition(nutrNo: int)

  /** The loaded database: each table in file order. */
  datatype DatabaseRepresentation = DatabaseRepresentation(
    foodDescription: seq<FoodDescription>,
    foodGroupDescription: seq<FoodGroupDescription>,
    nutrientData: seq<NutrientData>,
    nutrientDefinition: seq<NutrientDefinition>)
}
