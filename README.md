# USDA SR26 denormalization engine, modelled in Dafny

This project models the denormalization engine of the USDA SR26 nutrient-database exporter. The
engine takes the normalized SR26 tables and builds one flat record per food. The tables it reads
are FOOD_DES (food descriptions), FD_GROUP (food groups), NUT_DATA (nutrient values) and NUTR_DEF
(nutrient definitions). It works in three steps:

- **Nutrient index.** `GetNutrientDictionaries` and `GetNutrientDict` map every nutrient code in
  NUTR_DEF to a dictionary. That dictionary maps the NDB number of each food with a NUT_DATA row for
  the nutrient to the row's raw value text.
- **Join and flatten.** The `DenormalizedModel` constructor builds a map from food-group code to
  group name. It then walks FOOD_DES in order. For each food it creates a `DenormalizedItem`, sets
  the item's group name, and fills the curated nutrient fields with `TryGetDecimal(index[code], foodId)`.
  The curated fields are a fixed list of (code, field) assignments. It appends every item to `FoodItems`.
- **Tolerant parsing.** `TryGetDecimal` returns no value for a missing key, a `null` text or an
  unparseable text, and otherwise returns the parsed decimal. The `DenormalizedItem` constructor
  copies the descriptive fields and sets each of the four conversion factors only when its text parses.

Both variants of the repository are modelled. `Taurit.USDADenormalizer` is the current one, with
150 curated assignments. `USDADenormalizer` is the earlier one: it has 99 assignments, two unit
suffixes differ, and it keeps a `dbModel` field. Apart from those, their helpers are the same code,
so both variants share one model of them.

The modules are:

- `Wrappers`: `Option`, `Result` and the three exceptions the engine can raise:
  - `DuplicateKey`, from `Dictionary.Add` and `ToDictionary`;
  - `KeyNotFound`, from the dictionary indexer;
  - `NullReference`, from `FirstOrDefault().NutrNo`.
- `Dictionaries`: .NET `Add`, the indexer and `ToDictionary` over a Dafny `map`.
- `DecimalParsing`: `decimal.TryParse` on a subset of the grammar, with `real` standing for `decimal`.
- `Usda26Tables`: the table rows the join reads.
- `DenormalizedItems`: the `DenormalizedItem` class and its constructor.
- `NutrientIndex`: the nutrient index and `TryGetDecimal`.
- `FieldLists` and `CuratedFields`: the curated (code, field) lists of both variants.
- `Denormalization`: the constructor's statements, and the direct join they are proved to agree with.
- `TauritModel` and `EarlierModel`: the two `DenormalizedModel` classes.

An exception becomes an `Err` result. The classes' constructors require `Loadable`, the exact
condition under which the source raises nothing. `Denormalization.Run` models which exception the
source raises otherwise.

Where the design description and the code disagree, the model follows the code:

- The description says a curated nutrient code missing from NUTR_DEF leaves that field empty. In the
  code, `nutrDictionaries[code]` raises `KeyNotFound` for such a code, as soon as there is one food.
- The description says a food with two rows for one nutrient, or a repeated group code, gets some
  deterministic tie-break. In the code, `ToDictionary` raises on both.

## Model

| member | source | states |
|---|---|---|
| Dictionaries.Add | Taurit.USDADenormalizer/Models/USDA26/DenormalizedModel.cs:216 | `Dictionary.Add` succeeds exactly when the key is new, and then stores the value under it and leaves the other keys as they were; otherwise it raises `DuplicateKey` for that key |
| Dictionaries.Get | Taurit.USDADenormalizer/Models/USDA26/DenormalizedModel.cs:41 | the indexer returns the stored value exactly when the key is present; otherwise it raises `KeyNotFound` for that key |
| Dictionaries.ToDictionaryMeaning | Taurit.USDADenormalizer/Models/USDA26/DenormalizedModel.cs:236-238 | `ToDictionary` succeeds exactly when no key repeats, and then holds exactly the given keys, each with its own value; otherwise it raises `DuplicateKey` naming a key of the input |
| DecimalParsing.TryParse | USDADenormalizer/Models/USDA26/DenormalizedItem.cs:37 | a `null` text never parses; a present text parses as `ParseDecimal` reads it |
| DecimalParsing.ParseLiteral | Taurit.USDADenormalizer/Models/USDA26/DenormalizedModel.cs:255-258 | every decimal literal (optional sign, digits, optional fractional part) parses to its exact value |
| DecimalParsing.ParsedIsLiteral | Taurit.USDADenormalizer/Models/USDA26/DenormalizedModel.cs:255-259 | conversely, whatever parses is such a literal, and the parse yields that literal's value |
| DecimalParsing.ForeignCharacterRejected | Taurit.USDADenormalizer/Models/USDA26/DenormalizedModel.cs:255-259 | in the modelled subset of the grammar, a text with a character other than a digit, `.`, `+` or `-` never parses (.NET with `NumberStyles.Any` accepts more; see "## Left out") |
| DecimalParsing.UnsignedShape | Taurit.USDADenormalizer/Models/USDA26/DenormalizedModel.cs:255-258 | an unsigned text that parses splits into valid whole and fractional digits that spell it |
| DecimalParsing.DigitsValueAppend | Taurit.USDADenormalizer/Models/USDA26/DenormalizedModel.cs:255-258 | the value of two digit strings written one after the other is the first scaled by ten to the length of the second, plus the second |
| DenormalizedItems.DenormalizedItem.constructor | USDADenormalizer/Models/USDA26/DenormalizedItem.cs:28-58 | the name, scientific name, company name, refuse description and refuse percentage are copied unchanged; each conversion factor is its own text's parse, or `null`; the group name and every nutrient stay unset |
| DenormalizedItems.FactorParsed | USDADenormalizer/Models/USDA26/DenormalizedItem.cs:36-40 | a conversion factor holds a value exactly when its text is present and spells a decimal literal, and the value is that literal's; a given literal gives its exact value |
| NutrientIndex.FirstOrDefault | Taurit.USDADenormalizer/Models/USDA26/DenormalizedModel.cs:232 | a definition is found exactly when NUTR_DEF defines the code, and the one found carries that very code, so `nutrientNumber` equals `nutrNo` |
| NutrientIndex.WhereMembers | Taurit.USDADenormalizer/Models/USDA26/DenormalizedModel.cs:237 | `Where` keeps exactly the NUT_DATA rows of the nutrient |
| NutrientIndex.WhereDistinct | Taurit.USDADenormalizer/Models/USDA26/DenormalizedModel.cs:236-238 | the kept rows have distinct NDB numbers exactly when no food has two rows for the nutrient |
| NutrientIndex.WhereDictionary | Taurit.USDADenormalizer/Models/USDA26/DenormalizedModel.cs:236-238 | the dictionary built from the kept rows has as keys exactly the foods with a row for the nutrient, each mapped to its row's value |
| NutrientIndex.GetNutrientDictMeaning | Taurit.USDADenormalizer/Models/USDA26/DenormalizedModel.cs:229-241 | `GetNutrientDict` dereferences `null` exactly for an undefined code; it succeeds exactly when the code is defined and no food repeats it, and then returns the nutrient's dictionary, which is empty for a code with no rows |
| NutrientIndex.GetNutrientDictionaries | Taurit.USDADenormalizer/Models/USDA26/DenormalizedModel.cs:208-220 | the loop over NUTR_DEF returns the fold `BuildIndex` over all definitions: the first exception raised, or the dictionaries added |
| NutrientIndex.ErrorPersists | Taurit.USDADenormalizer/Models/USDA26/DenormalizedModel.cs:212-217 | once the loop has raised, the remaining definitions do not change the outcome |
| NutrientIndex.BuildIndexMeaning | Taurit.USDADenormalizer/Models/USDA26/DenormalizedModel.cs:212-217 | after k definitions the loop has raised exactly when a code repeats among them or a food repeats one of them, and then only `DuplicateKey`; otherwise its keys are those k codes, each with its nutrient's dictionary |
| NutrientIndex.StepMeaning | Taurit.USDADenormalizer/Models/USDA26/DenormalizedModel.cs:215-216 | one iteration keeps the index correct and adds the definition's code, or raises `DuplicateKey` exactly when that code or one of its foods repeats |
| NutrientIndex.IndexMeaning | Taurit.USDADenormalizer/Models/USDA26/DenormalizedModel.cs:212-217 | the index builds exactly when NUTR_DEF has no repeated code and no food has a defined nutrient twice; then it has a key for every defined code, including codes without rows, and each holds exactly that nutrient's rows; otherwise it raises `DuplicateKey` |
| NutrientIndex.TryGetDecimal | Taurit.USDADenormalizer/Models/USDA26/DenormalizedModel.cs:250-262 | a value comes back exactly when the key is present, its text is not `null` and the text parses, and it is the parsed value; a miss, a `null` and a bad text give none, and nothing raises (the earlier variant's copy is USDADenormalizer/Models/USDA26/DenormalizedModel.cs:209-223) |
| NutrientIndex.TryGetDecimalLiteral | Taurit.USDADenormalizer/Models/USDA26/DenormalizedModel.cs:252-261 | a stored decimal literal is read back as its exact value |
| NutrientIndex.LookupAgreesWithJoin | Taurit.USDADenormalizer/Models/USDA26/DenormalizedModel.cs:250-262 | looking a food up in a correct nutrient dictionary gives what a direct scan of NUT_DATA gives |
| FieldLists.AscendingOrdered | Taurit.USDADenormalizer/Models/USDA26/DenormalizedModel.cs:46-195 | in a list whose codes ascend step by step, every code is below every later one |
| FieldLists.AscendingCodesCount | Taurit.USDADenormalizer/Models/USDA26/DenormalizedModel.cs:46-195 | an ascending list assigns as many distinct codes as it has entries, so no nutrient is assigned twice |
| CuratedFields.TauritAscending | Taurit.USDADenormalizer/Models/USDA26/DenormalizedModel.cs:46-195 | the current variant's 150 assignments read their codes in strictly ascending order |
| CuratedFields.EarlierIsCurrentPrefix | USDADenormalizer/Models/USDA26/DenormalizedModel.cs:55-153 | the earlier list is the first 99 assignments of the current one, except that 418 fills `VitaminB12_Mg` (line 113) and 578 fills `VitaminB12Added_Mg` (line 142), where the current variant fills the `_Ug` fields |
| CuratedFields.CuratedOrder | Taurit.USDADenormalizer/Models/USDA26/DenormalizedModel.cs:46-195 | both lists ascend, with 150 and 99 distinct codes |
| CuratedFields.CuratedRange | USDADenormalizer/Models/USDA26/DenormalizedModel.cs:55-153 | the earlier list covers only codes 203 to 614; the current one covers 203 to 859 |
| CuratedFields.CuratedExamples | Taurit.USDADenormalizer/Models/USDA26/DenormalizedModel.cs:46-104 | `Protein_Grams` is filled from 203 and `Energy_Kcal` from 208 in both variants; 418 fills `VitaminB12_Ug` in the current variant and `VitaminB12_Mg` in the earlier one |
| Denormalization.FoodGroupIndexMeaning | Taurit.USDADenormalizer/Models/USDA26/DenormalizedModel.cs:32 | the group map builds exactly when no group code repeats; then its keys are the group codes, each mapped to its `FdGrpDesc`; otherwise it raises `DuplicateKey` |
| Denormalization.GroupIndexAgreesWithScan | Taurit.USDADenormalizer/Models/USDA26/DenormalizedModel.cs:32-41 | with distinct codes, the group map gives a present code the description that a scan of FD_GROUP finds |
| Denormalization.FillNutrientsMeaning | Taurit.USDADenormalizer/Models/USDA26/DenormalizedModel.cs:45-195 | the curated assignments raise exactly when a curated code has no index entry, naming the first such code; otherwise each curated code gets `TryGetDecimal` of its own dictionary for the food, and nothing else in the item changes |
| Denormalization.FillIsJoin | Taurit.USDADenormalizer/Models/USDA26/DenormalizedModel.cs:45-195 | over correct dictionaries the assignments give every curated code the value a direct scan of NUT_DATA yields |
| Denormalization.FlattenFoodsMeaning | Taurit.USDADenormalizer/Models/USDA26/DenormalizedModel.cs:35-198 | the walk over FOOD_DES yields one item per food, in order, exactly when every food flattens; otherwise it raises what the first failing food raises |
| Denormalization.FlattenFoodIsJoin | Taurit.USDADenormalizer/Models/USDA26/DenormalizedModel.cs:38-195 | against the built indexes a food flattens to the directly joined item: its own fields, its group's description and the scanned nutrient values |
| Denormalization.DenormalizeMeaning | Taurit.USDADenormalizer/Models/USDA26/DenormalizedModel.cs:25-199 | the constructor raises exactly on inputs that are not `Loadable`, and then only `DuplicateKey` or `KeyNotFound`; otherwise it gives one item per food, in order, each equal to the directly joined item |
| Denormalization.FlattenFoodErrors | Taurit.USDADenormalizer/Models/USDA26/DenormalizedModel.cs:41-195 | a food fails to flatten only with `KeyNotFound`, from an unknown group code or an unindexed curated code |
| Denormalization.NoRowGivesNoValue | Taurit.USDADenormalizer/Models/USDA26/DenormalizedModel.cs:46 | a curated nutrient of a food without a NUT_DATA row for it is `null`, never zero |
| Denormalization.FillErrorPersists | Taurit.USDADenormalizer/Models/USDA26/DenormalizedModel.cs:45-195 | an exception raised by the first assignments is the one the whole list raises |
| Denormalization.FlattenItem | Taurit.USDADenormalizer/Models/USDA26/DenormalizedModel.cs:38-195 | one pass of the `foreach` body creates a new item whose state is the flattened food, or raises exactly what flattening raises |
| Denormalization.FlattenAll | Taurit.USDADenormalizer/Models/USDA26/DenormalizedModel.cs:35-198 | the `foreach` returns new, pairwise distinct items that agree one by one with the flattened foods, or the exception the first failing food raises |
| Denormalization.Run | Taurit.USDADenormalizer/Models/USDA26/DenormalizedModel.cs:25-199 | the constructor body builds the nutrient index, then the group map, then the items, and raises what `Denormalize` raises; otherwise it returns new, pairwise distinct items matching `Denormalize` |
| TauritModel.DenormalizedModel.constructor | Taurit.USDADenormalizer/Models/USDA26/DenormalizedModel.cs:25-199 | on a loadable database, `FoodItems` holds one new item per FOOD_DES row, in order, no two the same object, each equal to the directly joined item over the 150 curated codes |
| TauritModel.ItemNutrientCount | Taurit.USDADenormalizer/Models/USDA26/DenormalizedModel.cs:46-195 | every item carries exactly the 150 curated nutrients |
| EarlierModel.DenormalizedModel.constructor | USDADenormalizer/Models/USDA26/DenormalizedModel.cs:32-159 | the constructor stores the database in `dbModel`; on a loadable database `FoodItems` holds one new item per FOOD_DES row, in order, no two the same object, each equal to the directly joined item over the 99 curated codes |
| EarlierModel.ItemNutrientCount | USDADenormalizer/Models/USDA26/DenormalizedModel.cs:55-153 | every item carries exactly the 99 curated nutrients |

## Left out

- Reading the tables (the data providers and CsvHelper), the command-line program and writing the CSV are I/O. The four tables the join reads are parameters. The other eight tables of `DatabaseRepresentation` are not modelled.
- DecimalParsing.ParseDecimal: accepts only an optional leading sign, digits and an optional fractional part. `NumberStyles.Any` also accepts whitespace, currency symbols, parentheses, thousands separators, trailing signs and exponents; those forms are read as unparseable here. `decimal` overflow and rounding past 28 significant digits are not modelled, since a `real` is exact and unbounded. A `real` also drops the decimal's scale: "6.250" and "6.25" parse to the same value, while a C# `decimal` keeps three digits of scale for the first and prints it as "6.250".
- An item's nutrients are a map from nutrient code to value. The source has one named property per code. The field name for each code sits in the curated lists, and `FieldLists.AscendingCodesCount` shows that no code is assigned twice.
- TauritModel.DenormalizedModel.constructor: requires `Loadable`, because a Dafny constructor cannot raise. The exception paths are modelled in full by `Denormalization.Run` and `Denormalization.DenormalizeMeaning`.
- EarlierModel.DenormalizedModel.constructor: requires `Loadable` for the same reason; `Denormalization.Run` and `Denormalization.DenormalizeMeaning` model its exception paths.
- The current variant's own `DenormalizedItem.cs` is not part of this model. The earlier variant's copy stands for both. The properties that copy declares (`EnergyKcal`, `ProteinGrams`, at lines 74 and 79) do not match the names the driver assigns (`Energy_Kcal`, `Protein_Grams`). The curated lists follow the driver's assignments.
- The fields of FOOD_DES, NUT_DATA and NUTR_DEF that the join does not read are left out.
- Performance is not modelled: every dictionary build rescans NUT_DATA. The commented-out `.Take(5)` is also left out.
