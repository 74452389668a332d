/** The join and flatten driver shared by both `DenormalizedModel` constructors: the food-group
    index, the per-food flattening against the nutrient index, and the walk over FOOD_DES. The
    curated table of (code, field) assignments is a parameter; each variant passes its own. */
module Denormalization {
  import opened Wrappers
  import opened Dictionaries
  import opened DecimalParsing
  import opened Usda26Tables
  import opened NutrientIndex
  import opened DenormalizedItems
  import opened FieldLists

  // ---------------------------------------------------------------------------
  // The food-group index: `foodGroupDescription.ToDictionary(g => g.FdGrpCd, g => g.FdGrpDesc)`

  /** The `(FdGrpCd, FdGrpDesc)` pairs `ToDictionary` is given. */
  function GroupPairs(groups: seq<FoodGroupDescription>): (pairs: seq<(int, NullableString)>)
    ensures |pairs| == |groups|
    ensures forall i :: 0 <= i < |groups| ==> pairs[i] == (groups[i].fdGrpCd, groups[i].fdGrpDesc)
  {
    seq(|groups|, i requires 0 <= i < |groups| => (groups[i].fdGrpCd, groups[i].fdGrpDesc))
  }

  function FoodGroupIndex(groups: seq<FoodGroupDescription>): Result<map<int, NullableString>> {
    ToDictionary(GroupPairs(groups))
  }

  /** No group code occurs twice in FD_GROUP. */
  ghost predicate DistinctGroupCodes(groups: seq<FoodGroupDescription>) {
    forall i, j :: 0 <= i < j < |groups| ==> groups[i].fdGrpCd != groups[j].fdGrpCd
  }

  /** The group codes of FD_GROUP. */
  ghost function GroupCodes(groups: seq<FoodGroupDescription>): set<int> {
    set i | 0 <= i < |groups| :: groups[i].fdGrpCd
  }

  /** The food-group index raises exactly on a repeated group code; otherwise every group code
      maps to its own description. */
  lemma FoodGroupIndexMeaning(groups: seq<FoodGroupDescription>)
    ensures FoodGroupIndex(groups).Ok? <==> DistinctGroupCodes(groups)
    ensures FoodGroupIndex(groups).Ok? ==> FoodGroupIndex(groups).value.Keys == GroupCodes(groups)
    ensures FoodGroupIndex(groups).Ok? ==>
      forall i :: 0 <= i < |groups| ==> FoodGroupIndex(groups).value[groups[i].fdGrpCd] == groups[i].fdGrpDesc
    ensures FoodGroupIndex(groups).Err? ==> FoodGroupIndex(groups).error.DuplicateKey?
  {
    var pairs := GroupPairs(groups);
    ToDictionaryMeaning(pairs);
    assert Distinct(Keys(pairs)) <==> DistinctGroupCodes(groups) by {
      if Distinct(Keys(pairs)) {
        forall i, j | 0 <= i < j < |groups| ensures groups[i].fdGrpCd != groups[j].fdGrpCd {
          assert Keys(pairs)[i] != Keys(pairs)[j];
        }
      }
    }
    if FoodGroupIndex(groups).Ok? {
      assert (set i | 0 <= i < |pairs| :: pairs[i].0) == GroupCodes(groups) by {
        forall i | 0 <= i < |groups| ensures pairs[i].0 == groups[i].fdGrpCd {
        }
      }
      forall i | 0 <= i < |groups|
        ensures FoodGroupIndex(groups).value[groups[i].fdGrpCd] == groups[i].fdGrpDesc
      {
        assert pairs[i] == (groups[i].fdGrpCd, groups[i].fdGrpDesc);
      }
    }
  }

  /** The description a direct scan of FD_GROUP finds for a group code: the first match. */
  function GroupDescription(groups: seq<FoodGroupDescription>, code: int): (r: Option<NullableString>)
    ensures r.Some? <==> code in GroupCodes(groups)
    ensures r.Some? ==> exists i :: 0 <= i < |groups| && groups[i].fdGrpCd == code && groups[i].fdGrpDesc == r.value
    decreases |groups|
  {
    if groups == [] then None
    else if groups[0].fdGrpCd == code then Some(groups[0].fdGrpDesc)
    else
      var r := GroupDescription(groups[1..], code);
      assert forall i :: 0 < i < |groups| ==> groups[i] == groups[1..][i - 1];
      assert code in GroupCodes(groups) ==> code in GroupCodes(groups[1..]) by {
        if code in GroupCodes(groups) {
          var i :| 0 <= i < |groups| && groups[i].fdGrpCd == code;
          assert groups[1..][i - 1].fdGrpCd == code;
        }
      }
      r
  }

  /** With distinct codes the index and the direct scan agree. */
  lemma GroupIndexAgreesWithScan(groups: seq<FoodGroupDescription>, code: int)
    requires DistinctGroupCodes(groups)
    requires code in GroupCodes(groups)
    ensures FoodGroupIndex(groups).Ok? && code in FoodGroupIndex(groups).value
    ensures Some(FoodGroupIndex(groups).value[code]) == GroupDescription(groups, code)
  {
    FoodGroupIndexMeaning(groups);
    var i :| 0 <= i < |groups| && groups[i].fdGrpCd == code && groups[i].fdGrpDesc == GroupDescription(groups, code).value;
  }

  // ---------------------------------------------------------------------------
  // Flattening one food

  /** The curated assignments in order: each looks its code up in the index with the indexer
      (a missing code raises) and stores `TryGetDecimal` of the food's id. */
  function FillNutrients(item: FlatRecord, index: NutrientDictionaries, table: seq<NutrientField>, foodId: int)
    : Result<FlatRecord>
    decreases |table|
  {
    if table == [] then Ok(item)
    else
      var last := table[|table| - 1];
      match FillNutrients(item, index, table[..|table| - 1], foodId)
      case Err(e) => Err(e)
      case Ok(filled) =>
        match Get(index, last.code)
        case Err(e) => Err(e)
        case Ok(dict) => Ok(filled.(nutrients := filled.nutrients[last.code := TryGetDecimal(dict, foodId)]))
  }

  /** The assignments raise exactly when a curated code is not in the index, and then name the
      first such code; otherwise they set each curated code's field to the lookup of its own
      dictionary and change nothing else. */
  lemma FillNutrientsMeaning(item: FlatRecord, index: NutrientDictionaries, table: seq<NutrientField>, foodId: int)
    ensures FillNutrients(item, index, table, foodId).Ok? <==> forall k :: 0 <= k < |table| ==> table[k].code in index
    ensures FillNutrients(item, index, table, foodId).Err? ==>
      exists k :: 0 <= k < |table| && table[k].code !in index
        && FillNutrients(item, index, table, foodId).error == KeyNotFound(table[k].code)
        && forall j :: 0 <= j < k ==> table[j].code in index
    ensures FillNutrients(item, index, table, foodId).Ok? ==>
      && FillNutrients(item, index, table, foodId).value.(nutrients := item.nutrients) == item
      && FillNutrients(item, index, table, foodId).value.nutrients.Keys == item.nutrients.Keys + TableCodes(table)
      && (forall c :: c in TableCodes(table) ==>
            FillNutrients(item, index, table, foodId).value.nutrients[c] == TryGetDecimal(index[c], foodId))
      && (forall c :: c in item.nutrients && c !in TableCodes(table) ==>
            FillNutrients(item, index, table, foodId).value.nutrients[c] == item.nutrients[c])
  {
    FillNutrientsOutcome(item, index, table, foodId);
    if FillNutrients(item, index, table, foodId).Ok? {
      FillNutrientsStores(item, index, table, foodId);
    }
  }

  /** When the assignments succeed and when they raise, and with which key. */
  lemma {:induction false} FillNutrientsOutcome(item: FlatRecord, index: NutrientDictionaries, table: seq<NutrientField>, foodId: int)
    ensures FillNutrients(item, index, table, foodId).Ok? <==> forall k :: 0 <= k < |table| ==> table[k].code in index
    ensures FillNutrients(item, index, table, foodId).Err? ==>
      exists k :: 0 <= k < |table| && table[k].code !in index
        && FillNutrients(item, index, table, foodId).error == KeyNotFound(table[k].code)
        && forall j :: 0 <= j < k ==> table[j].code in index
    decreases |table|
  {
    if table != [] {
      var init, last := table[..|table| - 1], table[|table| - 1];
      FillNutrientsOutcome(item, index, init, foodId);
      assert forall k :: 0 <= k < |init| ==> init[k] == table[k];
      if FillNutrients(item, index, init, foodId).Ok? && last.code !in index {
        assert forall j :: 0 <= j < |init| ==> table[j].code in index;
      }
    }
  }

  /** What succeeding assignments store. */
  lemma {:induction false} FillNutrientsStores(item: FlatRecord, index: NutrientDictionaries, table: seq<NutrientField>, foodId: int)
    requires FillNutrients(item, index, table, foodId).Ok?
    ensures TableCodes(table) <= index.Keys
    ensures FillNutrients(item, index, table, foodId).value.(nutrients := item.nutrients) == item
    ensures FillNutrients(item, index, table, foodId).value.nutrients.Keys == item.nutrients.Keys + TableCodes(table)
    ensures forall c :: c in TableCodes(table) ==>
      FillNutrients(item, index, table, foodId).value.nutrients[c] == TryGetDecimal(index[c], foodId)
    ensures forall c :: c in item.nutrients && c !in TableCodes(table) ==>
      FillNutrients(item, index, table, foodId).value.nutrients[c] == item.nutrients[c]
    decreases |table|
  {
    if table != [] {
      var init, last := table[..|table| - 1], table[|table| - 1];
      var filled := FillNutrients(item, index, init, foodId).value;
      FillNutrientsStores(item, index, init, foodId);
      assert last.code in index;
      var stored := filled.nutrients[last.code := TryGetDecimal(index[last.code], foodId)];
      assert FillNutrients(item, index, table, foodId).value == filled.(nutrients := stored);
      assert TableCodes(table) == TableCodes(init) + {last.code} by {
        assert forall k :: 0 <= k < |init| ==> init[k] == table[k];
        assert forall k :: 0 <= k < |init| ==> table[k].code in TableCodes(init);
      }
    }
  }

  /** `flatItem` after the constructor, the group-name assignment and the curated assignments:
      an unknown group code raises at the group lookup, before any nutrient is read. */
  function FlattenFood(food: FoodDescription, groups: map<int, NullableString>, index: NutrientDictionaries,
                       table: seq<NutrientField>): Result<FlatRecord>
  {
    match Get(groups, food.foodGroup)
    case Err(e) => Err(e)
    case Ok(name) => FillNutrients(Initial(food).(foodGroupName := name), index, table, food.nutrientDatabankNumber)
  }

  /** The loop over FOOD_DES: the items in table order, or the first exception raised. */
  function FlattenFoods(foods: seq<FoodDescription>, groups: map<int, NullableString>, index: NutrientDictionaries,
                        table: seq<NutrientField>): Result<seq<FlatRecord>>
    decreases |foods|
  {
    if foods == [] then Ok([])
    else
      match FlattenFoods(foods[..|foods| - 1], groups, index, table)
      case Err(e) => Err(e)
      case Ok(items) =>
        match FlattenFood(foods[|foods| - 1], groups, index, table)
        case Err(e) => Err(e)
        case Ok(item) => Ok(items + [item])
  }

  /** The loop yields one item per food, in order, exactly when every food flattens. */
  lemma {:induction false} FlattenFoodsMeaning(foods: seq<FoodDescription>, groups: map<int, NullableString>,
                                               index: NutrientDictionaries, table: seq<NutrientField>)
    ensures FlattenFoods(foods, groups, index, table).Ok? <==>
      forall i :: 0 <= i < |foods| ==> FlattenFood(foods[i], groups, index, table).Ok?
    ensures FlattenFoods(foods, groups, index, table).Ok? ==>
      && |FlattenFoods(foods, groups, index, table).value| == |foods|
      && forall i :: 0 <= i < |foods| ==>
           FlattenFoods(foods, groups, index, table).value[i] == FlattenFood(foods[i], groups, index, table).value
    ensures FlattenFoods(foods, groups, index, table).Err? ==>
      exists i :: 0 <= i < |foods| && FlattenFood(foods[i], groups, index, table).Err?
        && FlattenFoods(foods, groups, index, table).error == FlattenFood(foods[i], groups, index, table).error
        && forall j :: 0 <= j < i ==> FlattenFood(foods[j], groups, index, table).Ok?
    decreases |foods|
  {
    if foods != [] {
      var init := foods[..|foods| - 1];
      FlattenFoodsMeaning(init, groups, index, table);
      assert forall i :: 0 <= i < |init| ==> init[i] == foods[i];
    }
  }

  // ---------------------------------------------------------------------------
  // The whole constructor, and the direct join it agrees with

  /** What the constructor computes from the database: the nutrient index first, then the
      food-group index, then the items; the first exception raised stops it. */
  ghost function Denormalize(db: DatabaseRepresentation, table: seq<NutrientField>): Result<seq<FlatRecord>> {
    match BuildIndex(db, |db.nutrientDefinition|)
    case Err(e) => Err(e)
    case Ok(index) =>
      match FoodGroupIndex(db.foodGroupDescription)
      case Err(e) => Err(e)
      case Ok(groups) => FlattenFoods(db.foodDescription, groups, index, table)
  }

  /** The inputs on which the constructor raises nothing: the nutrient index builds, the group
      codes are distinct, every food's group is in FD_GROUP and, as soon as there is a food,
      every curated code is defined in NUTR_DEF. */
  ghost predicate Loadable(db: DatabaseRepresentation, table: seq<NutrientField>) {
    && IndexBuilds(db)
    && DistinctGroupCodes(db.foodGroupDescription)
    && (forall i :: 0 <= i < |db.foodDescription| ==> db.foodDescription[i].foodGroup in GroupCodes(db.foodGroupDescription))
    && (db.foodDescription != [] ==> TableCodes(table) <= DefinedCodes(db.nutrientDefinition))
  }

  /** The item a direct join of the tables gives a food: its own fields, the description of its
      group, and for each curated code the value found by scanning NUT_DATA. */
  ghost function ExpectedItem(db: DatabaseRepresentation, table: seq<NutrientField>, food: FoodDescription): FlatRecord {
    var groupName := match GroupDescription(db.foodGroupDescription, food.foodGroup)
      case None => None
      case Some(description) => description;
    Initial(food).(
      foodGroupName := groupName,
      nutrients := JoinedNutrients(db.nutrientData, table, food.nutrientDatabankNumber))
  }

  /** The curated nutrients a direct join gives a food: each curated code mapped to the value
      found by scanning NUT_DATA for the food's row with that code. */
  ghost function JoinedNutrients(data: seq<NutrientData>, table: seq<NutrientField>, foodId: int): map<int, Option<real>> {
    map c | c in TableCodes(table) :: JoinedDecimal(data, foodId, c)
  }

  /** Filling an item with no nutrients yet from dictionaries that each index NUT_DATA by food
      gives the directly joined nutrients. */
  lemma FillIsJoin(base: FlatRecord, index: NutrientDictionaries, data: seq<NutrientData>,
                   table: seq<NutrientField>, foodId: int)
    requires base.nutrients == map[]
    requires forall c :: c in TableCodes(table) ==> c in index && IsNutrientDictionary(index[c], data, c)
    ensures FillNutrients(base, index, table, foodId) == Ok(base.(nutrients := JoinedNutrients(data, table, foodId)))
  {
    FillNutrientsMeaning(base, index, table, foodId);
    assert forall k :: 0 <= k < |table| ==> table[k].code in index by {
      forall k | 0 <= k < |table| ensures table[k].code in index {
        assert table[k].code in TableCodes(table);
      }
    }
    var filled := FillNutrients(base, index, table, foodId).value;
    forall c | c in TableCodes(table) ensures filled.nutrients[c] == JoinedDecimal(data, foodId, c) {
      LookupAgreesWithJoin(index[c], data, c, foodId);
    }
    assert filled.nutrients == JoinedNutrients(data, table, foodId);
  }

  /** A food flattened against the built indexes is the directly joined item. */
  lemma FlattenFoodIsJoin(db: DatabaseRepresentation, table: seq<NutrientField>, food: FoodDescription,
                          groups: map<int, NullableString>, index: NutrientDictionaries)
    requires IndexBuilds(db) && BuildIndex(db, |db.nutrientDefinition|) == Ok(index)
    requires DistinctGroupCodes(db.foodGroupDescription) && FoodGroupIndex(db.foodGroupDescription) == Ok(groups)
    requires food.foodGroup in GroupCodes(db.foodGroupDescription)
    requires TableCodes(table) <= DefinedCodes(db.nutrientDefinition)
    ensures FlattenFood(food, groups, index, table) == Ok(ExpectedItem(db, table, food))
  {
    IndexMeaning(db);
    GroupIndexAgreesWithScan(db.foodGroupDescription, food.foodGroup);
    var base := Initial(food).(foodGroupName := groups[food.foodGroup]);
    FillIsJoin(base, index, db.nutrientData, table, food.nutrientDatabankNumber);
  }

  /** The constructor raises exactly on the inputs that are not loadable; otherwise it yields
      one item per food, in table order, each equal to the directly joined item. */
  lemma DenormalizeMeaning(db: DatabaseRepresentation, table: seq<NutrientField>)
    ensures Denormalize(db, table).Ok? <==> Loadable(db, table)
    ensures Denormalize(db, table).Ok? ==>
      && |Denormalize(db, table).value| == |db.foodDescription|
      && forall i :: 0 <= i < |db.foodDescription| ==>
           Denormalize(db, table).value[i] == ExpectedItem(db, table, db.foodDescription[i])
    ensures Denormalize(db, table).Err? ==>
      Denormalize(db, table).error.DuplicateKey? || Denormalize(db, table).error.KeyNotFound?
  {
    var foods := db.foodDescription;
    IndexMeaning(db);
    FoodGroupIndexMeaning(db.foodGroupDescription);
    match BuildIndex(db, |db.nutrientDefinition|)
    case Err(e) =>
    case Ok(index) =>
      match FoodGroupIndex(db.foodGroupDescription)
      case Err(e) =>
      case Ok(groups) =>
        FlattenFoodsMeaning(foods, groups, index, table);
        if Loadable(db, table) {
          forall i | 0 <= i < |foods| ensures FlattenFood(foods[i], groups, index, table) == Ok(ExpectedItem(db, table, foods[i])) {
            FlattenFoodIsJoin(db, table, foods[i], groups, index);
          }
        } else if FlattenFoods(foods, groups, index, table).Ok? {
          FlattenedFoodsAreLoadable(db, table, groups, index);
        }
        if FlattenFoods(foods, groups, index, table).Err? {
          var i :| 0 <= i < |foods| && FlattenFood(foods[i], groups, index, table).Err?
            && FlattenFoods(foods, groups, index, table).error == FlattenFood(foods[i], groups, index, table).error;
          FlattenFoodErrors(foods[i], groups, index, table);
        }
  }

  /** If every food flattens, every group and (with a food present) every curated code is found. */
  lemma FlattenedFoodsAreLoadable(db: DatabaseRepresentation, table: seq<NutrientField>,
                                  groups: map<int, NullableString>, index: NutrientDictionaries)
    requires IndexBuilds(db) && BuildIndex(db, |db.nutrientDefinition|) == Ok(index)
    requires DistinctGroupCodes(db.foodGroupDescription) && FoodGroupIndex(db.foodGroupDescription) == Ok(groups)
    requires forall i :: 0 <= i < |db.foodDescription| ==> FlattenFood(db.foodDescription[i], groups, index, table).Ok?
    ensures Loadable(db, table)
  {
    var foods := db.foodDescription;
    IndexMeaning(db);
    FoodGroupIndexMeaning(db.foodGroupDescription);
    forall i | 0 <= i < |foods| ensures foods[i].foodGroup in GroupCodes(db.foodGroupDescription) {
      assert Get(groups, foods[i].foodGroup).Ok?;
    }
    if foods != [] {
      var base := Initial(foods[0]).(foodGroupName := groups[foods[0].foodGroup]);
      FillNutrientsMeaning(base, index, table, foods[0].nutrientDatabankNumber);
      forall c | c in TableCodes(table) ensures c in DefinedCodes(db.nutrientDefinition) {
        var k :| 0 <= k < |table| && table[k].code == c;
      }
    }
  }

  /** A food fails to flatten only on a missing key. */
  lemma FlattenFoodErrors(food: FoodDescription, groups: map<int, NullableString>, index: NutrientDictionaries,
                          table: seq<NutrientField>)
    ensures FlattenFood(food, groups, index, table).Err? ==> FlattenFood(food, groups, index, table).error.KeyNotFound?
  {
    if food.foodGroup in groups {
      FillNutrientsMeaning(Initial(food).(foodGroupName := groups[food.foodGroup]), index, table, food.nutrientDatabankNumber);
    }
  }

  /** A curated nutrient of a food that has no NUT_DATA row for it is `null`, never zero. */
  lemma NoRowGivesNoValue(db: DatabaseRepresentation, table: seq<NutrientField>, i: nat, c: int)
    requires Loadable(db, table) && i < |db.foodDescription| && c in TableCodes(table)
    requires forall j :: 0 <= j < |db.nutrientData| ==>
      !(db.nutrientData[j].ndbNo == db.foodDescription[i].nutrientDatabankNumber && db.nutrientData[j].nutrNo == c)
    ensures Denormalize(db, table).Ok? && |Denormalize(db, table).value| == |db.foodDescription|
    ensures c in Denormalize(db, table).value[i].nutrients && Denormalize(db, table).value[i].nutrients[c] == None
  {
    DenormalizeMeaning(db, table);
  }

  // ---------------------------------------------------------------------------
  // The constructor's statements

  /** One pass of the `foreach` body: a new item for the food, its group name from the group
      dictionary, then the curated assignments in table order. Raises what `FlattenFood` raises. */
  method FlattenItem(food: FoodDescription, groups: map<int, NullableString>, index: NutrientDictionaries,
                     table: seq<NutrientField>) returns (r: Result<DenormalizedItem>)
    ensures r.Ok? <==> FlattenFood(food, groups, index, table).Ok?
    ensures r.Err? ==> r.error == FlattenFood(food, groups, index, table).error
    ensures r.Ok? ==> fresh(r.value) && r.value.View() == FlattenFood(food, groups, index, table).value
  {
    var flatItem := new DenormalizedItem(food);
    var groupName := Get(groups, food.foodGroup);
    if groupName.Err? {
      return Err(groupName.error);
    }
    flatItem.foodGroupName := groupName.value;
    ghost var base := flatItem.View();
    var foodId := food.nutrientDatabankNumber;
    for k := 0 to |table|
      invariant FillNutrients(base, index, table[..k], foodId) == Ok(flatItem.View())
    {
      assert table[..k + 1][..k] == table[..k];
      var code := table[k].code;
      var nutrientDict := Get(index, code);
      if nutrientDict.Err? {
        FillErrorPersists(base, index, table, k + 1, foodId);
        return Err(nutrientDict.error);
      }
      flatItem.nutrients := flatItem.nutrients[code := TryGetDecimal(nutrientDict.value, foodId)];
    }
    assert table[..|table|] == table;
    r := Ok(flatItem);
  }

  /** An exception raised by the first `k` assignments is the one all of them raise. */
  lemma {:induction false} FillErrorPersists(item: FlatRecord, index: NutrientDictionaries, table: seq<NutrientField>,
                                             k: nat, foodId: int)
    requires k <= |table|
    requires FillNutrients(item, index, table[..k], foodId).Err?
    ensures FillNutrients(item, index, table, foodId) == FillNutrients(item, index, table[..k], foodId)
    decreases |table| - k
  {
    if k < |table| {
      assert table[..k + 1][..k] == table[..k];
      FillErrorPersists(item, index, table, k + 1, foodId);
    } else {
      assert table[..k] == table;
    }
  }

  /** The constructor's body: the nutrient index, the food-group index and the `foreach` over
      FOOD_DES, stopping at the first exception. */
  method Run(db: DatabaseRepresentation, table: seq<NutrientField>) returns (r: Result<seq<DenormalizedItem>>)
    ensures r.Ok? <==> Denormalize(db, table).Ok?
    ensures r.Err? ==> r.error == Denormalize(db, table).error
    ensures r.Ok? ==> |r.value| == |Denormalize(db, table).value|
    ensures r.Ok? ==> forall i :: 0 <= i < |r.value| ==>
      fresh(r.value[i]) && r.value[i].View() == Denormalize(db, table).value[i]
    ensures r.Ok? ==> forall i, j :: 0 <= i < j < |r.value| ==> r.value[i] != r.value[j]
  {
    var nutrDictionaries := GetNutrientDictionaries(db);
    if nutrDictionaries.Err? {
      return Err(nutrDictionaries.error);
    }
    var foodGrpIdToName := ToDictionary(GroupPairs(db.foodGroupDescription));
    if foodGrpIdToName.Err? {
      return Err(foodGrpIdToName.error);
    }
    r := FlattenAll(db.foodDescription, foodGrpIdToName.value, nutrDictionaries.value, table);
  }

  /** The `foreach` over FOOD_DES: one new item per food, in order, until a food raises; every
      item is a separate object. */
  method FlattenAll(foods: seq<FoodDescription>, groups: map<int, NullableString>, index: NutrientDictionaries,
                    table: seq<NutrientField>) returns (r: Result<seq<DenormalizedItem>>)
    ensures r.Ok? <==> FlattenFoods(foods, groups, index, table).Ok?
    ensures r.Err? ==> r.error == FlattenFoods(foods, groups, index, table).error
    ensures r.Ok? ==> |r.value| == |FlattenFoods(foods, groups, index, table).value|
    ensures r.Ok? ==> forall i :: 0 <= i < |r.value| ==>
      fresh(r.value[i]) && r.value[i].View() == FlattenFoods(foods, groups, index, table).value[i]
    ensures r.Ok? ==> forall i, j :: 0 <= i < j < |r.value| ==> r.value[i] != r.value[j]
  {
    FlattenFoodsMeaning(foods, groups, index, table);
    var foodItems: seq<DenormalizedItem> := [];
    for i := 0 to |foods|
      invariant |foodItems| == i
      invariant forall j :: 0 <= j < i ==> FlattenFood(foods[j], groups, index, table).Ok?
      invariant forall j :: 0 <= j < i ==>
        fresh(foodItems[j]) && foodItems[j].View() == FlattenFood(foods[j], groups, index, table).value
      invariant forall j, k :: 0 <= j < k < i ==> foodItems[j] != foodItems[k]
    {
      var flatItem := FlattenItem(foods[i], groups, index, table);
      if flatItem.Err? {
        return Err(flatItem.error);
      }
      foodItems := foodItems + [flatItem.value];
    }
    r := Ok(foodItems);
  }
}
