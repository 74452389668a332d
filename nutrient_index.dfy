/** The nutrient index: for every nutrient code of NUTR_DEF, a dictionary from NDB number to
    that nutrient's raw value text, and the tolerant lookup that reads it. */
module NutrientIndex {
  import opened Wrappers
  import opened Dictionaries
  import opened DecimalParsing
  import opened Usda26Tables

  /** The dictionary of one nutrient: NDB number to raw value text. */
  type NutrientDictionary = map<int, NullableString>

  /** The index of all nutrients: nutrient code to that nutrient's dictionary. */
  type NutrientDictionaries = map<int, NutrientDictionary>

  /** The codes of NUTR_DEF. */
  ghost function DefinedCodes(definitions: seq<NutrientDefinition>): set<int> {
    set i | 0 <= i < |definitions| :: definitions[i].nutrNo
  }

  /** No code is defined twice. */
  ghost predicate DistinctCodes(definitions: seq<NutrientDefinition>) {
    forall i, j :: 0 <= i < j < |definitions| ==> definitions[i].nutrNo != definitions[j].nutrNo
  }

  /** No food has two NUT_DATA rows for the nutrient. */
  ghost predicate NoRepeatedPair(data: seq<NutrientData>, nutrNo: int) {
    forall i, j :: 0 <= i < j < |data| && data[i].nutrNo == nutrNo && data[j].nutrNo == nutrNo ==>
      data[i].ndbNo != data[j].ndbNo
  }

  /** `m` is exactly the nutrient's rows of NUT_DATA: its keys are the NDB numbers that have a
      row for the nutrient, and each such row's value is stored under its NDB number. */
  ghost predicate IsNutrientDictionary(m: NutrientDictionary, data: seq<NutrientData>, nutrNo: int) {
    && m.Keys == FoodsWith(data, nutrNo)
    && (forall j :: 0 <= j < |data| && data[j].nutrNo == nutrNo ==> m[data[j].ndbNo] == data[j].nutrVal)
  }

  /** The NDB numbers of the foods that have a row for the nutrient. */
  ghost function FoodsWith(data: seq<NutrientData>, nutrNo: int): set<int> {
    set j | 0 <= j < |data| && data[j].nutrNo == nutrNo :: data[j].ndbNo
  }

  /** LINQ's `FirstOrDefault` on the definitions with the code: `None` stands for the `null`
      default. */
  function FirstOrDefault(definitions: seq<NutrientDefinition>, nutrNo: int): (r: Option<NutrientDefinition>)
    ensures r.Some? <==> nutrNo in DefinedCodes(definitions)
    ensures r.Some? ==> r.value.nutrNo == nutrNo
    decreases |definitions|
  {
    if definitions == [] then None
    else if definitions[0].nutrNo == nutrNo then Some(definitions[0])
    else
      var r := FirstOrDefault(definitions[1..], nutrNo);
      assert nutrNo in DefinedCodes(definitions[1..]) ==> nutrNo in DefinedCodes(definitions) by {
        if nutrNo in DefinedCodes(definitions[1..]) {
          var i :| 0 <= i < |definitions[1..]| && definitions[1..][i].nutrNo == nutrNo;
          assert definitions[i + 1].nutrNo == nutrNo;
        }
      }
      assert nutrNo in DefinedCodes(definitions) ==> nutrNo in DefinedCodes(definitions[1..]) by {
        if nutrNo in DefinedCodes(definitions) {
          var i :| 0 <= i < |definitions| && definitions[i].nutrNo == nutrNo;
          assert definitions[1..][i - 1].nutrNo == nutrNo;
        }
      }
      r
  }

  /** LINQ's `Where(row => row.NutrNo == nutrNo)`: the nutrient's rows in table order. */
  function Where(data: seq<NutrientData>, nutrNo: int): (r: seq<NutrientData>)
    ensures |r| <= |data|
    decreases |data|
  {
    if data == [] then []
    else
      var init, last := data[..|data| - 1], data[|data| - 1];
      if last.nutrNo == nutrNo then Where(init, nutrNo) + [last] else Where(init, nutrNo)
  }

  /** `Where` keeps exactly the rows of the nutrient. */
  lemma {:induction false} WhereMembers(data: seq<NutrientData>, nutrNo: int)
    ensures forall x :: x in Where(data, nutrNo) <==> x in data && x.nutrNo == nutrNo
    decreases |data|
  {
    if data != [] {
      var init, last := data[..|data| - 1], data[|data| - 1];
      assert data == init + [last];
      WhereMembers(init, nutrNo);
    }
  }

  /** The `(NDBNo, NutrVal)` pairs `ToDictionary` is given. */
  function Pairs(rows: seq<NutrientData>): (pairs: seq<(int, NullableString)>)
    ensures |pairs| == |rows|
    ensures forall i :: 0 <= i < |rows| ==> pairs[i] == (rows[i].ndbNo, rows[i].nutrVal)
  {
    seq(|rows|, i requires 0 <= i < |rows| => (rows[i].ndbNo, rows[i].nutrVal))
  }

  /** Appending a row keeps the NDB numbers distinct exactly when the row's is new. */
  lemma DistinctAppend(rows: seq<NutrientData>, row: NutrientData)
    ensures Distinct(Keys(Pairs(rows + [row])))
        <==> Distinct(Keys(Pairs(rows))) && forall x :: x in rows ==> x.ndbNo != row.ndbNo
  {
    var ks := Keys(Pairs(rows + [row]));
    assert Keys(Pairs(rows)) == ks[..|rows|];
    if Distinct(ks) {
      forall x | x in rows ensures x.ndbNo != row.ndbNo {
        var k :| 0 <= k < |rows| && rows[k] == x;
        assert ks[k] == x.ndbNo && ks[|rows|] == row.ndbNo;
      }
    }
    if Distinct(Keys(Pairs(rows))) && forall x :: x in rows ==> x.ndbNo != row.ndbNo {
      forall i, j | 0 <= i < j < |ks| ensures ks[i] != ks[j] {
        if j == |rows| {
          assert rows[i] in rows;
        }
      }
    }
  }

  /** A row added at the end repeats a pair exactly when an earlier row has its food and nutrient. */
  lemma NoRepeatedPairAppend(data: seq<NutrientData>, nutrNo: int)
    requires data != []
    ensures NoRepeatedPair(data, nutrNo) <==>
      && NoRepeatedPair(data[..|data| - 1], nutrNo)
      && (data[|data| - 1].nutrNo == nutrNo ==>
            forall x :: x in data[..|data| - 1] && x.nutrNo == nutrNo ==> x.ndbNo != data[|data| - 1].ndbNo)
  {
    var init, last := data[..|data| - 1], data[|data| - 1];
    if NoRepeatedPair(data, nutrNo) {
      forall i, j | 0 <= i < j < |init| && init[i].nutrNo == nutrNo && init[j].nutrNo == nutrNo
        ensures init[i].ndbNo != init[j].ndbNo
      {
        assert data[i] == init[i] && data[j] == init[j];
      }
      if last.nutrNo == nutrNo {
        forall x | x in init && x.nutrNo == nutrNo ensures x.ndbNo != last.ndbNo {
          var k :| 0 <= k < |init| && init[k] == x;
          assert data[k] == x;
        }
      }
    }
    if NoRepeatedPair(init, nutrNo)
      && (last.nutrNo == nutrNo ==> forall x :: x in init && x.nutrNo == nutrNo ==> x.ndbNo != last.ndbNo)
    {
      forall i, j | 0 <= i < j < |data| && data[i].nutrNo == nutrNo && data[j].nutrNo == nutrNo
        ensures data[i].ndbNo != data[j].ndbNo
      {
        assert data[i] == init[i];
        if j < |init| {
          assert data[j] == init[j];
        } else {
          assert data[i] in init;
        }
      }
    }
  }

  /** The rows `Where` keeps have distinct NDB numbers exactly when no food repeats the nutrient. */
  lemma {:induction false} WhereDistinct(data: seq<NutrientData>, nutrNo: int)
    ensures Distinct(Keys(Pairs(Where(data, nutrNo)))) <==> NoRepeatedPair(data, nutrNo)
    decreases |data|
  {
    if data != [] {
      var init, last := data[..|data| - 1], data[|data| - 1];
      WhereDistinct(init, nutrNo);
      WhereMembers(init, nutrNo);
      NoRepeatedPairAppend(data, nutrNo);
      if last.nutrNo == nutrNo {
        DistinctAppend(Where(init, nutrNo), last);
      }
    }
  }

  /** The dictionary `ToDictionary` builds from the nutrient's rows holds exactly those rows. */
  lemma WhereDictionary(data: seq<NutrientData>, nutrNo: int, m: NutrientDictionary)
    requires ToDictionary(Pairs(Where(data, nutrNo))) == Ok(m)
    ensures IsNutrientDictionary(m, data, nutrNo)
  {
    var rows := Where(data, nutrNo);
    ToDictionaryMeaning(Pairs(rows));
    WhereMembers(data, nutrNo);
    WhereKeys(data, nutrNo, rows, m.Keys);
    forall j | 0 <= j < |data| && data[j].nutrNo == nutrNo
      ensures m[data[j].ndbNo] == data[j].nutrVal
    {
      assert data[j] in rows;
      var i :| 0 <= i < |rows| && rows[i] == data[j];
      assert Pairs(rows)[i] == (data[j].ndbNo, data[j].nutrVal);
    }
  }

  /** The keys of the nutrient's rows are the foods that have the nutrient. */
  lemma WhereKeys(data: seq<NutrientData>, nutrNo: int, rows: seq<NutrientData>, keys: set<int>)
    requires forall x :: x in rows <==> x in data && x.nutrNo == nutrNo
    requires keys == set i | 0 <= i < |Pairs(rows)| :: Pairs(rows)[i].0
    ensures keys == FoodsWith(data, nutrNo)
  {
    forall k | k in keys ensures k in FoodsWith(data, nutrNo) {
      var i :| 0 <= i < |rows| && Pairs(rows)[i].0 == k;
      assert rows[i] in data;
      var j :| 0 <= j < |data| && data[j] == rows[i];
    }
    forall k | k in FoodsWith(data, nutrNo) ensures k in keys {
      var j :| 0 <= j < |data| && data[j].nutrNo == nutrNo && data[j].ndbNo == k;
      assert data[j] in rows;
      var i :| 0 <= i < |rows| && rows[i] == data[j];
      assert Pairs(rows)[i].0 == k;
    }
  }

  /** `GetNutrientDict`: looks the code up in NUTR_DEF (a code without a definition dereferences
      `null`), then builds the dictionary of its rows with `ToDictionary`, which raises on a
      food that has the nutrient twice. */
  function GetNutrientDict(db: DatabaseRepresentation, nutrNo: int): (r: Result<NutrientDictionary>)
    ensures r.Err? ==> r.error == NullReference || r.error.DuplicateKey?
  {
    match FirstOrDefault(db.nutrientDefinition, nutrNo)
    case None => Err(NullReference)
    case Some(definition) =>
      var nutrientNumber := definition.nutrNo;
      ToDictionary(Pairs(Where(db.nutrientData, nutrientNumber)))
  }

  /** `GetNutrientDict` dereferences `null` exactly for an undefined code, raises a duplicate key
      exactly when some food has the nutrient twice, and otherwise returns the nutrient's
      dictionary. */
  lemma GetNutrientDictMeaning(db: DatabaseRepresentation, nutrNo: int)
    ensures GetNutrientDict(db, nutrNo) == Err(NullReference) <==> nutrNo !in DefinedCodes(db.nutrientDefinition)
    ensures GetNutrientDict(db, nutrNo).Ok? <==>
      nutrNo in DefinedCodes(db.nutrientDefinition) && NoRepeatedPair(db.nutrientData, nutrNo)
    ensures GetNutrientDict(db, nutrNo).Ok? ==> IsNutrientDictionary(GetNutrientDict(db, nutrNo).value, db.nutrientData, nutrNo)
  {
    if nutrNo in DefinedCodes(db.nutrientDefinition) {
      WhereDistinct(db.nutrientData, nutrNo);
      ToDictionaryMeaning(Pairs(Where(db.nutrientData, nutrNo)));
      var r := ToDictionary(Pairs(Where(db.nutrientData, nutrNo)));
      if r.Ok? {
        WhereDictionary(db.nutrientData, nutrNo, r.value);
      }
    }
  }

  /** The index builds without raising: no code is defined twice and no food has a defined
      nutrient twice. */
  ghost predicate IndexBuilds(db: DatabaseRepresentation) {
    && DistinctCodes(db.nutrientDefinition)
    && forall i :: 0 <= i < |db.nutrientDefinition| ==> NoRepeatedPair(db.nutrientData, db.nutrientDefinition[i].nutrNo)
  }

  /** The first `k` definitions build: their codes are distinct and no food repeats any of them. */
  ghost predicate PrefixBuilds(db: DatabaseRepresentation, k: nat)
    requires k <= |db.nutrientDefinition|
  {
    && DistinctCodes(db.nutrientDefinition[..k])
    && forall j :: 0 <= j < k ==> NoRepeatedPair(db.nutrientData, db.nutrientDefinition[j].nutrNo)
  }

  /** One iteration of the loop of `GetNutrientDictionaries` on definition `i`: build the
      code's dictionary, then `Add` it. */
  ghost function Step(db: DatabaseRepresentation, i: nat, dictionaries: NutrientDictionaries): Result<NutrientDictionaries>
    requires i < |db.nutrientDefinition|
  {
    var nutrNo := db.nutrientDefinition[i].nutrNo;
    match GetNutrientDict(db, nutrNo)
    case Err(e) => Err(e)
    case Ok(dict) => Add(dictionaries, nutrNo, dict)
  }

  /** What the loop holds after the first `k` definitions: the first exception raised, or the
      dictionaries added so far. */
  ghost function BuildIndex(db: DatabaseRepresentation, k: nat): Result<NutrientDictionaries>
    requires k <= |db.nutrientDefinition|
    decreases k
  {
    if k == 0 then Ok(map[])
    else match BuildIndex(db, k - 1)
      case Err(e) => Err(e)
      case Ok(dictionaries) => Step(db, k - 1, dictionaries)
  }

  /** `GetNutrientDictionaries`: walks NUTR_DEF in order and `Add`s each code's dictionary,
      so a code defined twice raises on its second `Add`, and a code without rows gets an
      empty dictionary. */
  method GetNutrientDictionaries(db: DatabaseRepresentation) returns (r: Result<NutrientDictionaries>)
    ensures r == BuildIndex(db, |db.nutrientDefinition|)
  {
    var definitions := db.nutrientDefinition;
    var dictionaries: NutrientDictionaries := map[];
    for i := 0 to |definitions|
      invariant BuildIndex(db, i) == Ok(dictionaries)
    {
      var nutrient := definitions[i];
      assert BuildIndex(db, i + 1) == Step(db, i, dictionaries);
      var nutrientDict := GetNutrientDict(db, nutrient.nutrNo);
      if nutrientDict.Err? {
        r := Err(nutrientDict.error);
        ErrorPersists(db, i + 1, |definitions|);
        return;
      }
      var added := Add(dictionaries, nutrient.nutrNo, nutrientDict.value);
      assert Step(db, i, dictionaries) == added;
      if added.Err? {
        r := Err(added.error);
        ErrorPersists(db, i + 1, |definitions|);
        return;
      }
      dictionaries := added.value;
    }
    r := Ok(dictionaries);
  }

  /** Once an exception is raised the remaining definitions are not read. */
  lemma {:induction false} ErrorPersists(db: DatabaseRepresentation, i: nat, k: nat)
    requires i <= k <= |db.nutrientDefinition|
    requires BuildIndex(db, i).Err?
    ensures BuildIndex(db, k) == BuildIndex(db, i)
    decreases k
  {
    if k > i {
      ErrorPersists(db, i, k - 1);
    }
  }

  /** The whole walk: it raises exactly when the index does not build, and then only for a
      duplicate key; otherwise every defined code has its nutrient's dictionary. */
  lemma IndexMeaning(db: DatabaseRepresentation)
    ensures BuildIndex(db, |db.nutrientDefinition|).Ok? <==> IndexBuilds(db)
    ensures BuildIndex(db, |db.nutrientDefinition|).Ok? ==>
      BuildIndex(db, |db.nutrientDefinition|).value.Keys == DefinedCodes(db.nutrientDefinition)
    ensures BuildIndex(db, |db.nutrientDefinition|).Ok? ==>
      forall n :: n in BuildIndex(db, |db.nutrientDefinition|).value ==>
        IsNutrientDictionary(BuildIndex(db, |db.nutrientDefinition|).value[n], db.nutrientData, n)
    ensures BuildIndex(db, |db.nutrientDefinition|).Err? ==> BuildIndex(db, |db.nutrientDefinition|).error.DuplicateKey?
  {
    var definitions := db.nutrientDefinition;
    BuildIndexMeaning(db, |definitions|);
    assert definitions[..|definitions|] == definitions;
  }

  /** The walk over the first `k` definitions, by induction on `k`. */
  lemma {:induction false} BuildIndexMeaning(db: DatabaseRepresentation, k: nat)
    requires k <= |db.nutrientDefinition|
    ensures BuildIndex(db, k).Ok? <==> PrefixBuilds(db, k)
    ensures BuildIndex(db, k).Ok? ==> BuildIndex(db, k).value.Keys == set j | 0 <= j < k :: db.nutrientDefinition[j].nutrNo
    ensures BuildIndex(db, k).Ok? ==>
      forall n :: n in BuildIndex(db, k).value ==> IsNutrientDictionary(BuildIndex(db, k).value[n], db.nutrientData, n)
    ensures BuildIndex(db, k).Err? ==> BuildIndex(db, k).error.DuplicateKey?
    decreases k
  {
    if k > 0 {
      var i := k - 1;
      BuildIndexMeaning(db, i);
      match BuildIndex(db, i)
      case Err(e) =>
        DistinctPrefix(db.nutrientDefinition, i, k);
      case Ok(dictionaries) =>
        StepMeaning(db, i, dictionaries);
    }
  }

  /** One iteration, given the loop's state after the definitions before it. */
  lemma StepMeaning(db: DatabaseRepresentation, i: nat, dictionaries: NutrientDictionaries)
    requires i < |db.nutrientDefinition|
    requires PrefixBuilds(db, i)
    requires dictionaries.Keys == set j | 0 <= j < i :: db.nutrientDefinition[j].nutrNo
    requires forall n :: n in dictionaries ==> IsNutrientDictionary(dictionaries[n], db.nutrientData, n)
    ensures Step(db, i, dictionaries).Ok? <==> PrefixBuilds(db, i + 1)
    ensures Step(db, i, dictionaries).Ok? ==>
      Step(db, i, dictionaries).value.Keys == set j | 0 <= j < i + 1 :: db.nutrientDefinition[j].nutrNo
    ensures Step(db, i, dictionaries).Ok? ==>
      forall n :: n in Step(db, i, dictionaries).value ==>
        IsNutrientDictionary(Step(db, i, dictionaries).value[n], db.nutrientData, n)
    ensures Step(db, i, dictionaries).Err? ==> Step(db, i, dictionaries).error.DuplicateKey?
  {
    var definitions := db.nutrientDefinition;
    var nutrNo := definitions[i].nutrNo;
    assert nutrNo in DefinedCodes(definitions);
    GetNutrientDictMeaning(db, nutrNo);
    CodesStep(definitions, i, dictionaries.Keys);
    match GetNutrientDict(db, nutrNo)
    case Err(e) =>
    case Ok(dict) =>
      if nutrNo in dictionaries {
        var j :| 0 <= j < i && definitions[j].nutrNo == nutrNo;
        assert definitions[..i + 1][j] == definitions[j] && definitions[..i + 1][i] == definitions[i];
      } else {
        DistinctStep(definitions, i);
        IndexStep(dictionaries, nutrNo, dict, db.nutrientData, dictionaries[nutrNo := dict]);
      }
  }

  /** One more definition read: the codes seen grow by its code, and a code not seen before
      differs from every earlier one. */
  lemma CodesStep(definitions: seq<NutrientDefinition>, i: nat, seen: set<int>)
    requires i < |definitions|
    requires seen == set j | 0 <= j < i :: definitions[j].nutrNo
    ensures seen + {definitions[i].nutrNo} == set j | 0 <= j < i + 1 :: definitions[j].nutrNo
    ensures definitions[i].nutrNo !in seen ==> forall j :: 0 <= j < i ==> definitions[j].nutrNo != definitions[i].nutrNo
  {
    forall j | 0 <= j < i
      ensures definitions[j].nutrNo in seen
    {
    }
  }

  /** A prefix of distinct codes has distinct codes. */
  lemma DistinctPrefix(definitions: seq<NutrientDefinition>, i: nat, k: nat)
    requires i <= k <= |definitions|
    ensures DistinctCodes(definitions[..k]) ==> DistinctCodes(definitions[..i])
  {
    assert definitions[..i] == definitions[..k][..i];
  }

  /** Storing one more correct dictionary keeps every stored dictionary correct. */
  lemma IndexStep(dictionaries: NutrientDictionaries, nutrNo: int, dict: NutrientDictionary, data: seq<NutrientData>,
                  extended: NutrientDictionaries)
    requires forall n :: n in dictionaries ==> IsNutrientDictionary(dictionaries[n], data, n)
    requires IsNutrientDictionary(dict, data, nutrNo)
    requires extended == dictionaries[nutrNo := dict]
    ensures forall n :: n in extended ==> IsNutrientDictionary(extended[n], data, n)
  {
  }

  /** A prefix of distinct codes stays distinct when the next code differs from all before it. */
  lemma DistinctStep(definitions: seq<NutrientDefinition>, i: nat)
    requires i < |definitions|
    requires DistinctCodes(definitions[..i])
    requires forall j :: 0 <= j < i ==> definitions[j].nutrNo != definitions[i].nutrNo
    ensures DistinctCodes(definitions[..i + 1])
  {
  }

  /** `TryGetDecimal`: a missing key, a `null` value and a value that does not parse all give no
      value; otherwise the parsed value. It never raises. */
  function TryGetDecimal(dict: NutrientDictionary, key: int): (r: Option<real>)
    ensures r.Some? <==> key in dict && dict[key].Some? && ParseDecimal(dict[key].value).Some?
    ensures r.Some? ==> r == ParseDecimal(dict[key].value)
  {
    if key !in dict then None
    else
      var dictValue := dict[key];
      if dictValue.None? then None
      else ParseDecimal(dictValue.value)
  }

  /** A stored decimal literal is read back as its exact value. */
  lemma TryGetDecimalLiteral(dict: NutrientDictionary, key: int, lit: DecimalLiteral)
    requires lit.Valid() && key in dict && dict[key] == Some(lit.Text())
    ensures TryGetDecimal(dict, key) == Some(lit.Value())
  {
    ParseLiteral(lit);
  }

  /** The raw value a direct scan of NUT_DATA finds for a food and a nutrient: the first
      matching row's text, or `None` when the food has no row for the nutrient. */
  function JoinValue(data: seq<NutrientData>, ndbNo: int, nutrNo: int): (r: Option<NullableString>)
    ensures r.Some? <==> exists j :: 0 <= j < |data| && data[j].ndbNo == ndbNo && data[j].nutrNo == nutrNo
    ensures r.Some? ==> exists j :: 0 <= j < |data| && data[j].ndbNo == ndbNo && data[j].nutrNo == nutrNo && data[j].nutrVal == r.value
    decreases |data|
  {
    if data == [] then None
    else if data[0].ndbNo == ndbNo && data[0].nutrNo == nutrNo then Some(data[0].nutrVal)
    else
      var r := JoinValue(data[1..], ndbNo, nutrNo);
      assert forall j :: 0 < j < |data| ==> data[j] == data[1..][j - 1];
      r
  }

  /** The decimal the direct scan yields: no row, a `null` value or unparseable text give none. */
  function JoinedDecimal(data: seq<NutrientData>, ndbNo: int, nutrNo: int): Option<real> {
    match JoinValue(data, ndbNo, nutrNo)
    case None => None
    case Some(text) => TryParse(text)
  }

  /** Looking a food up in a nutrient's dictionary gives what the direct scan of NUT_DATA gives. */
  lemma LookupAgreesWithJoin(m: NutrientDictionary, data: seq<NutrientData>, nutrNo: int, ndbNo: int)
    requires IsNutrientDictionary(m, data, nutrNo)
    ensures TryGetDecimal(m, ndbNo) == JoinedDecimal(data, ndbNo, nutrNo)
  {
    match JoinValue(data, ndbNo, nutrNo)
    case None =>
      assert ndbNo !in FoodsWith(data, nutrNo);
    case Some(text) =>
      var j :| 0 <= j < |data| && data[j].ndbNo == ndbNo && data[j].nutrNo == nutrNo && data[j].nutrVal == text;
      assert m[ndbNo] == text;
  }
}
