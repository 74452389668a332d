/** Lists of curated assignments: a code and the `DenormalizedItem` field it fills, the order of
    the codes, and the sequence facts the two curated lists are compared with. */
module FieldLists {

  /** One assignment `flatItem.<field> = TryGetDecimal(nutrDictionaries[<code>], foodId)`. */
  datatype NutrientField = NutrientField(code: int, field: string)

  /** The codes of a curated list. */
  ghost function TableCodes(table: seq<NutrientField>): set<int> {
    set k | 0 <= k < |table| :: table[k].code
  }

  /** Each code is larger than the one before it. */
  ghost predicate Ascending(table: seq<NutrientField>) {
    forall i :: 0 < i < |table| ==> table[i - 1].code < table[i].code
  }

  /** Two ascending lists whose seam ascends join into an ascending list. */
  lemma AscendingJoin(a: seq<NutrientField>, b: seq<NutrientField>)
    requires Ascending(a) && Ascending(b)
    requires a != [] && b != [] && a[|a| - 1].code < b[0].code
    ensures Ascending(a + b)
    ensures (a + b)[|a + b| - 1] == b[|b| - 1]
  {
    forall i | 0 < i < |a + b| ensures (a + b)[i - 1].code < (a + b)[i].code {
      if i > |a| {
        assert (a + b)[i - 1] == b[i - 1 - |a|];
      }
    }
  }

  /** In an ascending list each code is smaller than every later one. */
  lemma {:induction false} AscendingOrdered(table: seq<NutrientField>, i: nat, j: nat)
    requires Ascending(table) && i < j < |table|
    ensures table[i].code < table[j].code
    decreases j - i
  {
    if i + 1 < j {
      AscendingOrdered(table, i + 1, j);
    }
  }

  /** The codes of an ascending list lie between its first and its last code. */
  lemma AscendingBounds(table: seq<NutrientField>)
    requires Ascending(table) && table != []
    ensures forall c :: c in TableCodes(table) ==> table[0].code <= c <= table[|table| - 1].code
  {
    forall c | c in TableCodes(table) ensures table[0].code <= c <= table[|table| - 1].code {
      var k :| 0 <= k < |table| && table[k].code == c;
      if k > 0 { AscendingOrdered(table, 0, k); }
      if k < |table| - 1 { AscendingOrdered(table, k, |table| - 1); }
    }
  }

  /** An ascending list assigns as many distinct codes as it has entries. */
  lemma {:induction false} AscendingCodesCount(table: seq<NutrientField>)
    requires Ascending(table)
    ensures |TableCodes(table)| == |table|
    decreases |table|
  {
    if table != [] {
      var init := table[..|table| - 1];
      assert Ascending(init);
      AscendingCodesCount(init);
      CodesOfLast(table);
    }
  }

  /** The codes of a list are those of all but its last entry, plus a new last code. */
  lemma CodesOfLast(table: seq<NutrientField>)
    requires Ascending(table) && table != []
    ensures TableCodes(table) == TableCodes(table[..|table| - 1]) + {table[|table| - 1].code}
    ensures table[|table| - 1].code !in TableCodes(table[..|table| - 1])
  {
    var init, last := table[..|table| - 1], table[|table| - 1];
    assert forall k :: 0 <= k < |init| ==> init[k] == table[k];
    forall k | 0 <= k < |init| ensures init[k].code != last.code {
      AscendingOrdered(table, k, |table| - 1);
    }
  }

  /** Replacing an entry by one with the same code keeps a list ascending. */
  lemma AscendingUpdate(table: seq<NutrientField>, k: nat, entry: NutrientField)
    requires Ascending(table) && k < |table| && entry.code == table[k].code
    ensures Ascending(table[k := entry])
  {
  }

  lemma UpdateRight<T>(a: seq<T>, b: seq<T>, k: nat, v: T)
    requires k < |b|
    ensures a + b[k := v] == (a + b)[|a| + k := v]
  {
  }

  lemma UpdateLeft<T>(a: seq<T>, b: seq<T>, k: nat, v: T)
    requires k < |a|
    ensures a[k := v] + b == (a + b)[k := v]
  {
  }

  lemma TakeRight<T>(a: seq<T>, b: seq<T>, m: nat)
    requires m <= |b|
    ensures (a + b)[..|a| + m] == a + b[..m]
  {
  }

  lemma TakeLeft<T>(a: seq<T>, b: seq<T>, n: nat)
    requires n <= |a|
    ensures (a + b)[..n] == a[..n]
  {
  }
}
