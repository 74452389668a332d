/** The curated nutrients: for each nutrient code the constructor reads, the field of
    `DenormalizedItem` it fills, in the order of the assignments. Each list is written in blocks
    of ten consecutive assignments. */
module CuratedFields {

  import opened FieldLists

  // ---------------------------------------------------------------------------
  // The current variant's 150 assignments

  /** Assignments 1 to 10 of the current variant. */
  const Block0: seq<NutrientField> := [
    NutrientField(203, "Protein_Grams"),
    NutrientField(204, "Fat_Grams"),
    NutrientField(205, "Carbohydrate_Grams"),
    NutrientField(207, "Ash_Grams"),
    NutrientField(208, "Energy_Kcal"),
    NutrientField(209, "Starch_Grams"),
    NutrientField(210, "Sucrose_Grams"),
    NutrientField(211, "Glucose_Grams"),
    NutrientField(212, "Fructose_Grams"),
    NutrientField(213, "Lactose_Grams")]

  /** Assignments 11 to 20 of the current variant. */
  const Block1: seq<NutrientField> := [
    NutrientField(214, "Maltose_Grams"),
    NutrientField(221, "AlcoholEthyl_Grams"),
    NutrientField(255, "Water_Grams"),
    NutrientField(257, "AdjustedProtein_Grams"),
    NutrientField(262, "Caffeine_Mg"),
    NutrientField(263, "Theoboromine_Mg"),
    NutrientField(268, "Energy_KJ"),
    NutrientField(269, "Sugar_Grams"),
    NutrientField(287, "Galactose_Grams"),
    NutrientField(291, "FiberTotalDietary_Grams")]

  /** Assignments 21 to 30 of the current variant. */
  const Block2: seq<NutrientField> := [
    NutrientField(301, "Calcium_Mg"),
    NutrientField(303, "Iron_Mg"),
    NutrientField(304, "Magnesium_Mg"),
    NutrientField(305, "Phosphorus_Mg"),
    NutrientField(306, "Potassium_Mg"),
    NutrientField(307, "Sodium_Mg"),
    NutrientField(309, "Zinc_Mg"),
    NutrientField(312, "Copper_Mg"),
    NutrientField(313, "Fluorite_Ug"),
    NutrientField(315, "Manganese_Mg")]

  /** Assignments 31 to 40 of the current variant. */
  const Block3: seq<NutrientField> := [
    NutrientField(317, "Selenium_Ug"),
    NutrientField(318, "VitaminA_IU"),
    NutrientField(319, "Retinol_Ug"),
    NutrientField(320, "VitaminA_RAE"),
    NutrientField(321, "CaroteneBeta_Ug"),
    NutrientField(322, "CaroteneAlpha_Ug"),
    NutrientField(323, "VitaminE_Mg"),
    NutrientField(324, "VitaminD_IU"),
    NutrientField(325, "VitaminD2_Ug"),
    NutrientField(326, "VitaminD3_Ug")]

  /** Assignments 41 to 50 of the current variant. */
  const Block4: seq<NutrientField> := [
    NutrientField(328, "VitaminD2D2Sum_Ug"),
    NutrientField(334, "Cryptoxanthin_Ug"),
    NutrientField(337, "Lycopene_Ug"),
    NutrientField(338, "LuteinAndZeaxanthin_Ug"),
    NutrientField(341, "TocopherolBeta_Mg"),
    NutrientField(342, "TocopherolGamma_Mg"),
    NutrientField(343, "TocopherolDelta_Mg"),
    NutrientField(344, "TocotrienolAlpha_Mg"),
    NutrientField(345, "TocotrienolBeta_Mg"),
    NutrientField(346, "TocotrienolGamma_Mg")]

  /** Assignments 51 to 60 of the current variant. */
  const Block5: seq<NutrientField> := [
    NutrientField(347, "TocotrienolDelta_Mg"),
    NutrientField(401, "VitaminC_Mg"),
    NutrientField(404, "Thiamin_Mg"),
    NutrientField(405, "Riboflavin_Mg"),
    NutrientField(406, "Niacin_Mg"),
    NutrientField(410, "PantothenicAcid_Mg"),
    NutrientField(415, "VitaminB6A_Mg"),
    NutrientField(417, "FoliateTotal_Ug"),
    NutrientField(418, "VitaminB12_Ug"),
    NutrientField(421, "CholineTotalMg")]

  /** Assignments 61 to 70 of the current variant. */
  const Block6: seq<NutrientField> := [
    NutrientField(428, "Menaquinone4_Ug"),
    NutrientField(429, "Dihydrophylloquinone_Ug"),
    NutrientField(430, "VitaminK_Ug"),
    NutrientField(431, "FolicAcid_Ug"),
    NutrientField(432, "FolateFood_Ug"),
    NutrientField(435, "FolateDFE_Ug"),
    NutrientField(454, "Betaine_Mg"),
    NutrientField(501, "Tryptophan_Grams"),
    NutrientField(502, "Threonine_Grams"),
    NutrientField(503, "Isoleucine_Grams")]

  /** Assignments 71 to 80 of the current variant. */
  const Block7: seq<NutrientField> := [
    NutrientField(504, "Leucine_Grams"),
    NutrientField(505, "Lysine_Grams"),
    NutrientField(506, "Methionine_Grams"),
    NutrientField(507, "Cystine_Grams"),
    NutrientField(508, "Phenylalanine_Grams"),
    NutrientField(509, "Tyrosine_Grams"),
    NutrientField(510, "Valine_Grams"),
    NutrientField(511, "Arginine_Grams"),
    NutrientField(512, "Histidine_Grams"),
    NutrientField(513, "Alanine_Grams")]

  /** Assignments 81 to 90 of the current variant. */
  const Block8: seq<NutrientField> := [
    NutrientField(514, "AsparticAcid_Grams"),
    NutrientField(515, "GlutamicAcid_Grams"),
    NutrientField(516, "Glycine_Grams"),
    NutrientField(517, "Proline_Grams"),
    NutrientField(518, "Serine_Grams"),
    NutrientField(521, "Hydroxyproline_Grams"),
    NutrientField(573, "VitaminEAdded_Mg"),
    NutrientField(578, "VitaminB12Added_Ug"),
    NutrientField(601, "Cholesterol_Mg"),
    NutrientField(605, "FattyAcidsTotalTrans_Grams")]

  /** Assignments 91 to 100 of the current variant. */
  const Block9: seq<NutrientField> := [
    NutrientField(606, "FattyAcidsTotalSaturated_Grams"),
    NutrientField(607, "F4D0_Grams"),
    NutrientField(608, "F6D0_Grams"),
    NutrientField(609, "F8D0_Grams"),
    NutrientField(610, "F10D0_Grams"),
    NutrientField(611, "F12D0_Grams"),
    NutrientField(612, "F14D0_Grams"),
    NutrientField(613, "F16D0_Grams"),
    NutrientField(614, "F18D0_Grams"),
    NutrientField(615, "F20D0_Grams")]

  /** Assignments 101 to 110 of the current variant. */
  const Block10: seq<NutrientField> := [
    NutrientField(617, "F18D1_Grams"),
    NutrientField(618, "F18D2_Grams"),
    NutrientField(619, "F18D3_Grams"),
    NutrientField(620, "F20D4_Grams"),
    NutrientField(621, "F22D6_Grams"),
    NutrientField(624, "F22D0_Grams"),
    NutrientField(625, "F14D1_Grams"),
    NutrientField(626, "F16D1_Grams"),
    NutrientField(627, "F18D4_Grams"),
    NutrientField(628, "F20D1_Grams")]

  /** Assignments 111 to 120 of the current variant. */
  const Block11: seq<NutrientField> := [
    NutrientField(629, "F20D5_Grams"),
    NutrientField(630, "F22D1_Grams"),
    NutrientField(631, "F22D5_Grams"),
    NutrientField(636, "Phytosterols_Mg"),
    NutrientField(638, "Stigmasterol_Mg"),
    NutrientField(639, "Campesterol_Mg"),
    NutrientField(641, "BetaSitosterol_Mg"),
    NutrientField(645, "FattyAcidsTotalMonounsaturated_Grams"),
    NutrientField(646, "FattyAcidsTotalPolyunsaturated_Grams"),
    NutrientField(652, "F15D0_Grams")]

  /** Assignments 121 to 130 of the current variant. */
  const Block12: seq<NutrientField> := [
    NutrientField(653, "F17D0_Grams"),
    NutrientField(654, "F24D0_Grams"),
    NutrientField(662, "F16D1T_Grams"),
    NutrientField(663, "F18D1T_Grams"),
    NutrientField(664, "F22D1T_Grams"),
    NutrientField(665, "T18to2NotFurtherDefined_Grams"),
    NutrientField(666, "I18to2_Grams"),
    NutrientField(669, "F18D2TT_Grams"),
    NutrientField(670, "F18D2CLA_Grams"),
    NutrientField(671, "F24D1C_Grams")]

  /** Assignments 131 to 140 of the current variant. */
  const Block13: seq<NutrientField> := [
    NutrientField(672, "F20D2CN6_Grams"),
    NutrientField(673, "F16D1C_Grams"),
    NutrientField(674, "F18D1C_Grams"),
    NutrientField(675, "F18D2CN6_Grams"),
    NutrientField(676, "F22D1C_Grams"),
    NutrientField(685, "F18D3CN6_Grams"),
    NutrientField(687, "F17D1_Grams"),
    NutrientField(689, "F20D3_Grams"),
    NutrientField(693, "FATRNM_Grams"),
    NutrientField(695, "FATRNP_Grams")]

  /** Assignments 141 to 150 of the current variant. */
  const Block14: seq<NutrientField> := [
    NutrientField(696, "F13D0_Grams"),
    NutrientField(697, "F15D1_Grams"),
    NutrientField(851, "F18D3CN3_Grams"),
    NutrientField(852, "F20D3N3_Grams"),
    NutrientField(853, "F20D3N6_Grams"),
    NutrientField(855, "F20D4N6_Grams"),
    NutrientField(856, "I18to3_Grams"),
    NutrientField(857, "F21D5_Grams"),
    NutrientField(858, "F22D4_Grams"),
    NutrientField(859, "F18D1TN7_Grams")]

  /** The current variant's assignments, in source order. */
  const TauritTable: seq<NutrientField> :=
    Block0 + Block1 + Block2 + Block3 + Block4 + Block5 + Block6 + Block7 + Block8 + Block9
    + Block10 + Block11 + Block12 + Block13 + Block14

  // ---------------------------------------------------------------------------
  // The earlier variant's 99 assignments: blocks 0-4, 6 and 7 are shared with the current one

  /** Assignments 51 to 60 of the earlier variant: vitamin B12 (418) in milligrams. */
  const EarlierBlock5: seq<NutrientField> := [
    NutrientField(347, "TocotrienolDelta_Mg"),
    NutrientField(401, "VitaminC_Mg"),
    NutrientField(404, "Thiamin_Mg"),
    NutrientField(405, "Riboflavin_Mg"),
    NutrientField(406, "Niacin_Mg"),
    NutrientField(410, "PantothenicAcid_Mg"),
    NutrientField(415, "VitaminB6A_Mg"),
    NutrientField(417, "FoliateTotal_Ug"),
    NutrientField(418, "VitaminB12_Mg"),
    NutrientField(421, "CholineTotalMg")]

  /** Assignments 81 to 90 of the earlier variant: added vitamin B12 (578) in milligrams. */
  const EarlierBlock8: seq<NutrientField> := [
    NutrientField(514, "AsparticAcid_Grams"),
    NutrientField(515, "GlutamicAcid_Grams"),
    NutrientField(516, "Glycine_Grams"),
    NutrientField(517, "Proline_Grams"),
    NutrientField(518, "Serine_Grams"),
    NutrientField(521, "Hydroxyproline_Grams"),
    NutrientField(573, "VitaminEAdded_Mg"),
    NutrientField(578, "VitaminB12Added_Mg"),
    NutrientField(601, "Cholesterol_Mg"),
    NutrientField(605, "FattyAcidsTotalTrans_Grams")]

  /** Assignments 91 to 99 of the earlier variant, ending at 18:0 (614). */
  const EarlierBlock9: seq<NutrientField> := [
    NutrientField(606, "FattyAcidsTotalSaturated_Grams"),
    NutrientField(607, "F4D0_Grams"),
    NutrientField(608, "F6D0_Grams"),
    NutrientField(609, "F8D0_Grams"),
    NutrientField(610, "F10D0_Grams"),
    NutrientField(611, "F12D0_Grams"),
    NutrientField(612, "F14D0_Grams"),
    NutrientField(613, "F16D0_Grams"),
    NutrientField(614, "F18D0_Grams")]

  /** The earlier variant's assignments, in source order. */
  const EarlierTable: seq<NutrientField> :=
    Block0 + Block1 + Block2 + Block3 + Block4 + EarlierBlock5 + Block6 + Block7 + EarlierBlock8 + EarlierBlock9

  // ---------------------------------------------------------------------------
  // Order of the codes, block by block

  lemma Block0Ascending()
    ensures Ascending(Block0)
  {
  }

  lemma Block1Ascending()
    ensures Ascending(Block1)
  {
  }

  lemma Block2Ascending()
    ensures Ascending(Block2)
  {
  }

  lemma Block3Ascending()
    ensures Ascending(Block3)
  {
  }

  lemma Block4Ascending()
    ensures Ascending(Block4)
  {
  }

  lemma Block5Ascending()
    ensures Ascending(Block5)
  {
  }

  lemma Block6Ascending()
    ensures Ascending(Block6)
  {
  }

  lemma Block7Ascending()
    ensures Ascending(Block7)
  {
  }

  lemma Block8Ascending()
    ensures Ascending(Block8)
  {
  }

  lemma Block9Ascending()
    ensures Ascending(Block9)
  {
  }

  lemma Block10Ascending()
    ensures Ascending(Block10)
  {
  }

  lemma Block11Ascending()
    ensures Ascending(Block11)
  {
  }

  lemma Block12Ascending()
    ensures Ascending(Block12)
  {
  }

  lemma Block13Ascending()
    ensures Ascending(Block13)
  {
  }

  lemma Block14Ascending()
    ensures Ascending(Block14)
  {
  }

  lemma EarlierBlock5Ascending()
    ensures Ascending(EarlierBlock5)
  {
  }

  lemma EarlierBlock8Ascending()
    ensures Ascending(EarlierBlock8)
  {
  }

  lemma EarlierBlock9Ascending()
    ensures Ascending(EarlierBlock9)
  {
  }
  // ---------------------------------------------------------------------------
  // Order of the codes, whole lists

  /** The current variant assigns its codes in strictly ascending order. */
  lemma TauritAscending()
    ensures Ascending(TauritTable)
  {
    Block0Ascending(); Block1Ascending(); Block2Ascending(); Block3Ascending(); Block4Ascending();
    Block5Ascending(); Block6Ascending(); Block7Ascending(); Block8Ascending(); Block9Ascending();
    Block10Ascending(); Block11Ascending(); Block12Ascending(); Block13Ascending(); Block14Ascending();
    var s := Block0;
    AscendingJoin(s, Block1); s := s + Block1;
    AscendingJoin(s, Block2); s := s + Block2;
    AscendingJoin(s, Block3); s := s + Block3;
    AscendingJoin(s, Block4); s := s + Block4;
    AscendingJoin(s, Block5); s := s + Block5;
    AscendingJoin(s, Block6); s := s + Block6;
    AscendingJoin(s, Block7); s := s + Block7;
    AscendingJoin(s, Block8); s := s + Block8;
    AscendingJoin(s, Block9); s := s + Block9;
    AscendingJoin(s, Block10); s := s + Block10;
    AscendingJoin(s, Block11); s := s + Block11;
    AscendingJoin(s, Block12); s := s + Block12;
    AscendingJoin(s, Block13); s := s + Block13;
    AscendingJoin(s, Block14); s := s + Block14;
  }

  // ---------------------------------------------------------------------------
  // The earlier list against the current one

  /** The earlier list is the first 99 assignments of the current one, except that vitamin B12
      (418) and added vitamin B12 (578) fill milligram fields where the current list fills
      microgram fields. */
  lemma EarlierIsCurrentPrefix()
    ensures TauritTable[58] == NutrientField(418, "VitaminB12_Ug")
    ensures TauritTable[87] == NutrientField(578, "VitaminB12Added_Ug")
    ensures EarlierTable == TauritTable[..99][58 := NutrientField(418, "VitaminB12_Mg")]
                                             [87 := NutrientField(578, "VitaminB12Added_Mg")]
  {
    var x, y := NutrientField(418, "VitaminB12_Mg"), NutrientField(578, "VitaminB12Added_Mg");
    var p := Block0 + Block1 + Block2 + Block3 + Block4;
    var q := p + Block5 + Block6 + Block7;
    assert |p| == 50 && |q| == 80;
    assert EarlierBlock5 == Block5[8 := x];
    assert EarlierBlock8 == Block8[7 := y];
    assert EarlierBlock9 == Block9[..9];
    UpdateRight(p, Block5, 8, x);
    UpdateLeft(p + Block5, Block6, 58, x);
    UpdateLeft(p + Block5 + Block6, Block7, 58, x);
    assert p + EarlierBlock5 + Block6 + Block7 == q[58 := x];
    UpdateRight(q[58 := x], Block8, 7, y);
    UpdateLeft(q, Block8, 58, x);
    assert p + EarlierBlock5 + Block6 + Block7 + EarlierBlock8 == (q + Block8)[58 := x][87 := y];
    UpdateLeft((q + Block8)[58 := x], Block9[..9], 87, y);
    UpdateLeft(q + Block8, Block9[..9], 58, x);
    assert EarlierTable == (q + Block8 + Block9[..9])[58 := x][87 := y];
    TakeRight(q + Block8, Block9, 9);
    var r := q + Block8 + Block9;
    assert |r| == 100;
    TakeLeft(r, Block10, 99);
    TakeLeft(r + Block10, Block11, 99);
    TakeLeft(r + Block10 + Block11, Block12, 99);
    TakeLeft(r + Block10 + Block11 + Block12, Block13, 99);
    TakeLeft(r + Block10 + Block11 + Block12 + Block13, Block14, 99);
    assert TauritTable[..99] == q + Block8 + Block9[..9];
  }

  /** Both lists assign distinct codes in ascending order: 150 in the current variant and 99 in
      the earlier one. */
  lemma CuratedOrder()
    ensures Ascending(TauritTable) && Ascending(EarlierTable)
    ensures |TableCodes(TauritTable)| == |TauritTable| == 150
    ensures |TableCodes(EarlierTable)| == |EarlierTable| == 99
  {
    TauritAscending();
    EarlierIsCurrentPrefix();
    var x, y := NutrientField(418, "VitaminB12_Mg"), NutrientField(578, "VitaminB12Added_Mg");
    var prefix := TauritTable[..99];
    assert Ascending(prefix);
    AscendingUpdate(prefix, 58, x);
    AscendingUpdate(prefix[58 := x], 87, y);
    AscendingCodesCount(TauritTable);
    AscendingCodesCount(EarlierTable);
  }

  /** The current variant's codes run from protein (203) to 18:1 trans n-7 (859); the earlier
      variant's stop at 18:0 (614). */
  lemma CuratedRange()
    ensures forall c :: c in TableCodes(TauritTable) ==> 203 <= c <= 859
    ensures forall c :: c in TableCodes(EarlierTable) ==> 203 <= c <= 614
  {
    CuratedOrder();
    CuratedExamples();
    assert TauritTable[149] == Block14[9] && Block14[9].code == 859;
    EarlierIsCurrentPrefix();
    assert EarlierTable[98] == TauritTable[98] == Block9[8] && Block9[8].code == 614;
    AscendingBounds(TauritTable);
    AscendingBounds(EarlierTable);
  }

  /** Protein (203) and energy in kcal (208) lead both lists; vitamin B12 (418) fills the
      microgram field in the current variant and the milligram field in the earlier one. */
  lemma CuratedExamples()
    ensures TauritTable[0] == EarlierTable[0] == NutrientField(203, "Protein_Grams")
    ensures TauritTable[4] == EarlierTable[4] == NutrientField(208, "Energy_Kcal")
    ensures TauritTable[58] == NutrientField(418, "VitaminB12_Ug")
    ensures EarlierTable[58] == NutrientField(418, "VitaminB12_Mg")
  {
    EarlierIsCurrentPrefix();
    assert TauritTable[0] == Block0[0] && Block0[0] == NutrientField(203, "Protein_Grams");
    assert TauritTable[4] == Block0[4] && Block0[4] == NutrientField(208, "Energy_Kcal");
  }
}
