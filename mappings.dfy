/**
 * Lookup tables that turn the CSV's text values into the numeric codes the
 * database stores and the clustering engine compares.
 */
module Mappings {
  import opened Options

  /** Solved flag. */
  const SolvedMap: map<string, int> := map["Yes" := 1, "No" := 0]

  /** Victim sex code. */
  const VictimSexCode: map<string, int> := map["Male" := 1, "Female" := 2, "Unknown" := 9]

  /** Month name to month number. */
  const MonthMap: map<string, int> := map[
    "January" := 1, "February" := 2, "March" := 3, "April" := 4,
    "May" := 5, "June" := 6, "July" := 7, "August" := 8,
    "September" := 9, "October" := 10, "November" := 11, "December" := 12
  ]

  /** Weapon label to weapon code. */
  const WeaponCodeMap: map<string, int> := map[
    "Firearm, type not stated" := 11,
    "Handgun - pistol, revolver, etc" := 12,
    "Rifle" := 13,
    "Shotgun" := 14,
    "Other gun" := 15,
    "Knife or cutting instrument" := 20,
    "Blunt object - hammer, club, etc" := 30,
    "Personal weapons, includes beating" := 40,
    "Poison - does not include gas" := 50,
    "Pushed or thrown out window" := 55,
    "Explosives" := 60,
    "Fire" := 65,
    "Narcotics or drugs, sleeping pills" := 70,
    "Drowning" := 75,
    "Strangulation - hanging" := 80,
    "Asphyxiation - includes death by gas" := 85,
    "Other or type unknown" := 90,
    "Weapon Not Reported" := 99
  ]

  /** Looks a value up in a table; None for a value the table does not know. */
  function Lookup(table: map<string, int>, name: string): (r: Option<int>)
    ensures r.Some? <==> name in table
    ensures r.Some? ==> r.value == table[name]
  {
    if name in table then Some(table[name]) else None
  }

  /** A table that never gives two names the same code. */
  predicate Injective(table: map<string, int>) {
    forall a, b :: a in table && b in table && table[a] == table[b] ==> a == b
  }

  lemma SolvedMapValues()
    ensures SolvedMap.Keys == {"Yes", "No"}
    ensures SolvedMap["Yes"] == 1 && SolvedMap["No"] == 0
    ensures Injective(SolvedMap)
  {
  }

  lemma VictimSexCodeDistinct()
    ensures VictimSexCode.Keys == {"Male", "Female", "Unknown"}
    ensures VictimSexCode.Values == {1, 2, 9}
    ensures Injective(VictimSexCode)
  {
  }

  /** The month table is a bijection from the twelve month names onto 1..12. */
  lemma MonthMapBijection()
    ensures forall a :: a in MonthMap ==> 1 <= MonthMap[a] <= 12 && MonthNames[MonthMap[a] - 1] == a
    ensures forall k :: 0 <= k < 12 ==> MonthNames[k] in MonthMap && MonthMap[MonthNames[k]] == k + 1
    ensures Injective(MonthMap)
  {
  }

  const MonthNames: seq<string> := [
    "January", "February", "March", "April", "May", "June",
    "July", "August", "September", "October", "November", "December"
  ]

  const WeaponLabels: seq<string> := [
    "Firearm, type not stated", "Handgun - pistol, revolver, etc", "Rifle",
    "Shotgun", "Other gun", "Knife or cutting instrument",
    "Blunt object - hammer, club, etc", "Personal weapons, includes beating",
    "Poison - does not include gas", "Pushed or thrown out window", "Explosives",
    "Fire", "Narcotics or drugs, sleeping pills", "Drowning",
    "Strangulation - hanging", "Asphyxiation - includes death by gas",
    "Other or type unknown", "Weapon Not Reported"
  ]

  const WeaponCodes: seq<int> := [11, 12, 13, 14, 15, 20, 30, 40, 50, 55, 60, 65, 70, 75, 80, 85, 90, 99]

  /** Position of a code in the weapon table. */
  function WeaponIndex(code: int): int {
    if code == 11 then 0 else if code == 12 then 1 else if code == 13 then 2
    else if code == 14 then 3 else if code == 15 then 4 else if code == 20 then 5
    else if code == 30 then 6 else if code == 40 then 7 else if code == 50 then 8
    else if code == 55 then 9 else if code == 60 then 10 else if code == 65 then 11
    else if code == 70 then 12 else if code == 75 then 13 else if code == 80 then 14
    else if code == 85 then 15 else if code == 90 then 16 else 17
  }

  /** Every label of the weapon table sits at the position of its code. */
  lemma WeaponLabelsInOrder()
    ensures forall k :: 0 <= k < 18 ==> WeaponLabels[k] in WeaponCodeMap && WeaponCodeMap[WeaponLabels[k]] == WeaponCodes[k]
  {
  }

  /** The code of a label leads back to the label, and lies between 11 and 99. */
  lemma WeaponCodeInverse()
    ensures forall a :: a in WeaponCodeMap ==> 11 <= WeaponCodeMap[a] <= 99 && WeaponLabels[WeaponIndex(WeaponCodeMap[a])] == a
  {
    WeaponLabelsInOrder();
    WeaponIndexOfCodes();
    forall a | a in WeaponCodeMap
      ensures 11 <= WeaponCodeMap[a] <= 99 && WeaponLabels[WeaponIndex(WeaponCodeMap[a])] == a
    {
      assert a in WeaponLabels;
      var k :| 0 <= k < 18 && WeaponLabels[k] == a;
    }
  }

  lemma WeaponIndexOfCodes()
    ensures forall k :: 0 <= k < 18 ==> 11 <= WeaponCodes[k] <= 99 && WeaponIndex(WeaponCodes[k]) == k
  {
  }

  /** Eighteen labels, eighteen distinct codes. */
  lemma WeaponCodeMapDistinct()
    ensures Injective(WeaponCodeMap)
  {
    WeaponCodeInverse();
  }
}
