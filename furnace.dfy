/** The furnace presets offered in the selection box and the two limits
    derived from the chosen label (app.py lines 22-24). */
module Furnace {

  const Furnace1 := "Furnace 1 (100 MT, 350 mm height)"
  const Furnace2 := "Furnace 2 (200 MT, 700 mm height)"

  /** The choices of the selection box, in the order shown. */
  const Choices := [Furnace1, Furnace2]

  /** Weight capacity in metric tons: 100 for a label containing the
      character '1', 200 for any other label. */
  function Capacity(furnace: string): (tons: int)
    ensures tons == 100 || tons == 200
    ensures tons == 100 <==> '1' in furnace
  {
    if '1' in furnace then 100 else 200
  }

  /** Thickness (stack height) limit in millimetres: 350 exactly when the
      weight capacity is 100, 700 otherwise. */
  function MaxThickness(capacity: int): (mm: int)
    ensures mm == 350 || mm == 700
    ensures mm == 350 <==> capacity == 100
  {
    if capacity == 100 then 350 else 700
  }

  /** Each choice of the selection box gets the limits its label announces. */
  lemma ChoicesMatchLabels()
    ensures Capacity(Choices[0]) == 100 && MaxThickness(Capacity(Choices[0])) == 350
    ensures Capacity(Choices[1]) == 200 && MaxThickness(Capacity(Choices[1])) == 700
  {
    assert Furnace1[8] == '1';
    forall i | 0 <= i < |Furnace2| ensures Furnace2[i] != '1' {
    }
  }
}
