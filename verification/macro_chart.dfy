/** The macro pie chart's data (src/components/MacroChart.tsx): one slice per
    macro, sized by its energy at 4, 9 and 4 kcal per gram. */
module MacroChart {

  datatype Slice = Slice(name: string, value: real, grams: real)

  const ProteinKcalPerGram: real := 4.0
  const FatKcalPerGram: real := 9.0
  const CarbKcalPerGram: real := 4.0

  /** The `data` array. */
  function ChartData(protein: real, fats: real, carbs: real): (slices: seq<Slice>)
    ensures |slices| == 3
    ensures slices[0].name == "Protein" && slices[1].name == "Fats" && slices[2].name == "Carbs"
    ensures slices[0].grams == protein && slices[1].grams == fats && slices[2].grams == carbs
    ensures forall i :: 0 <= i < 3 ==> slices[i].value == slices[i].grams * KcalPerGram(slices[i].name)
  {
    [ Slice("Protein", protein * ProteinKcalPerGram, protein),
      Slice("Fats", fats * FatKcalPerGram, fats),
      Slice("Carbs", carbs * CarbKcalPerGram, carbs) ]
  }

  /** Energy per gram by slice name (the Atwater factors). */
  function KcalPerGram(name: string): real
  {
    if name == "Fats" then FatKcalPerGram else if name == "Protein" then ProteinKcalPerGram
    else if name == "Carbs" then CarbKcalPerGram else 0.0
  }

  function TotalValue(slices: seq<Slice>): real
  {
    if |slices| == 0 then 0.0 else slices[0].value + TotalValue(slices[1..])
  }

  /** The slices together carry the macros' energy, 4p + 9f + 4c. */
  lemma ChartEnergy(protein: real, fats: real, carbs: real)
    ensures TotalValue(ChartData(protein, fats, carbs)) == 4.0 * protein + 9.0 * fats + 4.0 * carbs
  {
    var s := ChartData(protein, fats, carbs);
    assert TotalValue(s[2..]) == s[2].value + TotalValue(s[2..][1..]);
    assert s[2..][1..] == [];
    assert TotalValue(s[1..]) == s[1].value + TotalValue(s[1..][1..]);
    assert s[1..][1..] == s[2..];
  }

  /** All-zero macros give all-zero slices; non-negative macros give non-negative slices. */
  lemma ZeroAndSign(protein: real, fats: real, carbs: real)
    ensures protein == 0.0 && fats == 0.0 && carbs == 0.0 ==>
              forall i :: 0 <= i < 3 ==> ChartData(protein, fats, carbs)[i].value == 0.0
    ensures protein >= 0.0 && fats >= 0.0 && carbs >= 0.0 ==>
              forall i :: 0 <= i < 3 ==> ChartData(protein, fats, carbs)[i].value >= 0.0
  {
  }
}
