/** The four macro fields shared by entries, summaries, the analysis result
    and the entry form, and sums of a field over a list of entries. */
module Nutrition {
  import opened Wrappers

  datatype Macro = Protein | Fats | Carbs | Calories

  /** Grams of protein, fats and carbs, and a calorie count. */
  datatype Macros = Macros(protein: real, fats: real, carbs: real, calories: real)

  const Zero := Macros(0.0, 0.0, 0.0, 0.0)

  function Get(m: Macros, f: Macro): real
  {
    match f
    case Protein => m.protein
    case Fats => m.fats
    case Carbs => m.carbs
    case Calories => m.calories
  }

  /** `{ ...m, [f]: v }`. */
  function With(m: Macros, f: Macro, v: real): (r: Macros)
    ensures Get(r, f) == v
    ensures forall g :: g != f ==> Get(r, g) == Get(m, g)
  {
    match f
    case Protein => m.(protein := v)
    case Fats => m.(fats := v)
    case Carbs => m.(carbs := v)
    case Calories => m.(calories := v)
  }

  /** A food entry as the client receives it from the entries endpoint. */
  datatype FoodEntry = FoodEntry(
    id: string,
    imagePath: string,
    description: Option<string>,
    macros: Macros,
    createdAt: int)

  /** The sum of field `f` over `entries`, the reference the folds are checked against. */
  function SumOf(entries: seq<FoodEntry>, f: Macro): real
  {
    if |entries| == 0 then 0.0 else Get(entries[0].macros, f) + SumOf(entries[1..], f)
  }

  lemma {:induction false} SumOfConcat(a: seq<FoodEntry>, b: seq<FoodEntry>, f: Macro)
    ensures SumOf(a + b, f) == SumOf(a, f) + SumOf(b, f)
  {
    if |a| == 0 {
      assert a + b == b;
    } else {
      assert (a + b)[1..] == a[1..] + b;
      SumOfConcat(a[1..], b, f);
    }
  }
}
