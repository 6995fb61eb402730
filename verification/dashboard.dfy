/** The dashboard (src/components/Dashboard.tsx): the macro summary of the
    selected day's entries, and which parts of the page show. */
module Dashboard {
  import opened Nutrition
  import opened Strings

  /** The `MacroSummary` record of src/types/index.ts. */
  datatype MacroSummary = MacroSummary(
    totalProtein: real,
    totalFats: real,
    totalCarbs: real,
    totalCalories: real)

  const EmptySummary := MacroSummary(0.0, 0.0, 0.0, 0.0)

  function Total(s: MacroSummary, f: Macro): real
  {
    match f
    case Protein => s.totalProtein
    case Fats => s.totalFats
    case Carbs => s.totalCarbs
    case Calories => s.totalCalories
  }

  /** One step of the `reduce`: the entry's fields added to the running totals. */
  function AddEntry(summary: MacroSummary, e: FoodEntry): (r: MacroSummary)
  {
    MacroSummary(
      summary.totalProtein + e.macros.protein,
      summary.totalFats + e.macros.fats,
      summary.totalCarbs + e.macros.carbs,
      summary.totalCalories + e.macros.calories)
  }

  /** `entries.reduce(AddEntry, acc)`, folding from the left. */
  function Reduce(entries: seq<FoodEntry>, acc: MacroSummary): MacroSummary
  {
    if |entries| == 0 then acc else Reduce(entries[1..], AddEntry(acc, entries[0]))
  }

  lemma {:induction false} ReduceAddsSums(entries: seq<FoodEntry>, acc: MacroSummary, f: Macro)
    ensures Total(Reduce(entries, acc), f) == Total(acc, f) + SumOf(entries, f)
  {
    if |entries| > 0 {
      ReduceAddsSums(entries[1..], AddEntry(acc, entries[0]), f);
    }
  }

  /** `calculateMacroSummary`: each total is the sum of its field over the entries. */
  function CalculateMacroSummary(entries: seq<FoodEntry>): (summary: MacroSummary)
    ensures forall f :: Total(summary, f) == SumOf(entries, f)
  {
    forall f ensures Total(Reduce(entries, EmptySummary), f) == SumOf(entries, f) {
      ReduceAddsSums(entries, EmptySummary, f);
    }
    Reduce(entries, EmptySummary)
  }

  lemma EmptyListSummary()
    ensures CalculateMacroSummary([]) == EmptySummary
  {
  }

  function Plus(a: MacroSummary, b: MacroSummary): MacroSummary
  {
    MacroSummary(a.totalProtein + b.totalProtein, a.totalFats + b.totalFats,
                 a.totalCarbs + b.totalCarbs, a.totalCalories + b.totalCalories)
  }

  /** Over reals the summary is additive: two lists summarised apart add up
      to the summary of their concatenation. */
  lemma {:induction false} SummaryOfConcat(a: seq<FoodEntry>, b: seq<FoodEntry>)
    ensures CalculateMacroSummary(a + b) == Plus(CalculateMacroSummary(a), CalculateMacroSummary(b))
  {
    var s := CalculateMacroSummary(a + b);
    var sa := CalculateMacroSummary(a);
    var sb := CalculateMacroSummary(b);
    FieldOfConcat(a, b, Protein);
    FieldOfConcat(a, b, Fats);
    FieldOfConcat(a, b, Carbs);
    FieldOfConcat(a, b, Calories);
    assert s.totalProtein == sa.totalProtein + sb.totalProtein by { assert Total(s, Protein) == s.totalProtein; }
    assert s.totalFats == sa.totalFats + sb.totalFats by { assert Total(s, Fats) == s.totalFats; }
    assert s.totalCarbs == sa.totalCarbs + sb.totalCarbs by { assert Total(s, Carbs) == s.totalCarbs; }
    assert s.totalCalories == sa.totalCalories + sb.totalCalories by { assert Total(s, Calories) == s.totalCalories; }
  }

  /** One field of the concatenation's summary is the sum of the two summaries' fields. */
  lemma {:induction false} FieldOfConcat(a: seq<FoodEntry>, b: seq<FoodEntry>, f: Macro)
    ensures Total(CalculateMacroSummary(a + b), f)
            == Total(CalculateMacroSummary(a), f) + Total(CalculateMacroSummary(b), f)
  {
    SumOfConcat(a, b, f);
  }

  /** The chart's props, when the chart shows. */
  datatype ChartProps = ChartProps(protein: real, fats: real, carbs: real)

  datatype DashboardView =
    | Loading
    | Loaded(summary: MacroSummary, chart: ChartProps, showChart: bool, listedCount: nat, showList: bool)

  /** What the page renders from the fetch state. */
  function View(loading: bool, entries: seq<FoodEntry>): (v: DashboardView)
    ensures loading <==> v.Loading?
    ensures v.Loaded? ==>
              && (v.showChart <==> SumOf(entries, Calories) > 0.0)
              && v.chart == ChartProps(SumOf(entries, Protein), SumOf(entries, Fats), SumOf(entries, Carbs))
              && (v.showList <==> |entries| > 0)
              && v.listedCount == |entries|
  {
    if loading then Loading
    else
      var summary := CalculateMacroSummary(entries);
      assert Total(summary, Protein) == summary.totalProtein;
      assert Total(summary, Fats) == summary.totalFats;
      assert Total(summary, Carbs) == summary.totalCarbs;
      assert Total(summary, Calories) == summary.totalCalories;
      Loaded(summary,
             ChartProps(summary.totalProtein, summary.totalFats, summary.totalCarbs),
             summary.totalCalories > 0.0,
             |entries|,
             |entries| > 0)
  }

  /** `isToday`: the selected date equals `new Date().toISOString().split('T')[0]`,
      the date part of the clock's ISO timestamp `now` (a parameter). */
  function IsToday(selectedDate: string, now: string): (r: bool)
    // exactly the date that runs from the start of the timestamp up to its `T`
    ensures r <==> 'T' !in selectedDate && StartsWith(now, selectedDate)
                   && (|selectedDate| == |now| || now[|selectedDate|] == 'T')
  {
    FirstSegmentIsSplit(now, 'T', selectedDate);
    selectedDate == Split(now, 'T')[0]
  }

  /** A list holding only zero-calorie entries shows no chart, yet is listed. */
  lemma ZeroCalorieDayListsWithoutChart(entries: seq<FoodEntry>)
    requires |entries| > 0
    requires forall i :: 0 <= i < |entries| ==> entries[i].macros.calories == 0.0
    ensures var v := View(false, entries); !v.showChart && v.showList
  {
    ZeroCalories(entries);
  }

  lemma {:induction false} ZeroCalories(entries: seq<FoodEntry>)
    requires forall i :: 0 <= i < |entries| ==> entries[i].macros.calories == 0.0
    ensures SumOf(entries, Calories) == 0.0
  {
    if |entries| > 0 {
      ZeroCalories(entries[1..]);
    }
  }
}
