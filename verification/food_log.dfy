/** Today's food log (src/components/FoodLog.tsx): fetching the entries,
    the per-entry cards and the daily totals. The same fetch handling appears
    in src/components/Dashboard.tsx:28-41. */
module FoodLog {
  import opened Wrappers
  import opened Strings
  import opened Nutrition
  import Dashboard

  /** The component state that a fetch touches. */
  datatype LogState = LogState(entries: seq<FoodEntry>, loading: bool)

  /** What `apiCall` and `response.json()` do: an ok response with the
      entries, a non-ok response, or a thrown error (network failure, expired
      session, unreadable body). */
  datatype FetchOutcome = FetchOk(fetched: seq<FoodEntry>) | FetchNotOk | FetchThrew

  const Initial := LogState([], true)

  /** `fetchFoodEntries`, from the start (`setLoading(true)`) to the `finally`. */
  function Fetch(s: LogState, outcome: FetchOutcome): (s': LogState)
    ensures !s'.loading
    ensures outcome.FetchOk? ==> s'.entries == outcome.fetched
    ensures !outcome.FetchOk? ==> s'.entries == s.entries
  {
    var started := s.(loading := true);
    match outcome
    case FetchOk(es) => started.(entries := es, loading := false)
    case _ => started.(loading := false)
  }

  /** A failed fetch after a good one keeps the good one's entries. */
  lemma FailedRefetchKeepsEntries(s: LogState, es: seq<FoodEntry>, failure: FetchOutcome)
    requires !failure.FetchOk?
    ensures Fetch(Fetch(s, FetchOk(es)), failure) == LogState(es, false)
  {
  }

  /** `reduce((sum, entry) => sum + entry.<field>, 0)`, folding from the left. */
  function SumField(entries: seq<FoodEntry>, f: Macro, acc: real): real
  {
    if |entries| == 0 then acc else SumField(entries[1..], f, acc + Get(entries[0].macros, f))
  }

  lemma {:induction false} SumFieldIsSum(entries: seq<FoodEntry>, f: Macro, acc: real)
    ensures SumField(entries, f, acc) == acc + SumOf(entries, f)
  {
    if |entries| > 0 {
      SumFieldIsSum(entries[1..], f, acc + Get(entries[0].macros, f));
    }
  }

  /** The "Daily Totals" figures before display rounding. */
  datatype Totals = Totals(calories: real, protein: real, fats: real, carbs: real)

  function DailyTotals(entries: seq<FoodEntry>): (t: Totals)
    ensures t.calories == SumOf(entries, Calories)
    ensures t.protein == SumOf(entries, Protein)
    ensures t.fats == SumOf(entries, Fats)
    ensures t.carbs == SumOf(entries, Carbs)
  {
    SumFieldIsSum(entries, Calories, 0.0);
    SumFieldIsSum(entries, Protein, 0.0);
    SumFieldIsSum(entries, Fats, 0.0);
    SumFieldIsSum(entries, Carbs, 0.0);
    Totals(SumField(entries, Calories, 0.0), SumField(entries, Protein, 0.0),
           SumField(entries, Fats, 0.0), SumField(entries, Carbs, 0.0))
  }

  /** The log's totals agree with the dashboard's summary of the same entries. */
  lemma TotalsMatchDashboard(entries: seq<FoodEntry>)
    ensures var t := DailyTotals(entries);
            var s := Dashboard.CalculateMacroSummary(entries);
            t == Totals(s.totalCalories, s.totalProtein, s.totalFats, s.totalCarbs)
  {
    var s := Dashboard.CalculateMacroSummary(entries);
    assert Dashboard.Total(s, Calories) == s.totalCalories;
    assert Dashboard.Total(s, Protein) == s.totalProtein;
    assert Dashboard.Total(s, Fats) == s.totalFats;
    assert Dashboard.Total(s, Carbs) == s.totalCarbs;
  }

  const LocalImagePrefix: string := "/api/images/"
  const UntitledEntry: string := "Food Entry"

  /** A plain `<img>` for locally served images, the optimised `Image` otherwise. */
  datatype ImageKind = PlainImg | OptimisedImage

  datatype Card = Card(image: ImageKind, src: string, title: string, macros: Macros)

  function CardOf(e: FoodEntry): (c: Card)
    ensures c.image == PlainImg <==> StartsWith(e.imagePath, LocalImagePrefix)
    ensures c.src == e.imagePath && c.macros == e.macros
    ensures c.title == UntitledEntry <==> e.description.None? || e.description.value == "" || e.description.value == UntitledEntry
    ensures e.description.Some? && e.description.value != "" ==> c.title == e.description.value
  {
    Card(if StartsWith(e.imagePath, LocalImagePrefix) then PlainImg else OptimisedImage,
         e.imagePath,
         if e.description.Some? && e.description.value != "" then e.description.value else UntitledEntry,
         e.macros)
  }

  datatype LogView = LogLoading | NoEntries | EntryList(cards: seq<Card>, totals: Totals)

  function View(s: LogState): (v: LogView)
    ensures s.loading <==> v.LogLoading?
    ensures v.NoEntries? <==> !s.loading && |s.entries| == 0
    ensures v.EntryList? ==>
              && |v.cards| == |s.entries|
              && (forall i :: 0 <= i < |s.entries| ==> v.cards[i] == CardOf(s.entries[i]))
              && v.totals == DailyTotals(s.entries)
  {
    if s.loading then LogLoading
    else if |s.entries| == 0 then NoEntries
    else EntryList(seq(|s.entries|, i requires 0 <= i < |s.entries| => CardOf(s.entries[i])),
                   DailyTotals(s.entries))
  }
}
