/** The food-entries endpoint (src/app/api/food-entries/route.ts): POST
    validates a body and appends one entry owned by the caller; GET lists the
    caller's entries, optionally restricted to one local calendar day, newest
    first. The store is a sequence of rows; the database insert is an outcome
    parameter and timestamps are integer milliseconds. */
module FoodEntries {
  import opened Wrappers
  import opened Js
  import Auth

  /** A stored row. Text fields are kept as the JSON values the body carried. */
  datatype StoredEntry = StoredEntry(
    id: string,
    userId: string,
    imagePath: JsValue,
    description: JsValue,
    protein: Float,
    fats: Float,
    carbs: Float,
    calories: Float,
    createdAt: int)

  /** The fields POST destructures from its JSON body. */
  datatype CreateBody = CreateBody(
    imagePath: JsValue,
    description: JsValue,
    protein: JsValue,
    fats: JsValue,
    carbs: JsValue,
    calories: JsValue)

  /** What the database insert does: assigns an id and a timestamp, or throws. */
  datatype Insert = Inserted(id: string, createdAt: int) | InsertFailed

  datatype PostResponse =
    | PostUnauthorized
    | MissingFields
    | Created(entry: StoredEntry)
    | CreateFailed

  function PostStatus(r: PostResponse): int
  {
    match r
    case PostUnauthorized => 401
    case MissingFields => 400
    case Created(_) => 200
    case CreateFailed => 500
  }

  /** The required-field test: a truthy image path and no macro left
      `undefined`; `null`, `0` and `""` pass it. */
  predicate HasRequiredFields(b: CreateBody)
  {
    Truthy(b.imagePath)
    && b.protein != Undefined && b.fats != Undefined
    && b.carbs != Undefined && b.calories != Undefined
  }

  /** The row a successful insert writes for `owner`. */
  function NewEntry(owner: string, b: CreateBody, parseText: string -> Float, id: string, createdAt: int): StoredEntry
  {
    StoredEntry(
      id, owner, b.imagePath,
      if Truthy(b.description) then b.description else Null,
      ParseFloat(b.protein, parseText), ParseFloat(b.fats, parseText),
      ParseFloat(b.carbs, parseText), ParseFloat(b.calories, parseText),
      createdAt)
  }

  /** POST: `body` is `None` when the request body is not JSON. */
  function Post(user: Option<Auth.AuthUser>, body: Option<CreateBody>, parseText: string -> Float,
                insert: Insert, store: seq<StoredEntry>): (res: (PostResponse, seq<StoredEntry>))
    ensures user.None? ==> res == (PostUnauthorized, store)
    ensures user.Some? && body.None? ==> res == (CreateFailed, store)
    ensures user.Some? && body.Some? && !HasRequiredFields(body.value) ==> res == (MissingFields, store)
    ensures user.Some? && body.Some? && HasRequiredFields(body.value) && insert.InsertFailed? ==> res == (CreateFailed, store)
    ensures res.0.Created? <==> user.Some? && body.Some? && HasRequiredFields(body.value) && insert.Inserted?
    ensures !res.0.Created? ==> res.1 == store
    ensures res.0.Created? ==>
              var e := res.0.entry;
              && res.1 == store + [e]
              && e.userId == user.value.userId
              && e.id == insert.id && e.createdAt == insert.createdAt
              && e.imagePath == body.value.imagePath
              && (Truthy(body.value.description) ==> e.description == body.value.description)
              && (!Truthy(body.value.description) ==> e.description == Null)
              && e.protein == ParseFloat(body.value.protein, parseText)
              && e.fats == ParseFloat(body.value.fats, parseText)
              && e.carbs == ParseFloat(body.value.carbs, parseText)
              && e.calories == ParseFloat(body.value.calories, parseText)
  {
    if user.None? then (PostUnauthorized, store)
    else if body.None? then (CreateFailed, store)
    else if !HasRequiredFields(body.value) then (MissingFields, store)
    else match insert
      case InsertFailed => (CreateFailed, store)
      case Inserted(id, at) =>
        var e := NewEntry(user.value.userId, body.value, parseText, id, at);
        (Created(e), store + [e])
  }

  /** Zero macros are accepted: the test is against `undefined`, not truthiness. */
  lemma ZeroMacrosAccepted(user: Auth.AuthUser, path: string, parseText: string -> Float,
                           insert: Insert, store: seq<StoredEntry>)
    requires path != "" && insert.Inserted?
    ensures var b := CreateBody(Str(path), Undefined, Num(0.0), Num(0.0), Num(0.0), Num(0.0));
            var res := Post(Some(user), Some(b), parseText, insert, store);
            res.0.Created? && res.0.entry.protein == Fin(0.0) && res.0.entry.calories == Fin(0.0)
  {
  }

  /** Whatever owner a body might name, the row belongs to the caller, and
      JSON numbers are stored as those numbers. */
  lemma CreatedEntryBelongsToCaller(user: Auth.AuthUser, b: CreateBody, parseText: string -> Float,
                                   id: string, at: int, store: seq<StoredEntry>)
    requires HasRequiredFields(b)
    requires b.protein.Num? && b.fats.Num? && b.carbs.Num? && b.calories.Num?
    ensures var res := Post(Some(user), Some(b), parseText, Inserted(id, at), store);
            && |res.1| == |store| + 1
            && res.1[|store|].userId == user.userId
            && res.1[|store|].protein == Fin(b.protein.n)
            && res.1[|store|].fats == Fin(b.fats.n)
            && res.1[|store|].carbs == Fin(b.carbs.n)
            && res.1[|store|].calories == Fin(b.calories.n)
  {
  }

  // ---------------------------------------------------------------- GET

  /** Local midnight and 23:59:59.999 of the day `new Date(date)` names. */
  datatype DayRange = DayRange(start: int, end: int)

  /** Turns a `date` query value into its day bounds; `None` for an invalid date. */
  type DayBounds = string -> Option<DayRange>

  /** The time restriction of a listing. */
  datatype Window = AllTime | Day(range: DayRange) | InvalidDay

  /** An absent or empty `date` parameter is falsy: no time restriction. */
  function WindowOf(date: Option<string>, bounds: DayBounds): (w: Window)
    ensures w.AllTime? <==> date.None? || date.value == ""
    ensures w.Day? ==> date.Some? && bounds(date.value) == Some(w.range)
    ensures w.InvalidDay? <==> date.Some? && date.value != "" && bounds(date.value).None?
  {
    if date.None? || date.value == "" then AllTime
    else match bounds(date.value)
      case Some(r) => Day(r)
      case None => InvalidDay
  }

  /** The `where` clause: owner, and the inclusive day range when one is given. */
  predicate Selected(e: StoredEntry, owner: string, w: Window)
  {
    e.userId == owner
    && (w.Day? ==> w.range.start <= e.createdAt <= w.range.end)
  }

  predicate NewestFirst(s: seq<StoredEntry>)
  {
    forall i, j :: 0 <= i < j < |s| ==> s[i].createdAt >= s[j].createdAt
  }

  /** The rows the `where` clause selects, in store order, each as often as stored. */
  function SelectEntries(store: seq<StoredEntry>, owner: string, w: Window): (r: seq<StoredEntry>)
    ensures forall e :: multiset(r)[e] == if Selected(e, owner, w) then multiset(store)[e] else 0
    ensures forall i :: 0 <= i < |r| ==> Selected(r[i], owner, w)
  {
    if |store| == 0 then []
    else
      var init := store[..|store| - 1];
      var last := store[|store| - 1];
      assert store == init + [last];
      var r := SelectEntries(init, owner, w);
      if Selected(last, owner, w) then r + [last] else r
  }

  /** Places `x` before the first row that is not newer than it. */
  function InsertByTime(x: StoredEntry, s: seq<StoredEntry>): (r: seq<StoredEntry>)
    requires NewestFirst(s)
    ensures NewestFirst(r)
    ensures multiset(r) == multiset(s) + multiset{x}
    ensures |r| == |s| + 1
    ensures forall i :: 0 <= i < |r| ==> r[i] == x || r[i] in s
  {
    if |s| == 0 then [x]
    else if s[0].createdAt <= x.createdAt then
      PrependNewest(x, s);
      [x] + s
    else
      var r' := InsertByTime(x, s[1..]);
      assert s == [s[0]] + s[1..];
      PrependNewest(s[0], r');
      [s[0]] + r'
  }

  /** A row no older than every row of a newest-first list may go in front of it. */
  lemma PrependNewest(y: StoredEntry, s: seq<StoredEntry>)
    requires NewestFirst(s)
    requires |s| > 0 ==> s[0].createdAt <= y.createdAt
    ensures NewestFirst([y] + s)
  {
  }

  /** `orderBy: { createdAt: 'desc' }`. */
  function SortNewestFirst(s: seq<StoredEntry>): (r: seq<StoredEntry>)
    ensures NewestFirst(r)
    ensures multiset(r) == multiset(s)
  {
    if |s| == 0 then []
    else
      assert s == [s[0]] + s[1..];
      InsertByTime(s[0], SortNewestFirst(s[1..]))
  }

  datatype ListResponse = ListUnauthorized | Listed(entries: seq<StoredEntry>) | ListFailed

  function ListStatus(r: ListResponse): int
  {
    match r
    case ListUnauthorized => 401
    case Listed(_) => 200
    case ListFailed => 500
  }

  /** What `findMany` does: answers from the store, or rejects. */
  datatype Read = ReadOk | ReadFailed

  /** GET, given the `date` query parameter (`None` when absent). */
  function List(user: Option<Auth.AuthUser>, date: Option<string>, bounds: DayBounds,
                store: seq<StoredEntry>, read: Read): (res: ListResponse)
    ensures user.None? ==> res == ListUnauthorized
    // an unparseable date or a rejected read is caught and answered 500
    ensures res.ListFailed? <==> user.Some? && (WindowOf(date, bounds).InvalidDay? || read.ReadFailed?)
    ensures user.Some? && !WindowOf(date, bounds).InvalidDay? && read.ReadOk? ==> res.Listed?
    ensures res.Listed? ==>
              var w := WindowOf(date, bounds);
              && user.Some?
              && NewestFirst(res.entries)
              && (forall e :: multiset(res.entries)[e]
                               == if Selected(e, user.value.userId, w) then multiset(store)[e] else 0)
  {
    if user.None? then ListUnauthorized
    else
      var w := WindowOf(date, bounds);
      if w.InvalidDay? || read.ReadFailed? then ListFailed
      else Listed(SortNewestFirst(SelectEntries(store, user.value.userId, w)))
  }

  /** Every listed row is the caller's, and inside the day when one is given. */
  lemma {:induction false} ListedRowsSelected(user: Auth.AuthUser, date: Option<string>, bounds: DayBounds,
                                              store: seq<StoredEntry>, i: int)
    requires List(Some(user), date, bounds, store, ReadOk).Listed?
    requires 0 <= i < |List(Some(user), date, bounds, store, ReadOk).entries|
    ensures var e := List(Some(user), date, bounds, store, ReadOk).entries[i];
            && e.userId == user.userId
            && e in store
            && (WindowOf(date, bounds).Day? ==>
                  WindowOf(date, bounds).range.start <= e.createdAt <= WindowOf(date, bounds).range.end)
  {
    var es := List(Some(user), date, bounds, store, ReadOk).entries;
    var e := es[i];
    assert e in multiset(es);
  }

  /** A row a caller creates is in the caller's listing of any day window
      containing its timestamp, and in the unrestricted listing. */
  lemma {:induction false} CreatedThenListed(user: Auth.AuthUser, b: CreateBody, parseText: string -> Float,
                                             id: string, at: int, store: seq<StoredEntry>,
                                             date: Option<string>, bounds: DayBounds)
    requires HasRequiredFields(b)
    requires WindowOf(date, bounds).AllTime?
             || (WindowOf(date, bounds).Day? &&
                 WindowOf(date, bounds).range.start <= at <= WindowOf(date, bounds).range.end)
    ensures var post := Post(Some(user), Some(b), parseText, Inserted(id, at), store);
            var listed := List(Some(user), date, bounds, post.1, ReadOk);
            listed.Listed? && post.0.entry in listed.entries
  {
    var post := Post(Some(user), Some(b), parseText, Inserted(id, at), store);
    var e := post.0.entry;
    var listed := List(Some(user), date, bounds, post.1, ReadOk);
    assert Selected(e, user.userId, WindowOf(date, bounds));
    assert multiset(post.1)[e] > 0 by { assert post.1[|store|] == e; }
    assert multiset(listed.entries)[e] > 0;
  }
}
