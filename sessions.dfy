/**
 * The per-visitor session record and its JSON form in `localStorage`
 * (src/index.js:55-61, 147-149, 165-168). The storage holds text; the
 * model keeps only what `JSON.parse` makes of it.
 */
module Sessions {
  import opened Wrappers

  /** The session record kept under the `appID` key. */
  datatype Session = Session(
    lastDisplayTime: int,
    returningVisitor: bool,
    displayCount: int,
    optedout: bool,
    added: bool)

  /** `AddToHomescreen.defaultSession` */
  const DefaultSession := Session(0, false, 0, false, false)

  /** The session fields a parsed JSON value carries; missing ones are `None`. */
  datatype Partial = Partial(
    lastDisplayTime: Option<int>,
    returningVisitor: Option<bool>,
    displayCount: Option<int>,
    optedout: Option<bool>,
    added: Option<bool>)

  const NoFields := Partial(None, None, None, None, None)

  /**
   * A stored item, as `JSON.parse` sees it: a truthy JSON value with its
   * session fields (a non-object has none), a falsy JSON value (`null`,
   * `false`, `0`, `""`), text that is not JSON, or the empty string.
   */
  datatype Stored = Json(fields: Partial) | FalsyJson | Malformed | Empty

  /** The store: key -> stored text. */
  type Store = map<string, Stored>

  /** The outcome of src/index.js:148-149: the parsed value and its truthiness, or the SyntaxError of `JSON.parse`. */
  datatype Loaded = Parsed(fields: Partial, truthy: bool) | SyntaxError

  /** `item ? JSON.parse(item) : {}` */
  function Load(item: Option<Stored>): (r: Loaded)
    ensures r == SyntaxError <==> item == Some(Malformed)
    ensures r.Parsed? && !r.truthy ==> r.fields == NoFields
    ensures item.None? ==> r == Parsed(NoFields, true)
  {
    match item
    case None => Parsed(NoFields, true)
    case Some(Empty) => Parsed(NoFields, true)
    case Some(Json(p)) => Parsed(p, true)
    case Some(FalsyJson) => Parsed(NoFields, false)
    case Some(Malformed) => SyntaxError
  }

  /** `{...defaultSession, ...parsed}`: every field the parsed value lacks takes its default. */
  function Merge(p: Partial): (s: Session)
    ensures p.lastDisplayTime.Some? ==> s.lastDisplayTime == p.lastDisplayTime.value
    ensures p.lastDisplayTime.None? ==> s.lastDisplayTime == 0
    ensures p.returningVisitor.Some? ==> s.returningVisitor == p.returningVisitor.value
    ensures p.returningVisitor.None? ==> !s.returningVisitor
    ensures p.displayCount.Some? ==> s.displayCount == p.displayCount.value
    ensures p.displayCount.None? ==> s.displayCount == 0
    ensures p.optedout.Some? ==> s.optedout == p.optedout.value
    ensures p.optedout.None? ==> !s.optedout
    ensures p.added.Some? ==> s.added == p.added.value
    ensures p.added.None? ==> !s.added
    ensures p == NoFields ==> s == DefaultSession
  {
    Session(
      if p.lastDisplayTime.Some? then p.lastDisplayTime.value else DefaultSession.lastDisplayTime,
      if p.returningVisitor.Some? then p.returningVisitor.value else DefaultSession.returningVisitor,
      if p.displayCount.Some? then p.displayCount.value else DefaultSession.displayCount,
      if p.optedout.Some? then p.optedout.value else DefaultSession.optedout,
      if p.added.Some? then p.added.value else DefaultSession.added)
  }

  /** `JSON.stringify(session)`: every field is written. */
  function Serialize(s: Session): (r: Stored)
    ensures r.Json? && Merge(r.fields) == s
    ensures r.fields.lastDisplayTime.Some? && r.fields.returningVisitor.Some? && r.fields.displayCount.Some?
      && r.fields.optedout.Some? && r.fields.added.Some?
  {
    Json(Partial(Some(s.lastDisplayTime), Some(s.returningVisitor), Some(s.displayCount),
                 Some(s.optedout), Some(s.added)))
  }

  /** What was written is what the next page load reads back. */
  lemma LoadSerialized(s: Session)
    ensures Load(Some(Serialize(s))).Parsed?
    ensures Load(Some(Serialize(s))).truthy
    ensures Merge(Load(Some(Serialize(s))).fields) == s
  {
  }
}
