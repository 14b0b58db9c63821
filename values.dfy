/** Values that cross the HTTP boundary, the column types the database stores
    them in, and the text matching that SQL's ILIKE performs. */
module Values {

  datatype Option<+T> = None | Some(value: T)

  /** A decoded JSON value, as `request.get_json()` hands it to a route. */
  datatype Json =
    | JNull
    | JBool(b: bool)
    | JInt(i: int)
    | JStr(s: string)
    | JArray(items: seq<Json>)
    | JObject(fields: map<string, Json>)

  /** Python truthiness of a decoded JSON value (`if value:`). */
  predicate Truthy(v: Json) {
    match v
    case JNull => false
    case JBool(b) => b
    case JInt(i) => i != 0
    case JStr(s) => s != ""
    case JArray(xs) => xs != []
    case JObject(m) => m != map[]
  }

  /** `data.get(key)`: the value stored under `key`, JSON null when the key is absent. */
  function Get(data: map<string, Json>, key: string): Json {
    if key in data then data[key] else JNull
  }

  /** The `{'error': message}` body every failing route returns. */
  function ErrorBody(message: string): Json {
    JObject(map["error" := JStr(message)])
  }

  /** The body of a route that only reports `{'mensaje': message}`. */
  function MessageBody(message: string): Json {
    JObject(map["mensaje" := JStr(message)])
  }

  /** An HTTP response: status code and JSON body. */
  datatype Response = Response(status: int, body: Json)

  /** Text of the 500 body: the routes return `str(e)`, whose wording is not modelled. */
  const InternalErrorText: string := "internal error"

  function InternalError(): Response {
    Response(500, ErrorBody(InternalErrorText))
  }

  // ---------------------------------------------------------------------------
  // Dates and timestamps
  // ---------------------------------------------------------------------------

  /** A calendar date, kept as the ISO text `date.isoformat()` prints. */
  datatype Date = Date(iso: string)

  /** A UTC timestamp: its date and its time of day as ISO text. */
  datatype DateTime = DateTime(day: Date, clock: string)

  function IsoFormat(t: DateTime): string {
    t.day.iso + "T" + t.clock
  }

  // ---------------------------------------------------------------------------
  // Storing a JSON value in a column
  // ---------------------------------------------------------------------------

  /** What the database makes of a JSON value written to a nullable column:
      it is rejected (the transaction fails), or it is stored as NULL or a value. */
  datatype Column<T> = Rejected | Stored(value: Option<T>)

  function IntColumn(v: Json): Column<int> {
    match v
    case JNull => Stored(None)
    case JInt(i) => Stored(Some(i))
    case _ => Rejected
  }

  /** Text the database driver can send: psycopg2 refuses a string holding
      a NUL character, and so does PostgreSQL's text type. */
  predicate StorableText(s: string) {
    '\0' !in s
  }

  /** A JSON value usable as a text parameter of a query: a string without
      NUL. Anything else makes the query fail. */
  predicate SqlText(v: Json) {
    v.JStr? && StorableText(v.s)
  }

  /** An unbounded `Text` column. */
  function TextColumn(v: Json): Column<string> {
    match v
    case JNull => Stored(None)
    case JStr(s) => if StorableText(s) then Stored(Some(s)) else Rejected
    case _ => Rejected
  }

  /** A `String(width)` column: PostgreSQL refuses text longer than the
      declared width. */
  function VarcharColumn(v: Json, width: nat): Column<string> {
    match v
    case JNull => Stored(None)
    case JStr(s) => if |s| <= width && StorableText(s) then Stored(Some(s)) else Rejected
    case _ => Rejected
  }

  /** A value a `String(width)` column declared `nullable=False` takes: text
      of at most `width` characters. */
  predicate FitsVarchar(v: Json, width: nat) {
    SqlText(v) && |v.s| <= width
  }

  /** A date column takes the date's ISO text. */
  function DateColumn(v: Json): Column<Date> {
    match v
    case JNull => Stored(None)
    case JStr(s) => if StorableText(s) then Stored(Some(Date(s))) else Rejected
    case _ => Rejected
  }

  // JSON renderings of nullable columns, as `to_dict` writes them.

  function IntJson(o: Option<int>): Json {
    if o.Some? then JInt(o.value) else JNull
  }

  function BoolJson(o: Option<bool>): Json {
    if o.Some? then JBool(o.value) else JNull
  }

  function TextJson(o: Option<string>): Json {
    if o.Some? then JStr(o.value) else JNull
  }

  function DateJson(o: Option<Date>): Json {
    if o.Some? then JStr(o.value.iso) else JNull
  }

  function DateTimeJson(o: Option<DateTime>): Json {
    if o.Some? then JStr(IsoFormat(o.value)) else JNull
  }

  /** Storing a value and rendering it back gives the value itself. */
  lemma IntColumnRoundTrip(v: Json)
    requires IntColumn(v).Stored?
    ensures IntJson(IntColumn(v).value) == v
  {
  }

  lemma TextColumnRoundTrip(v: Json)
    requires TextColumn(v).Stored?
    ensures TextJson(TextColumn(v).value) == v
  {
  }

  lemma VarcharColumnRoundTrip(v: Json, width: nat)
    requires VarcharColumn(v, width).Stored?
    ensures TextJson(VarcharColumn(v, width).value) == v
  {
  }

  lemma DateColumnRoundTrip(v: Json)
    requires DateColumn(v).Stored?
    ensures DateJson(DateColumn(v).value) == v
  {
  }

  // ---------------------------------------------------------------------------
  // ILIKE '%needle%'
  // ---------------------------------------------------------------------------

  function Lower(c: char): char {
    if 'A' <= c <= 'Z' then (c as int + 32) as char else c
  }

  function LowerText(s: string): (r: string)
    ensures |r| == |s|
    ensures forall i :: 0 <= i < |s| ==> r[i] == Lower(s[i])
  {
    seq(|s|, i requires 0 <= i < |s| => Lower(s[i]))
  }

  /** `needle` occurs in `hay` starting at position `i`. */
  predicate OccursAt(needle: string, hay: string, i: int) {
    0 <= i <= |hay| - |needle| && hay[i..i + |needle|] == needle
  }

  /** `needle` occurs in `hay` as a contiguous piece. */
  predicate IsSubstring(needle: string, hay: string) {
    exists i :: 0 <= i <= |hay| && OccursAt(needle, hay, i)
  }

  /** `column ILIKE '%needle%'`: a NULL column never matches. */
  predicate ContainsIgnoringCase(column: Option<string>, needle: string) {
    column.Some? && IsSubstring(LowerText(needle), LowerText(column.value))
  }

  /** Python's `s.replace(pat, repl)`: every non-overlapping occurrence, left to right. */
  function ReplaceAll(s: string, pat: string, repl: string): string
    requires pat != ""
    decreases |s|
  {
    if |s| < |pat| then s
    else if s[..|pat|] == pat then repl + ReplaceAll(s[|pat|..], pat, repl)
    else [s[0]] + ReplaceAll(s[1..], pat, repl)
  }
}
