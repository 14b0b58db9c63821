/** What the routes share in reading a request and shaping an answer: the
    listing arguments, the `for field in required: if field not in data`
    check of every create, and the bodies they answer with. */
module Requests {
  import opened Values

  /** The first of `fields` the body lacks, in the order the route lists them. */
  function FirstMissing(data: map<string, Json>, fields: seq<string>): (r: Option<string>)
    ensures r.None? <==> forall i :: 0 <= i < |fields| ==> fields[i] in data
    ensures r.Some? ==> exists i :: 0 <= i < |fields| && fields[i] == r.value && r.value !in data &&
                                   forall j :: 0 <= j < i ==> fields[j] in data
    decreases |fields|
  {
    if fields == [] then None
    else if fields[0] !in data then Some(fields[0])
    else
      var rest := FirstMissing(data, fields[1..]);
      assert rest.Some? ==> exists i :: 0 <= i < |fields| && fields[i] == rest.value && rest.value !in data &&
                                        forall j :: 0 <= j < i ==> fields[j] in data by {
        if rest.Some? {
          var i :| 0 <= i < |fields[1..]| && fields[1..][i] == rest.value && rest.value !in data &&
                   forall j :: 0 <= j < i ==> fields[1..][j] in data;
          assert fields[i + 1] == rest.value;
          assert forall j :: 0 <= j < i + 1 ==> fields[j] in data by {
            forall j | 0 <= j < i + 1
              ensures fields[j] in data
            {
              if j > 0 {
                assert fields[j] == fields[1..][j - 1];
              }
            }
          }
        }
      }
      assert rest.None? ==> forall i :: 0 <= i < |fields| ==> fields[i] in data by {
        if rest.None? {
          forall i | 0 <= i < |fields|
            ensures fields[i] in data
          {
            if i > 0 {
              assert fields[i] == fields[1..][i - 1];
            }
          }
        }
      }
      rest
  }

  /** The route's loop over its required fields: it stops at the first one
      the body lacks. */
  method FindMissing(data: map<string, Json>, fields: seq<string>) returns (r: Option<string>)
    ensures r == FirstMissing(data, fields)
  {
    var i := 0;
    while i < |fields|
      invariant 0 <= i <= |fields|
      invariant FirstMissing(data, fields[i..]) == FirstMissing(data, fields)
    {
      if fields[i] !in data {
        return Some(fields[i]);
      }
      assert fields[i..][1..] == fields[i + 1..];
      i := i + 1;
    }
    assert fields[i..] == [];
    return None;
  }

  /** The 400 answer to a body that lacks a required field: `Campo <field> es requerido`. */
  function MissingField(field: string): Response {
    Response(400, ErrorBody("Campo " + field + " es requerido"))
  }

  /** The body of a successful write: `{'mensaje': message, key: record}`. */
  function RecordBody(message: string, key: string, record: map<string, Json>): (j: Json)
    requires key != "mensaje"
    ensures j.JObject? && j.fields.Keys == {"mensaje", key}
    ensures j.fields["mensaje"] == JStr(message) && j.fields[key] == JObject(record)
  {
    JObject(map["mensaje" := JStr(message), key := JObject(record)])
  }

  /** The body of a listing: the page's records under `key`, and the
      pagination's `total`, `pages` and `current_page`. */
  function ListBody(key: string, records: Json, total: int, pages: int, currentPage: int): (j: Json)
    requires key !in {"total", "pages", "current_page"}
    ensures j.JObject? && j.fields.Keys == {key, "total", "pages", "current_page"}
  {
    JObject(map[key := records, "total" := JInt(total), "pages" := JInt(pages), "current_page" := JInt(currentPage)])
  }

  /** The values `ListBody` holds under each key. */
  lemma ListBodyFields(key: string, records: Json, total: int, pages: int, currentPage: int)
    requires key !in {"total", "pages", "current_page"}
    ensures var j := ListBody(key, records, total, pages, currentPage);
            j.fields[key] == records && j.fields["total"] == JInt(total) &&
            j.fields["pages"] == JInt(pages) && j.fields["current_page"] == JInt(currentPage)
  {
  }

  /** A list of records as a JSON array, in the given order. */
  function Records(records: seq<map<string, Json>>): (j: Json)
    ensures j.JArray? && |j.items| == |records|
    ensures forall i :: 0 <= i < |records| ==> j.items[i] == JObject(records[i])
  {
    JArray(seq(|records|, i requires 0 <= i < |records| => JObject(records[i])))
  }

  // ---------------------------------------------------------------------------
  // Listing arguments
  // ---------------------------------------------------------------------------

  /** `if arg: query.filter_by(column=arg)`: an absent or zero argument
      filters nothing. */
  predicate FilterOk(arg: Option<int>, column: Option<int>) {
    arg.None? || arg.value == 0 || column == Some(arg.value)
  }

  /** The page and page size a listing passes on: 1 and 50 by default. */
  function PageArg(page: Option<int>): int {
    if page.Some? then page.value else 1
  }

  function PerPageArg(perPage: Option<int>): int {
    if perPage.Some? then perPage.value else 50
  }
}
