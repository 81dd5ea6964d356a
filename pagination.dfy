/** Offset pagination options and the opaque cursor token: JSON text,
    encoded as UTF-8 and wrapped in unpadded base64url. */
module Pagination {
  import opened Wrappers
  import opened Js
  import opened Numbers
  import Json
  import JsonRoundTrip
  import Utf8
  import Base64Url

  /** The options object: page and limit as parseInt read them, a sort on
      one key whose direction is 1 or -1, and the decoded cursor when one
      was given. */
  datatype Options = Options(
    page: IntOrNaN,
    limit: IntOrNaN,
    sortBy: string,
    direction: int,
    cursor: Option<Json.Json>)

  const InvalidCursor: string := "Invalid cursor"

  /** encodeCursor: base64url of the UTF-8 bytes of JSON.stringify(obj). */
  function EncodeCursor(v: Json.Json): (s: string)
    ensures s != []
    ensures forall i :: 0 <= i < |s| ==> Base64Url.InAlphabet(s[i])
    ensures '=' !in s
  {
    JsonRoundTrip.StringifyStart(v);
    Base64Url.Encode(Utf8.Encode(Json.Stringify(v)))
  }

  /** decodeCursor: None wherever JSON.parse, the UTF-8 reading or the
      base64url reading fails. */
  function DecodeCursor(s: string): (r: Option<Json.Json>)
    ensures r.Some? ==> forall i :: 0 <= i < |s| ==> Base64Url.InAlphabet(s[i])
  {
    match Base64Url.Decode(s)
    case None => None
    case Some(bs) =>
      match Utf8.Decode(bs)
      case None => None
      case Some(text) => Json.Parse(text)
  }

  /** The options before the cursor is read. */
  function BaseOptions(query: Bag): (o: Options)
    ensures o.cursor.None?
    ensures o.page == ParseInt(ValueOr(Get(query, "page"), "1"))
    ensures o.limit == ParseInt(ValueOr(Get(query, "limit"), "10"))
    ensures o.sortBy == (if "sortBy" in query then query["sortBy"] else "timestamp")
    ensures o.direction == 1 || o.direction == -1
    ensures o.direction == 1 <==> Get(query, "order") == Some("asc")
  {
    assert "desc" != "asc" by {
      assert "desc"[0] != "asc"[0];
    }
    Options(
      ParseInt(ValueOr(Get(query, "page"), "1")),
      ParseInt(ValueOr(Get(query, "limit"), "10")),
      ValueOr(Get(query, "sortBy"), "timestamp"),
      if ValueOr(Get(query, "order"), "desc") == "asc" then 1 else -1,
      None)
  }

  /** buildPagination: the defaults page 1, limit 10, sortBy "timestamp" and
      order "desc" apply to missing parameters; a truthy cursor is decoded
      or the whole call fails with "Invalid cursor". */
  function BuildPagination(query: Bag): (r: Result<Options, string>)
    ensures r.Failure? <==> Truthy(Get(query, "cursor")) && DecodeCursor(query["cursor"]).None?
    ensures r.Failure? ==> r.error == InvalidCursor
    ensures r.Success? ==> r.value.(cursor := None) == BaseOptions(query)
    ensures r.Success? ==> (r.value.cursor.Some? <==> Truthy(Get(query, "cursor")))
  {
    var base := BaseOptions(query);
    var cursor := Get(query, "cursor");
    if Truthy(cursor) then
      match DecodeCursor(cursor.value)
      case None => Failure(InvalidCursor)
      case Some(v) => Success(base.(cursor := Some(v)))
    else Success(base)
  }

  /** The cursor decodes back to the value it was made from, for every value
      whose objects have distinct keys. */
  lemma {:induction false} CursorRoundTrip(v: Json.Json)
    requires Json.WellFormed(v)
    ensures DecodeCursor(EncodeCursor(v)) == Some(v)
  {
    var text := Json.Stringify(v);
    Base64Url.DecodeEncode(Utf8.Encode(text));
    Utf8.DecodeEncode(text);
    JsonRoundTrip.RoundTrip(v);
  }

  /** With no parameters the options are page 1, limit 10, a descending sort
      on "timestamp", and no cursor. */
  lemma {:induction false} Defaults()
    ensures BuildPagination(map[]) == Success(Options(Int(1), Int(10), "timestamp", -1, None))
  {
    var q: Bag := map[];
    assert !Truthy(Get(q, "cursor"));
    DefaultBase();
  }

  lemma {:induction false} DefaultBase()
    ensures BaseOptions(map[]) == Options(Int(1), Int(10), "timestamp", -1, None)
  {
    var q: Bag := map[];
    assert Get(q, "page") == None && Get(q, "limit") == None;
    assert Get(q, "sortBy") == None && Get(q, "order") == None;
    assert "desc" != "asc" by {
      assert "desc"[0] != "asc"[0];
    }
    OneAndTen();
  }

  /** The sort direction is 1 exactly when order is "asc" (so "ASC" sorts
      descending) and -1 otherwise, and the sort key is sortBy or
      "timestamp". */
  lemma {:induction false} SortDirection(query: Bag)
    requires BuildPagination(query).Success?
    ensures var o := BuildPagination(query).value;
            (o.direction == 1 <==> Get(query, "order") == Some("asc"))
            && (o.direction == 1 || o.direction == -1)
            && o.sortBy == (if "sortBy" in query then query["sortBy"] else "timestamp")
  {
    var o := BuildPagination(query).value;
    var base := BaseOptions(query);
    assert o.direction == base.direction && o.sortBy == base.sortBy;
    assert "desc" != "asc" by {
      assert "desc"[0] != "asc"[0];
    }
  }

  /** A missing or empty cursor gives options without a cursor, and the
      call cannot fail. */
  lemma {:induction false} NoCursor(query: Bag)
    requires !Truthy(Get(query, "cursor"))
    ensures BuildPagination(query).Success? && BuildPagination(query).value.cursor.None?
  {
  }

  /** The call fails exactly when a truthy cursor does not decode, and then
      with "Invalid cursor". */
  lemma {:induction false} InvalidCursorIff(query: Bag)
    ensures BuildPagination(query).Failure?
        <==> Truthy(Get(query, "cursor")) && DecodeCursor(query["cursor"]).None?
    ensures BuildPagination(query).Failure? ==> BuildPagination(query).error == InvalidCursor
  {
  }

  /** A cursor made by EncodeCursor is accepted: the options carry the value
      it was made from, and page, limit and sort are those the query gives
      without the cursor. */
  lemma {:induction false} EncodedCursorAccepted(query: Bag, v: Json.Json)
    requires Json.WellFormed(v)
    ensures var q := query["cursor" := EncodeCursor(v)];
            var without := BuildPagination(query - {"cursor"});
            without.Success? && BuildPagination(q) == Success(without.value.(cursor := Some(v)))
  {
    CursorRoundTrip(v);
    var q := query["cursor" := EncodeCursor(v)];
    assert Get(q, "page") == Get(query - {"cursor"}, "page");
    assert Get(q, "limit") == Get(query - {"cursor"}, "limit");
    assert Get(q, "sortBy") == Get(query - {"cursor"}, "sortBy");
    assert Get(q, "order") == Get(query - {"cursor"}, "order");
  }

  /** page and limit are parseInt of what the query holds: an integer written
      in decimal and followed by anything but a digit reads as that integer. */
  lemma {:induction false} PageAndLimit(query: Bag, page: int, limit: int, pageRest: string, limitRest: string)
    requires pageRest == [] || !IsDigit(pageRest[0])
    requires limitRest == [] || !IsDigit(limitRest[0])
    requires Get(query, "page") == Some(IntToString(page) + pageRest)
    requires Get(query, "limit") == Some(IntToString(limit) + limitRest)
    requires BuildPagination(query).Success?
    ensures BuildPagination(query).value.page == Int(page)
    ensures BuildPagination(query).value.limit == Int(limit)
  {
    ParseIntOfIntToString(page, pageRest);
    ParseIntOfIntToString(limit, limitRest);
  }
}
