/** Saved searches: queries a user stores for later, private to their owner
    or shared with the whole organization. One visibility rule governs
    listing, reading and deleting. */
module SavedSearchController {
  import opened Wrappers
  import opened Js
  import Json
  import Sorting
  import opened AuthMiddleware

  /** A stored saved search. The id stands for the store's document id;
      `createdAt` is the creation time the timestamps option records. */
  datatype SavedSearch = SavedSearch(
    id: nat,
    organizationId: string,
    userId: string,
    name: string,
    query: Json.Json,
    isGlobal: bool,
    createdAt: int)

  /** The fields of a create request's body; None is an absent or null
      property. */
  datatype Body = Body(name: Prop, query: Option<Json.Json>, isGlobal: Option<Json.Json>)

  const UnauthorizedMessage := "Unauthorized: missing userId or organizationId"
  const NotFoundMessage := "Not found or not authorized"
  const DeletedMessage := "Deleted successfully"

  /** What a handler answers: a status with a message, a document, the
      schema paths that failed validation, or a cast failure of the route's
      id; the last two are errors handed on to the error handler. */
  datatype Response =
    | Created(search: SavedSearch)
    | Found(search: SavedSearch)
    | Deleted(message: string)
    | Rejected(status: int, message: string)
    | Invalid(paths: seq<string>)
    | CastError

  /** Same organization, and owned by the user or shared organization-wide. */
  predicate Visible(s: SavedSearch, user: ReqUser) {
    s.organizationId == user.organizationId && (s.userId == user.id || s.isGlobal)
  }

  /** `!!isGlobal`. */
  predicate IsGlobal(v: Option<Json.Json>) {
    v.Some? && Json.Truthy(v.value)
  }

  /** The schema's required checks that fail for a body, in schema order: a
      name must be a non-empty string, a query must not be null. The owner
      fields come from the token and are checked before. */
  function FailingPaths(body: Body): (paths: seq<string>)
    ensures ("name" in paths <==> !Truthy(body.name))
    ensures ("query" in paths <==> body.query.None? || body.query.value == Json.Null)
    ensures forall p :: p in paths ==> p == "name" || p == "query"
    ensures |paths| <= 2 && (|paths| == 2 ==> paths == ["name", "query"])
  {
    (if Truthy(body.name) then [] else ["name"])
    + (if body.query.Some? && body.query.value != Json.Null then [] else ["query"])
  }

  /** createSavedSearch, given the id and time the store would assign. */
  function CreateOutcome(user: ReqUser, body: Body, id: nat, now: int): (r: Response)
    ensures r.Created? || r.Rejected? || r.Invalid?
    ensures r.Rejected? <==> user.id == "" || user.organizationId == ""
    ensures r.Rejected? ==> r == Rejected(401, UnauthorizedMessage)
    ensures r.Invalid? ==> r.paths != [] && r.paths == FailingPaths(body)
    ensures r.Created? <==> user.id != "" && user.organizationId != "" && FailingPaths(body) == []
    ensures r.Created? ==>
              && r.search.organizationId == user.organizationId
              && r.search.userId == user.id
              && Some(r.search.name) == body.name
              && Some(r.search.query) == body.query
              && (r.search.isGlobal <==> IsGlobal(body.isGlobal))
              && r.search.id == id && r.search.createdAt == now
              && Visible(r.search, user)
  {
    if user.id == "" || user.organizationId == "" then Rejected(401, UnauthorizedMessage)
    else
      var paths := FailingPaths(body);
      if paths != [] then Invalid(paths)
      else Created(SavedSearch(id, user.organizationId, user.id, body.name.value,
                               body.query.value, IsGlobal(body.isGlobal), now))
  }

  /** The searches a user may see, in store order. */
  function VisibleOf(ss: seq<SavedSearch>, user: ReqUser): (r: seq<SavedSearch>)
    ensures |r| <= |ss|
    ensures forall s :: s in r <==> s in ss && Visible(s, user)
  {
    if ss == [] then []
    else
      var rest := VisibleOf(ss[1..], user);
      assert forall s :: s in ss <==> s == ss[0] || s in ss[1..];
      if Visible(ss[0], user) then [ss[0]] + rest else rest
  }

  function CreatedAt(s: SavedSearch): int {
    s.createdAt
  }

  /** listSavedSearches: exactly the visible searches, newest first. */
  function List(ss: seq<SavedSearch>, user: ReqUser): (r: seq<SavedSearch>)
    ensures Sorting.SortedDesc(r, CreatedAt)
    ensures multiset(r) == multiset(VisibleOf(ss, user))
    ensures forall s :: s in r <==> s in ss && Visible(s, user)
  {
    var r := Sorting.SortDesc(VisibleOf(ss, user), CreatedAt);
    assert forall s :: s in r <==> s in multiset(VisibleOf(ss, user));
    r
  }

  predicate Matches(s: SavedSearch, user: ReqUser, id: nat) {
    s.id == id && Visible(s, user)
  }

  /** The position of the first search with the id that the user may see. */
  function FindVisible(ss: seq<SavedSearch>, user: ReqUser, id: nat): (k: Option<nat>)
    ensures k.None? <==> forall i :: 0 <= i < |ss| ==> !Matches(ss[i], user, id)
    ensures k.Some? ==> k.value < |ss| && Matches(ss[k.value], user, id)
    ensures k.Some? ==> forall i :: 0 <= i < k.value ==> !Matches(ss[i], user, id)
  {
    if ss == [] then None
    else if Matches(ss[0], user, id) then Some(0)
    else
      match FindVisible(ss[1..], user, id)
      case None => None
      case Some(k) => Some(k + 1)
  }

  /** getSavedSearch. `castId` is the store's conversion of the route
      parameter to a document id. */
  function Get(ss: seq<SavedSearch>, user: ReqUser, param: string, castId: string -> Option<nat>): (r: Response)
    ensures r.Found? || r.CastError? || r == Rejected(404, NotFoundMessage)
    ensures r.CastError? <==> castId(param).None?
    ensures r.Found? ==> r.search in ss && r.search.id == castId(param).value && Visible(r.search, user)
    ensures r.Rejected? <==> castId(param).Some? && forall s :: s in ss ==> !Matches(s, user, castId(param).value)
  {
    match castId(param)
    case None => CastError
    case Some(id) =>
      match FindVisible(ss, user, id)
      case None => Rejected(404, NotFoundMessage)
      case Some(k) => Found(ss[k])
  }

  /** No two searches share an id. */
  predicate UniqueIds(ss: seq<SavedSearch>) {
    forall i, j :: 0 <= i < j < |ss| ==> ss[i].id != ss[j].id
  }

  /** `ss` without its k-th element. */
  function RemoveAt(ss: seq<SavedSearch>, k: nat): seq<SavedSearch>
    requires k < |ss|
  {
    ss[..k] + ss[k + 1..]
  }

  /** The store of saved searches. */
  class Store {
    var searches: seq<SavedSearch>
    var nextId: nat

    /** Ids are distinct and below the next one handed out. */
    ghost predicate Valid()
      reads this
    {
      UniqueIds(searches) && forall i :: 0 <= i < |searches| ==> searches[i].id < nextId
    }

    constructor()
      ensures Valid() && searches == [] && nextId == 0
    {
      searches := [];
      nextId := 0;
    }

    /** createSavedSearch: store the new search if the request is accepted. */
    method Create(user: ReqUser, body: Body, now: int) returns (r: Response)
      requires Valid()
      modifies this
      ensures Valid()
      ensures r == CreateOutcome(user, body, old(nextId), now)
      ensures r.Created? ==> searches == old(searches) + [r.search] && nextId == old(nextId) + 1
      ensures !r.Created? ==> searches == old(searches) && nextId == old(nextId)
    {
      r := CreateOutcome(user, body, nextId, now);
      if r.Created? {
        searches := searches + [r.search];
        nextId := nextId + 1;
      }
    }

    /** deleteSavedSearch: remove the first search with the id that the user
        may see, if there is one. */
    method Delete(user: ReqUser, param: string, castId: string -> Option<nat>) returns (r: Response)
      requires Valid()
      modifies this
      ensures Valid() && nextId == old(nextId)
      ensures castId(param).None? ==> r == CastError && searches == old(searches)
      ensures castId(param).Some? ==>
                match FindVisible(old(searches), user, castId(param).value)
                case None => r == Rejected(404, NotFoundMessage) && searches == old(searches)
                case Some(k) => r == Deleted(DeletedMessage) && searches == RemoveAt(old(searches), k)
    {
      match castId(param)
      case None =>
        r := CastError;
      case Some(id) =>
        match FindVisible(searches, user, id)
        case None =>
          r := Rejected(404, NotFoundMessage);
        case Some(k) =>
          RemoveKeepsUnique(searches, k);
          searches := RemoveAt(searches, k);
          r := Deleted(DeletedMessage);
    }
  }

  // Properties of visibility and of the store's operations.

  /** Removing one search keeps ids distinct, and removes that search and
      nothing else. */
  lemma {:induction false} RemoveKeepsUnique(ss: seq<SavedSearch>, k: nat)
    requires k < |ss| && UniqueIds(ss)
    ensures UniqueIds(RemoveAt(ss, k))
    ensures forall i :: 0 <= i < |RemoveAt(ss, k)| ==> RemoveAt(ss, k)[i] in ss
    ensures forall s :: s in RemoveAt(ss, k) <==> s in ss && s.id != ss[k].id
    ensures |RemoveAt(ss, k)| == |ss| - 1
  {
    var r := RemoveAt(ss, k);
    assert forall i :: 0 <= i < |r| ==> r[i] == ss[if i < k then i else i + 1];
    forall s | s in ss && s.id != ss[k].id ensures s in r {
      var i :| 0 <= i < |ss| && ss[i] == s;
      assert r[if i < k then i else i - 1] == s;
    }
  }

  /** Another user's shared search in the user's organization is one the
      user can read and delete. */
  lemma {:induction false} SharedSearchReachable(ss: seq<SavedSearch>, user: ReqUser, k: nat)
    requires k < |ss| && UniqueIds(ss)
    requires ss[k].organizationId == user.organizationId && ss[k].isGlobal
    ensures FindVisible(ss, user, ss[k].id) == Some(k)
  {
  }

  /** A search of another organization is never listed, read or deleted,
      whoever owns it and however it is shared. */
  lemma {:induction false} OtherOrganizationHidden(ss: seq<SavedSearch>, user: ReqUser, s: SavedSearch, param: string, castId: string -> Option<nat>)
    requires s.organizationId != user.organizationId
    ensures s !in List(ss, user)
    ensures Get(ss, user, param, castId) != Found(s)
    ensures forall k :: FindVisible(ss, user, s.id) == Some(k) ==> ss[k] != s
  {
  }

  /** Searches the user may not see make no difference to a read: a search
      that exists but is not visible answers as one that does not exist. */
  lemma {:induction false} InvisibleIsMissing(ss: seq<SavedSearch>, user: ReqUser, param: string, castId: string -> Option<nat>)
    ensures Get(ss, user, param, castId) == Get(VisibleOf(ss, user), user, param, castId)
  {
    if castId(param).Some? {
      FindVisibleOfVisible(ss, user, castId(param).value);
    }
  }

  lemma {:induction false} FindVisibleOfVisible(ss: seq<SavedSearch>, user: ReqUser, id: nat)
    ensures var k := FindVisible(ss, user, id);
            var k' := FindVisible(VisibleOf(ss, user), user, id);
            k.Some? == k'.Some? && (k.Some? ==> ss[k.value] == VisibleOf(ss, user)[k'.value])
  {
    if ss != [] {
      var rest := VisibleOf(ss[1..], user);
      FindVisibleOfVisible(ss[1..], user, id);
      if Visible(ss[0], user) {
        var v := [ss[0]] + rest;
        assert VisibleOf(ss, user) == v;
        assert v[0] == ss[0] && v[1..] == rest;
      } else {
        assert VisibleOf(ss, user) == rest;
        assert !Matches(ss[0], user, id);
      }
    }
  }

  /** A created search is listed for its creator. */
  lemma {:induction false} CreatedIsListed(ss: seq<SavedSearch>, user: ReqUser, body: Body, id: nat, now: int)
    requires CreateOutcome(user, body, id, now).Created?
    ensures CreateOutcome(user, body, id, now).search in List(ss + [CreateOutcome(user, body, id, now).search], user)
  {
  }

  /** A private search is listed only for its owner. */
  lemma {:induction false} PrivateOnlyForOwner(ss: seq<SavedSearch>, user: ReqUser, s: SavedSearch)
    requires !s.isGlobal && s.userId != user.id
    ensures s !in List(ss, user)
  {
  }
}
