/** The organization (tenant) administration endpoints: creation with a
    random API key and an organization token, paged listing, and reading,
    updating and deleting by id. The store is a sequence of records; each
    operation returns the store it leaves behind with its response. */
module OrganizationController {
  import opened Wrappers
  import opened Js
  import opened Bytes
  import Text
  import Numbers
  import Json
  import Sorting
  import Jwt
  import Pagination
  import opened OrganizationModel

  const RequiredMessage := "Name and email are required"
  const CreatedMessage := "Organization created successfully"
  const InvalidIdMessage := "Invalid ID"
  const NotFoundMessage := "Organization not found"
  const UpdatedMessage := "Organization updated"
  const DeletedMessage := "Organization deleted"

  /** The `meta` block of a listing. */
  datatype Meta = Meta(total: nat, pages: nat, page: int, limit: int)

  /** What a handler answers: a status with a message, a document, or an
      error handed on to the error handler (failed schema paths, a
      duplicate value of a unique field). */
  datatype Response =
    | Created(org: Organization, token: Jwt.Payload)
    | Listed(meta: Meta, orgs: seq<Organization>)
    | Found(org: Organization)
    | Updated(org: Organization)
    | Deleted
    | Rejected(status: int, message: string)
    | Invalid(paths: seq<string>)
    | DuplicateKey

  // ---------------------------------------------------------------------
  // API keys: hexadecimal text of random bytes

  predicate IsLowerHex(c: char) {
    '0' <= c <= '9' || 'a' <= c <= 'f'
  }

  /** Buffer.prototype.toString("hex"): two lowercase digits per byte, high
      half first. */
  function HexEncode(bs: seq<byte>): (s: string)
    ensures |s| == 2 * |bs|
    ensures forall i :: 0 <= i < |s| ==> IsLowerHex(s[i])
  {
    if bs == [] then []
    else [Json.HexDigit(bs[0] / 16), Json.HexDigit(bs[0] % 16)] + HexEncode(bs[1..])
  }

  /** Reads hexadecimal text back into bytes; None for an odd length or a
      character that is not a hexadecimal digit. */
  function HexDecode(s: string): Option<seq<byte>> {
    if s == [] then Some([])
    else if |s| == 1 then None
    else
      match (Json.HexValue(s[0]), Json.HexValue(s[1]), HexDecode(s[2..]))
      case (Some(hi), Some(lo), Some(rest)) =>
        if hi < 16 && lo < 16 then Some([(hi * 16 + lo) as byte] + rest) else None
      case _ => None
  }

  lemma {:induction false} HexDigitRead(d: nat)
    requires d < 16
    ensures Json.HexValue(Json.HexDigit(d)) == Some(d)
  {
  }

  /** The key text determines the key bytes. */
  lemma {:induction false} HexRoundTrip(bs: seq<byte>)
    ensures HexDecode(HexEncode(bs)) == Some(bs)
  {
    if bs != [] {
      var s := HexEncode(bs);
      HexDigitRead(bs[0] / 16);
      HexDigitRead(bs[0] % 16);
      assert s[2..] == HexEncode(bs[1..]);
      HexRoundTrip(bs[1..]);
      assert bs == [bs[0]] + bs[1..];
    }
  }

  // ---------------------------------------------------------------------
  // createOrganization

  /** Ids, emails and API keys are each unique across the store, as the
      primary key and the schema's unique indexes require. */
  predicate UniqueKeys(orgs: seq<Organization>) {
    forall i, j :: 0 <= i < j < |orgs| ==>
      orgs[i].id != orgs[j].id && orgs[i].email != orgs[j].email && orgs[i].apiKey != orgs[j].apiKey
  }

  /** A record with these key values would break a unique index. */
  predicate Clashes(orgs: seq<Organization>, id: string, email: string, apiKey: string) {
    exists i :: 0 <= i < |orgs| && (orgs[i].id == id || orgs[i].email == email || orgs[i].apiKey == apiKey)
  }

  /** createOrganization. `randomBytes` are the 32 random bytes of the key,
      `newId` the id the store assigns and `now` the creation time. The
      store lowercases the email and trims the name; the token carries the
      email as given. */
  function CreateOrganization(orgs: seq<Organization>, body: Bag, randomBytes: seq<byte>, newId: string, now: int)
    : (r: (seq<Organization>, Response))
    requires |randomBytes| == 32 && newId != ""
    ensures r.1.Created? || r.1.Rejected? || r.1.Invalid? || r.1.DuplicateKey?
    ensures r.1.Rejected? <==> !Truthy(Get(body, "name")) || !Truthy(Get(body, "email"))
    ensures r.1.Rejected? ==> r.1 == Rejected(400, RequiredMessage)
    ensures r.1.Invalid? ==> r.1.paths == ["name"]
    ensures r.1.Invalid? <==>
              Truthy(Get(body, "name")) && Truthy(Get(body, "email")) && Text.Trim(body["name"]) == []
    ensures !r.1.Created? ==> r.0 == orgs
    ensures r.1.Created? ==>
              && r.0 == orgs + [r.1.org]
              && r.1.org == Organization(newId, Text.Trim(body["name"]), Text.Lower(body["email"]), HexEncode(randomBytes), now)
              && |r.1.org.apiKey| == 64 && (forall i :: 0 <= i < 64 ==> IsLowerHex(r.1.org.apiKey[i]))
              && r.1.token.organizationId == Some(newId) && r.1.token.email == Some(body["email"])
              && r.1.token.id.None?
    ensures r.1.DuplicateKey? <==>
              Truthy(Get(body, "name")) && Truthy(Get(body, "email")) && Text.Trim(body["name"]) != []
              && Clashes(orgs, newId, Text.Lower(body["email"]), HexEncode(randomBytes))
  {
    var name := Get(body, "name");
    var email := Get(body, "email");
    if !Truthy(name) || !Truthy(email) then (orgs, Rejected(400, RequiredMessage))
    else
      var apiKey := HexEncode(randomBytes);
      var storedName := Text.Trim(name.value);
      var storedEmail := Text.Lower(email.value);
      if storedName == [] then (orgs, Invalid(["name"]))
      else if Clashes(orgs, newId, storedEmail, apiKey) then (orgs, DuplicateKey)
      else
        var org := Organization(newId, storedName, storedEmail, apiKey, now);
        var claims: Bag := map["organizationId" := newId, "email" := email.value];
        OrganizationToken(newId, email.value);
        (orgs + [org], Created(org, Jwt.BuildPayload(claims)))
  }

  /** The token issued at creation names the organization and the email,
      and no user. */
  lemma {:induction false} OrganizationToken(orgId: string, email: string)
    requires orgId != "" && email != ""
    ensures var p := Jwt.BuildPayload(map["organizationId" := orgId, "email" := email]);
            p.organizationId == Some(orgId) && p.email == Some(email) && p.id.None?
  {
    var claims: Bag := map["organizationId" := orgId, "email" := email];
    Jwt.OrganizationPayload(orgId, email);
    assert Get(claims, "organizationId") == Some(orgId);
    FirstTruthyPicksFirst(claims, Jwt.OrgNames, 0);
  }

  /** Creation keeps ids, emails and API keys unique. */
  lemma {:induction false} CreateKeepsKeysUnique(orgs: seq<Organization>, body: Bag, randomBytes: seq<byte>, newId: string, now: int)
    requires |randomBytes| == 32 && newId != "" && UniqueKeys(orgs)
    ensures UniqueKeys(CreateOrganization(orgs, body, randomBytes, newId, now).0)
  {
    var r := CreateOrganization(orgs, body, randomBytes, newId, now);
    if r.1.Created? {
      AppendKeepsUnique(orgs, r.1.org);
    }
  }

  /** Appending a record that clashes with none keeps the keys unique. */
  lemma {:induction false} AppendKeepsUnique(orgs: seq<Organization>, o: Organization)
    requires UniqueKeys(orgs) && !Clashes(orgs, o.id, o.email, o.apiKey)
    ensures UniqueKeys(orgs + [o])
  {
    var r := orgs + [o];
    forall i, j | 0 <= i < j < |r|
      ensures r[i].id != r[j].id && r[i].email != r[j].email && r[i].apiKey != r[j].apiKey
    {
      assert r[i] == orgs[i];
      if j < |orgs| {
        assert r[j] == orgs[j];
      }
    }
  }

  // ---------------------------------------------------------------------
  // listOrganizations

  /** Math.ceil(total / limit). */
  function PageCount(total: nat, limit: nat): (pages: nat)
    requires limit >= 1
    ensures pages * limit >= total
    ensures pages == 0 || (pages - 1) * limit < total
  {
    if total == 0 then 0 else 1 + PageCount(if total <= limit then 0 else total - limit, limit)
  }

  function Min(a: int, b: int): int {
    if a <= b then a else b
  }

  /** The number of documents skipped before a page: (page - 1) * limit. */
  function Offset(page: int, limit: int): nat
    requires page >= 1 && limit >= 1
  {
    (page - 1) * limit
  }

  /** `.skip((page - 1) * limit).limit(limit)` over the sorted documents. */
  function PageOf<T>(xs: seq<T>, page: int, limit: int): (r: seq<T>)
    requires page >= 1 && limit >= 1
    ensures Offset(page, limit) >= |xs| ==> r == []
    ensures Offset(page, limit) < |xs| ==> |r| == Min(limit, |xs| - Offset(page, limit))
    ensures forall i :: 0 <= i < |r| ==> Offset(page, limit) + i < |xs| && r[i] == xs[Offset(page, limit) + i]
  {
    var skip := Offset(page, limit);
    xs[Min(skip, |xs|)..Min(skip + limit, |xs|)]
  }

  function CreatedAt(o: Organization): int {
    o.createdAt
  }

  /** The page and limit the query asks for: parseInt without a radix of the
      given value, or of the default when the parameter is absent. */
  function PageParam(query: Bag): Numbers.IntOrNaN {
    Numbers.ParseIntAuto(ValueOr(Get(query, "page"), "1"))
  }

  function LimitParam(query: Bag): Numbers.IntOrNaN {
    Numbers.ParseIntAuto(ValueOr(Get(query, "limit"), "10"))
  }

  /** Page and limit are positive integers. */
  predicate PositivePaging(query: Bag) {
    PageParam(query).Int? && PageParam(query).value >= 1
    && LimitParam(query).Int? && LimitParam(query).value >= 1
  }

  /** listOrganizations: one page of the organizations, newest first, with
      the total, the number of pages and the page and limit used. */
  function ListOrganizations(orgs: seq<Organization>, query: Bag): (r: Response)
    requires PositivePaging(query)
    ensures r.Listed? && r.meta.page == PageParam(query).value && r.meta.limit == LimitParam(query).value
    ensures r.orgs == PageOf(Sorting.SortDesc(orgs, CreatedAt), r.meta.page, r.meta.limit)
    ensures r == ListPage(orgs, r.meta.page, r.meta.limit)
  {
    ListPage(orgs, PageParam(query).value, LimitParam(query).value)
  }

  /** One page of the organizations at a given page and limit. */
  function ListPage(orgs: seq<Organization>, page: int, limit: int): (r: Response)
    requires page >= 1 && limit >= 1
    ensures r.Listed? && r.meta.page == page && r.meta.limit == limit
    ensures r.meta.total == |orgs|
    ensures r.meta.pages * limit >= |orgs| && (r.meta.pages == 0 || (r.meta.pages - 1) * limit < |orgs|)
    ensures |r.orgs| <= limit && Sorting.SortedDesc(r.orgs, CreatedAt)
    ensures forall o :: o in r.orgs ==> o in orgs
    ensures r.orgs == PageOf(Sorting.SortDesc(orgs, CreatedAt), page, limit)
  {
    var sorted := Sorting.SortDesc(orgs, CreatedAt);
    PageOfSorted(orgs, sorted, page, limit);
    Listed(Meta(|orgs|, PageCount(|orgs|, limit), page, limit), PageOf(sorted, page, limit))
  }

  /** A page of a sorted arrangement of the store is sorted and holds only
      stored records. */
  lemma {:induction false} PageOfSorted(orgs: seq<Organization>, sorted: seq<Organization>, page: int, limit: int)
    requires page >= 1 && limit >= 1
    requires Sorting.SortedDesc(sorted, CreatedAt) && multiset(sorted) == multiset(orgs)
    ensures Sorting.SortedDesc(PageOf(sorted, page, limit), CreatedAt)
    ensures forall o :: o in PageOf(sorted, page, limit) ==> o in orgs
  {
    var skip := Offset(page, limit);
    var lo, hi := Min(skip, |sorted|), Min(skip + limit, |sorted|);
    assert PageOf(sorted, page, limit) == sorted[lo..hi];
    SliceSorted(sorted, lo, hi);
    forall o | o in sorted[lo..hi] ensures o in orgs {
      assert o in multiset(sorted);
    }
  }

  lemma {:induction false} SliceSorted(xs: seq<Organization>, lo: nat, hi: nat)
    requires lo <= hi <= |xs| && Sorting.SortedDesc(xs, CreatedAt)
    ensures Sorting.SortedDesc(xs[lo..hi], CreatedAt)
  {
    assert forall i :: 0 <= i < hi - lo ==> xs[lo..hi][i] == xs[lo + i];
  }

  /** With no page or limit in the query, the first ten organizations are
      listed. */
  lemma {:induction false} ListDefaults(orgs: seq<Organization>)
    ensures var q: Bag := map[];
            PositivePaging(q) && ListOrganizations(orgs, q).meta.page == 1 && ListOrganizations(orgs, q).meta.limit == 10
  {
    var q: Bag := map[];
    assert Get(q, "page") == None && Get(q, "limit") == None;
    Numbers.OneAndTen();
    assert PageParam(q) == Numbers.Int(1) && LimitParam(q) == Numbers.Int(10);
  }

  /** Every position of the sorted store is on the page its index names,
      and that page is among the counted ones. */
  lemma {:induction false} PagesCoverAll<T>(xs: seq<T>, limit: int, i: nat)
    requires limit >= 1 && i < |xs|
    ensures var page := i / limit + 1;
            page <= PageCount(|xs|, limit)
            && 0 <= i - Offset(page, limit) < |PageOf(xs, page, limit)|
            && PageOf(xs, page, limit)[i - Offset(page, limit)] == xs[i]
  {
    var page := i / limit + 1;
    var pages := PageCount(|xs|, limit);
    PageOfIndex(i, limit);
    MulCancel(page - 1, pages, limit);
  }

  /** Index i lies on page i / limit + 1. */
  lemma PageOfIndex(i: nat, limit: int)
    requires limit >= 1
    ensures Offset(i / limit + 1, limit) <= i < Offset(i / limit + 1, limit) + limit
  {
  }

  lemma MulCancel(a: nat, b: nat, m: nat)
    requires a * m < b * m
    ensures a < b
  {
  }

  lemma MulMonotone(a: nat, b: nat, m: nat)
    requires a <= b
    ensures a * m <= b * m
  {
  }

  /** A page past the last one is empty. */
  lemma {:induction false} PastLastPageEmpty<T>(xs: seq<T>, page: int, limit: int)
    requires limit >= 1 && page > PageCount(|xs|, limit)
    ensures PageOf(xs, page, limit) == []
  {
    MulMonotone(PageCount(|xs|, limit), page - 1, limit);
    assert Offset(page, limit) >= PageCount(|xs|, limit) * limit;
  }

  /** Twelve organizations five to a page make three pages, the last holding
      two. */
  lemma {:induction false} TwelveByFive<T>(xs: seq<T>)
    requires |xs| == 12
    ensures PageCount(12, 5) == 3
    ensures |PageOf(xs, 3, 5)| == 2 && |PageOf(xs, 1, 5)| == 5
  {
    assert PageCount(2, 5) == 1;
    assert PageCount(7, 5) == 2;
    assert Offset(3, 5) == 10 && Offset(1, 5) == 0;
  }

  // ---------------------------------------------------------------------
  // getOrganization, updateOrganization, deleteOrganization

  /** The position of the organization with the id. */
  function IndexOfId(orgs: seq<Organization>, id: string): (k: Option<nat>)
    ensures k.None? <==> forall i :: 0 <= i < |orgs| ==> orgs[i].id != id
    ensures k.Some? ==> k.value < |orgs| && orgs[k.value].id == id
    ensures k.Some? ==> forall i :: 0 <= i < k.value ==> orgs[i].id != id
  {
    if orgs == [] then None
    else if orgs[0].id == id then Some(0)
    else
      match IndexOfId(orgs[1..], id)
      case None => None
      case Some(k) => Some(k + 1)
  }

  /** getOrganization. `isValidId` is the id-shape check made before any
      lookup. */
  function GetOrganization(orgs: seq<Organization>, param: string, isValidId: string -> bool): (r: Response)
    ensures !isValidId(param) ==> r == Rejected(400, InvalidIdMessage)
    ensures isValidId(param) && (forall i :: 0 <= i < |orgs| ==> orgs[i].id != param) ==> r == Rejected(404, NotFoundMessage)
    ensures r.Found? ==> r.org in orgs && r.org.id == param
    ensures r.Found? <==> isValidId(param) && exists i :: 0 <= i < |orgs| && orgs[i].id == param
    ensures r.Found? || r.Rejected?
  {
    if !isValidId(param) then Rejected(400, InvalidIdMessage)
    else
      match FindById(orgs, param)
      case None => Rejected(404, NotFoundMessage)
      case Some(org) => Found(org)
  }

  /** The fields of an update body that the schema validates, each failing
      its required check when it would become empty. */
  function UpdateFailures(body: Bag): (paths: seq<string>)
    ensures "name" in paths <==> "name" in body && Text.Trim(body["name"]) == []
    ensures "email" in paths <==> "email" in body && body["email"] == []
    ensures "apiKey" in paths <==> "apiKey" in body && body["apiKey"] == []
  {
    var name := "name" in body && Text.Trim(body["name"]) == [];
    var email := "email" in body && body["email"] == [];
    var apiKey := "apiKey" in body && body["apiKey"] == [];
    FieldPaths(name, email, apiKey);
    (if name then ["name"] else []) + (if email then ["email"] else []) + (if apiKey then ["apiKey"] else [])
  }

  /** Each field name is among the paths exactly when its own check fails. */
  lemma {:induction false} FieldPaths(name: bool, email: bool, apiKey: bool)
    ensures var paths := (if name then ["name"] else []) + (if email then ["email"] else [])
                         + (if apiKey then ["apiKey"] else []);
            ("name" in paths <==> name) && ("email" in paths <==> email) && ("apiKey" in paths <==> apiKey)
  {
    assert "name"[0] != "email"[0] && "name"[0] != "apiKey"[0] && "email"[0] != "apiKey"[0];
  }

  /** The record after the update: the given fields, with the name trimmed
      and the email lowercased; id and creation time kept. */
  function Apply(org: Organization, body: Bag): (o: Organization)
    ensures o.id == org.id && o.createdAt == org.createdAt
    ensures o.name == (if "name" in body then Text.Trim(body["name"]) else org.name)
    ensures o.email == (if "email" in body then Text.Lower(body["email"]) else org.email)
    ensures o.apiKey == (if "apiKey" in body then body["apiKey"] else org.apiKey)
  {
    org.(name := if "name" in body then Text.Trim(body["name"]) else org.name,
         email := if "email" in body then Text.Lower(body["email"]) else org.email,
         apiKey := if "apiKey" in body then body["apiKey"] else org.apiKey)
  }

  /** Another record already holds the email or the API key. */
  predicate ClashesWithOthers(orgs: seq<Organization>, k: nat, o: Organization)
    requires k < |orgs|
  {
    exists i :: 0 <= i < |orgs| && i != k && (orgs[i].email == o.email || orgs[i].apiKey == o.apiKey)
  }

  /** updateOrganization: id check, then the update's validators, then the
      lookup, then the unique indexes. */
  function UpdateOrganization(orgs: seq<Organization>, param: string, body: Bag, isValidId: string -> bool)
    : (r: (seq<Organization>, Response))
    ensures !isValidId(param) ==> r.1 == Rejected(400, InvalidIdMessage)
    ensures isValidId(param) && UpdateFailures(body) != [] ==> r.1 == Invalid(UpdateFailures(body))
    ensures (isValidId(param) && UpdateFailures(body) == [] && forall i :: 0 <= i < |orgs| ==> orgs[i].id != param)
              ==> r.1 == Rejected(404, NotFoundMessage)
    ensures r.1.Updated? <==>
              isValidId(param) && UpdateFailures(body) == [] && IndexOfId(orgs, param).Some?
              && !ClashesWithOthers(orgs, IndexOfId(orgs, param).value, Apply(orgs[IndexOfId(orgs, param).value], body))
    ensures r.1.DuplicateKey? <==>
              isValidId(param) && UpdateFailures(body) == [] && IndexOfId(orgs, param).Some?
              && ClashesWithOthers(orgs, IndexOfId(orgs, param).value, Apply(orgs[IndexOfId(orgs, param).value], body))
    ensures r.1.Updated? || r.1.DuplicateKey? || r.1.Invalid? || r.1.Rejected?
    ensures !r.1.Updated? ==> r.0 == orgs
    ensures r.1.Updated? ==>
              exists k :: 0 <= k < |orgs| && orgs[k].id == param
                && r.1.org == Apply(orgs[k], body) && r.0 == orgs[k := r.1.org]
  {
    if !isValidId(param) then (orgs, Rejected(400, InvalidIdMessage))
    else
      var paths := UpdateFailures(body);
      if paths != [] then (orgs, Invalid(paths))
      else
        match IndexOfId(orgs, param)
        case None => (orgs, Rejected(404, NotFoundMessage))
        case Some(k) =>
          var o := Apply(orgs[k], body);
          if ClashesWithOthers(orgs, k, o) then (orgs, DuplicateKey)
          else (orgs[k := o], Updated(o))
  }

  /** An update keeps ids, emails and API keys unique. */
  lemma {:induction false} UpdateKeepsKeysUnique(orgs: seq<Organization>, param: string, body: Bag, isValidId: string -> bool)
    requires UniqueKeys(orgs)
    ensures UniqueKeys(UpdateOrganization(orgs, param, body, isValidId).0)
  {
    var r := UpdateOrganization(orgs, param, body, isValidId);
    if r.1.Updated? {
      var k := IndexOfId(orgs, param).value;
      assert !ClashesWithOthers(orgs, k, r.1.org);
      assert r.0 == orgs[k := r.1.org];
    }
  }

  /** deleteOrganization: id check, then the lookup, then the removal. */
  function DeleteOrganization(orgs: seq<Organization>, param: string, isValidId: string -> bool)
    : (r: (seq<Organization>, Response))
    ensures !isValidId(param) ==> r.1 == Rejected(400, InvalidIdMessage)
    ensures (isValidId(param) && forall i :: 0 <= i < |orgs| ==> orgs[i].id != param)
              ==> r.1 == Rejected(404, NotFoundMessage)
    ensures r.1 == Deleted <==> isValidId(param) && exists i :: 0 <= i < |orgs| && orgs[i].id == param
    ensures r.1 != Deleted ==> r.0 == orgs
    ensures r.1 == Deleted ==> |r.0| == |orgs| - 1
    ensures forall o :: o in r.0 ==> o in orgs
    ensures forall o :: o in orgs && o.id != param ==> o in r.0
  {
    if !isValidId(param) then (orgs, Rejected(400, InvalidIdMessage))
    else
      match IndexOfId(orgs, param)
      case None => (orgs, Rejected(404, NotFoundMessage))
      case Some(k) =>
        var rest := orgs[..k] + orgs[k + 1..];
        assert forall o :: o in orgs && o.id != param ==> o in rest by {
          forall o | o in orgs && o.id != param ensures o in rest {
            var i :| 0 <= i < |orgs| && orgs[i] == o;
            assert rest[if i < k then i else i - 1] == o;
          }
        }
        (rest, Deleted)
  }

  /** Once deleted, an organization with unique ids is gone, and the
      others stay. */
  lemma {:induction false} DeletedIsGone(orgs: seq<Organization>, param: string, isValidId: string -> bool)
    requires UniqueKeys(orgs)
    ensures var r := DeleteOrganization(orgs, param, isValidId);
            r.1 == Deleted ==> forall o :: o in r.0 ==> o.id != param
  {
    var r := DeleteOrganization(orgs, param, isValidId);
    if r.1 == Deleted {
      var k := IndexOfId(orgs, param).value;
      assert r.0 == orgs[..k] + orgs[k + 1..];
      forall o | o in r.0 ensures o.id != param {
        var i :| 0 <= i < |r.0| && r.0[i] == o;
        assert o == orgs[if i < k then i else i + 1];
      }
    }
  }

  /** A malformed id is refused the same way whatever the store holds: no
      lookup is made. */
  lemma {:induction false} InvalidIdBeforeLookup(orgs: seq<Organization>, others: seq<Organization>, param: string, body: Bag, isValidId: string -> bool)
    requires !isValidId(param)
    ensures GetOrganization(orgs, param, isValidId) == GetOrganization(others, param, isValidId)
    ensures UpdateOrganization(orgs, param, body, isValidId).1 == UpdateOrganization(others, param, body, isValidId).1
    ensures DeleteOrganization(orgs, param, isValidId).1 == DeleteOrganization(others, param, isValidId).1
  {
  }
}
