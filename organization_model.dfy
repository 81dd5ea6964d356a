/** The organization (tenant) record and the lookup by id. */
module OrganizationModel {
  import opened Wrappers

  datatype Organization = Organization(
    id: string,
    name: string,
    email: string,
    apiKey: string,
    createdAt: int)

  /** findById: the organization with the id, if the store holds one. */
  function FindById(orgs: seq<Organization>, id: string): (r: Option<Organization>)
    ensures r.Some? <==> exists i :: 0 <= i < |orgs| && orgs[i].id == id
    ensures r.Some? ==> r.value in orgs && r.value.id == id
  {
    if orgs == [] then None
    else if orgs[0].id == id then Some(orgs[0])
    else FindById(orgs[1..], id)
  }
}
