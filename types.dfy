/**
 * The nested-field resolvers of the GraphQL types: `User.company` and
 * `Company.users`. Each loader is seen through its `load` function; a
 * resolver reports the loads it issued beside the value it resolved to.
 */
module Types {
  import opened Wrappers
  import opened Js
  import opened Records
  import opened Selection
  import opened Loaders

  /**
   * `User.company`: derive the projection from the requested sub-fields,
   * then resolve to null without touching the loader when the user has no
   * company, otherwise issue one load keyed by the user's `companyId` and
   * that projection, and resolve to what it delivers.
   */
  method ResolveUserCompany(parent: User, fields: seq<string>, load: CompanyKey -> Option<Company>)
    returns (company: Option<Company>, loads: seq<CompanyKey>)
    ensures !Truthy(parent.companyId) ==> company == None && loads == []
    ensures Truthy(parent.companyId) ==>
      && parent.companyId.Str?
      && loads == [CompanyKey(parent.companyId.s, SelectionMap(fields))]
      && company == load(loads[0])
    ensures forall k :: k in loads ==> "company" !in k.selectionsField
  {
    var selectionsField := BuildSelections(fields);
    if !Truthy(parent.companyId) {
      return None, [];
    }
    var key := CompanyKey(parent.companyId.s, selectionsField);
    company, loads := load(key), [key];
  }

  /** What `Company.users` resolved to, and the loads it issued. */
  datatype UsersResolution = UsersResolution(users: seq<User>, loads: seq<string>)

  /**
   * `Company.users`: one load keyed by the company's `_id` in the
   * users-by-company loader; the resolved list is that load's group.
   */
  function ResolveCompanyUsers(parent: Company, load: string -> seq<User>): (r: UsersResolution)
    ensures r.loads == [parent.id]
    ensures r.users == load(parent.id)
  {
    UsersResolution(load(parent.id), [parent.id])
  }

  /**
   * When the `Company.users` load is served by a users batch that holds the
   * company's id at position i, the company gets exactly its users of the
   * read, in read order (see `UsersOfConcat`), and an empty list (never
   * absent) when it has none.
   */
  lemma CompanyUsersFromBatch(parent: Company, keys: seq<string>, read: seq<User>, i: nat)
    requires i < |keys| && keys[i] == parent.id
    ensures var r := ResolveCompanyUsers(parent, k => if k == parent.id then UsersBatch(keys, read)[i] else []);
      && r.loads == [parent.id]
      && r.users == UsersOf(read, parent.id)
      && (forall u :: u in r.users <==> u in read && u.companyId == Str(parent.id))
      && (r.users == [] <==> forall j :: 0 <= j < |read| ==> read[j].companyId != Str(parent.id))
  {
  }
}
