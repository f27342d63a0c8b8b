/**
 * The batch functions of the two loaders. The loader library hands each
 * one the keys collected in one tick and delivers output position i to the
 * caller of key i. The database read a batch issues is an input here: the
 * records it returned, in the order it returned them.
 */
module Loaders {
  import opened Wrappers
  import opened Js
  import opened Records

  // ---------------------------------------------------------------------
  // companyLoader
  // ---------------------------------------------------------------------

  /** A company load: the id, and the projection the caller derived. */
  datatype CompanyKey = CompanyKey(id: string, selectionsField: map<string, int>)

  /** The bulk read a company batch issues: `_id $in ids`, selecting `projection`. */
  datatype CompanyQuery = CompanyQuery(ids: seq<string>, projection: map<string, int>)

  /** The ids of a batch, in key order (duplicates kept). */
  function KeyIds(keys: seq<CompanyKey>): (ids: seq<string>)
    ensures |ids| == |keys|
    ensures forall i :: 0 <= i < |keys| ==> ids[i] == keys[i].id
  {
    seq(|keys|, i requires 0 <= i < |keys| => keys[i].id)
  }

  /** The ids that pass the well-formedness check, in their original order. */
  function ValidIds(ids: seq<string>, isValid: string -> bool): (valid: seq<string>)
    ensures |valid| <= |ids|
    ensures forall id :: id in valid <==> id in ids && isValid(id)
  {
    if ids == [] then []
    else (if isValid(ids[0]) then [ids[0]] else []) + ValidIds(ids[1..], isValid)
  }

  /** Filtering distributes over concatenation: the ids keep their order. */
  lemma {:induction false} ValidIdsConcat(a: seq<string>, b: seq<string>, isValid: string -> bool)
    ensures ValidIds(a + b, isValid) == ValidIds(a, isValid) + ValidIds(b, isValid)
  {
    if a == [] {
      assert a + b == b;
    } else {
      assert (a + b)[1..] == a[1..] + b;
      ValidIdsConcat(a[1..], b, isValid);
    }
  }

  /**
   * The read the company batch sends to the database: the valid ids of all
   * keys, and the projection of the FIRST key, applied to the whole read.
   * The loader library never dispatches an empty batch.
   */
  function CompanyRequest(keys: seq<CompanyKey>, isValid: string -> bool): (q: CompanyQuery)
    requires |keys| > 0
    ensures forall id :: id in q.ids ==> isValid(id)
    ensures forall i :: 0 <= i < |keys| && isValid(keys[i].id) ==> keys[i].id in q.ids
    ensures forall id :: id in q.ids ==> exists i :: 0 <= i < |keys| && keys[i].id == id
    ensures q.projection == keys[0].selectionsField
  {
    var ids := KeyIds(keys);
    assert forall id :: id in ids ==> exists i :: 0 <= i < |keys| && keys[i].id == id;
    CompanyQuery(ValidIds(ids, isValid), keys[0].selectionsField)
  }

  /** The read returned only records the query's filter admits. */
  ghost predicate MatchesCompanyQuery(read: seq<Company>, q: CompanyQuery)
  {
    forall c :: c in read ==> c.id in q.ids
  }

  /** Position j holds the first record of the read with the given id. */
  ghost predicate FirstWithId(read: seq<Company>, id: string, j: int)
  {
    0 <= j < |read| && read[j].id == id && forall k :: 0 <= k < j ==> read[k].id != id
  }

  /** `companies.find(...)`: the first record of the read with the given id. */
  function FindById(read: seq<Company>, id: string): (r: Option<Company>)
    ensures r.None? <==> forall j :: 0 <= j < |read| ==> read[j].id != id
    ensures r.Some? ==> exists j :: FirstWithId(read, id, j) && read[j] == r.value
  {
    if read == [] then None
    else if read[0].id == id then (assert FirstWithId(read, id, 0); Some(read[0]))
    else
      var r := FindById(read[1..], id);
      assert r.Some? ==> exists j :: FirstWithId(read, id, j) && read[j] == r.value by {
        if r.Some? {
          var j :| FirstWithId(read[1..], id, j) && read[1..][j] == r.value;
          assert FirstWithId(read, id, j + 1);
        }
      }
      r
  }

  /**
   * The realignment step: one entry per key, in key order; entry i is the
   * first read record whose id is key i's id, or absent when none is.
   */
  function CompanyResults(keys: seq<CompanyKey>, read: seq<Company>): (r: seq<Option<Company>>)
    ensures |r| == |keys|
    ensures forall i :: 0 <= i < |keys| ==>
      (r[i].None? <==> forall j :: 0 <= j < |read| ==> read[j].id != keys[i].id)
    ensures forall i :: 0 <= i < |keys| && r[i].Some? ==>
      exists j :: FirstWithId(read, keys[i].id, j) && read[j] == r[i].value
  {
    seq(|keys|, i requires 0 <= i < |keys| => FindById(read, keys[i].id))
  }

  /**
   * Entry i depends on key i's id alone: two keys with the same id, in the
   * same batch or in different ones, get the same record from the same read,
   * whatever their projections and positions.
   */
  lemma CompanyEntryDependsOnIdOnly(
    keys: seq<CompanyKey>, i: nat, keys': seq<CompanyKey>, j: nat, read: seq<Company>)
    requires i < |keys| && j < |keys'|
    requires keys[i].id == keys'[j].id
    ensures CompanyResults(keys, read)[i] == CompanyResults(keys', read)[j]
  {
  }

  /**
   * An id that fails the well-formedness check never reaches the read, so,
   * given a read that honours its filter, its key resolves to absent and
   * never to an error.
   */
  lemma InvalidIdResolvesAbsent(
    keys: seq<CompanyKey>, isValid: string -> bool, read: seq<Company>, i: nat)
    requires i < |keys| && !isValid(keys[i].id)
    requires MatchesCompanyQuery(read, CompanyRequest(keys, isValid))
    ensures keys[i].id !in CompanyRequest(keys, isValid).ids
    ensures CompanyResults(keys, read)[i] == None
  {
  }

  // ---------------------------------------------------------------------
  // usersByCompanyLoader
  // ---------------------------------------------------------------------

  /** Whether a user's `companyId` is, as a string, the given company id. */
  predicate BelongsTo(u: User, companyId: string)
  {
    u.companyId == Str(companyId)
  }

  /** `users.filter(...)`: the users of the read that belong to one company, in read order. */
  function UsersOf(read: seq<User>, companyId: string): (group: seq<User>)
    ensures |group| <= |read|
    ensures forall u :: u in group <==> u in read && BelongsTo(u, companyId)
    ensures forall u :: multiset(group)[u] == (if BelongsTo(u, companyId) then multiset(read)[u] else 0)
    ensures group == [] <==> forall j :: 0 <= j < |read| ==> !BelongsTo(read[j], companyId)
  {
    if read == [] then []
    else
      assert read == [read[0]] + read[1..];
      var rest := UsersOf(read[1..], companyId);
      if BelongsTo(read[0], companyId) then [read[0]] + rest else rest
  }

  /** Filtering distributes over concatenation: the read's order is kept. */
  lemma {:induction false} UsersOfConcat(a: seq<User>, b: seq<User>, companyId: string)
    ensures UsersOf(a + b, companyId) == UsersOf(a, companyId) + UsersOf(b, companyId)
  {
    if a == [] {
      assert a + b == b;
    } else {
      assert (a + b)[1..] == a[1..] + b;
      UsersOfConcat(a[1..], b, companyId);
    }
  }

  /** The batch function: one group per requested company id, in key order. */
  function UsersBatch(keys: seq<string>, read: seq<User>): (groups: seq<seq<User>>)
    ensures |groups| == |keys|
    ensures forall i :: 0 <= i < |keys| ==> groups[i] == UsersOf(read, keys[i])
  {
    if keys == [] then [] else [UsersOf(read, keys[0])] + UsersBatch(keys[1..], read)
  }

  /** The read returned only users whose company is one of the keys. */
  ghost predicate MatchesUsersQuery(read: seq<User>, keys: seq<string>)
  {
    forall u :: u in read ==> exists i :: 0 <= i < |keys| && BelongsTo(u, keys[i])
  }

  /** No company id is requested twice. */
  ghost predicate Distinct(keys: seq<string>)
  {
    forall i, j :: 0 <= i < j < |keys| ==> keys[i] != keys[j]
  }

  /** Total number of users over a sequence of groups. */
  function TotalSize(groups: seq<seq<User>>): (total: nat)
  {
    if groups == [] then 0 else |groups[0]| + TotalSize(groups[1..])
  }

  /** How many keys a user belongs to. */
  function KeysOf(keys: seq<string>, u: User): (count: nat)
  {
    if keys == [] then 0 else (if BelongsTo(u, keys[0]) then 1 else 0) + KeysOf(keys[1..], u)
  }

  /** Without users in the read, every group is empty. */
  lemma {:induction false} TotalSizeEmpty(keys: seq<string>)
    ensures TotalSize(UsersBatch(keys, [])) == 0
  {
    if keys != [] {
      TotalSizeEmpty(keys[1..]);
    }
  }
  /** One more user in front of the read adds one to each group it belongs to. */
  lemma {:induction false} TotalSizeStep(keys: seq<string>, u: User, rest: seq<User>)
    ensures TotalSize(UsersBatch(keys, [u] + rest)) == TotalSize(UsersBatch(keys, rest)) + KeysOf(keys, u)
  {
    if keys != [] {
      assert ([u] + rest)[1..] == rest;
      TotalSizeStep(keys[1..], u, rest);
    }
  }

  /** Among distinct keys, a user whose company is requested belongs to exactly one. */
  lemma {:induction false} KeysOfDistinct(keys: seq<string>, u: User)
    requires Distinct(keys)
    requires exists i :: 0 <= i < |keys| && BelongsTo(u, keys[i])
    ensures KeysOf(keys, u) == 1
  {
    var i :| 0 <= i < |keys| && BelongsTo(u, keys[i]);
    if i == 0 {
      KeysOfNone(keys[1..], u);
    } else {
      assert BelongsTo(u, keys[1..][i - 1]);
      KeysOfDistinct(keys[1..], u);
    }
  }

  /** A user whose company is not requested belongs to no key. */
  lemma {:induction false} KeysOfNone(keys: seq<string>, u: User)
    requires forall i :: 0 <= i < |keys| ==> !BelongsTo(u, keys[i])
    ensures KeysOf(keys, u) == 0
  {
    if keys != [] {
      KeysOfNone(keys[1..], u);
    }
  }

  /**
   * With distinct keys and a read that honours its filter, the group sizes
   * add up to the read's length: no user is lost or counted twice.
   */
  lemma {:induction false} UsersBatchSizesSumToRead(keys: seq<string>, read: seq<User>)
    requires Distinct(keys)
    requires MatchesUsersQuery(read, keys)
    ensures TotalSize(UsersBatch(keys, read)) == |read|
  {
    if read == [] {
      TotalSizeEmpty(keys);
    } else {
      assert read == [read[0]] + read[1..];
      assert forall u :: u in read[1..] ==> u in read;
      UsersBatchSizesSumToRead(keys, read[1..]);
      assert read[0] in read;
      TotalSizeStep(keys, read[0], read[1..]);
      KeysOfDistinct(keys, read[0]);
    }
  }

  /**
   * With distinct keys and a read that honours its filter, each user of the
   * read lies in exactly one group: the group of its own company.
   */
  lemma UsersBatchExactlyOneGroup(keys: seq<string>, read: seq<User>, j: nat)
    requires Distinct(keys)
    requires MatchesUsersQuery(read, keys)
    requires j < |read|
    ensures exists i :: 0 <= i < |keys| && read[j] in UsersBatch(keys, read)[i]
    ensures forall i, i' ::
      (0 <= i < |keys| && 0 <= i' < |keys| &&
       read[j] in UsersBatch(keys, read)[i] && read[j] in UsersBatch(keys, read)[i']) ==> i == i'
  {
    var groups := UsersBatch(keys, read);
    assert read[j] in read;
    var i :| 0 <= i < |keys| && BelongsTo(read[j], keys[i]);
    assert multiset(groups[i])[read[j]] == multiset(read)[read[j]];
  }
}
