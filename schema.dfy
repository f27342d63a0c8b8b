/**
 * The root queries and mutations of the schema, over an in-memory store of
 * users and companies keyed by their `_id` strings. Each resolver that
 * throws a `GraphQLError` returns `Err` here, and leaves the store as it
 * was.
 */
module Schema {
  import opened Wrappers
  import opened Js
  import opened Records
  import opened Selection

  /** The errors the resolvers throw. */
  datatype Error =
    | UserNotFound(id: StrValue)      // thrown with the requested id in its message
    | CompanyNotFound(id: StrValue)   // thrown with the requested id in its message
    | ReferencedCompanyMissing        // "Company not found", for a dangling `companyId` argument

  /** The message text of each error; a not-found message names the requested id. */
  function Message(e: Error): (m: string)
    ensures e.UserNotFound? ==> m == "Can't find the user with id (" + Interpolate(e.id) + ")"
    ensures e.CompanyNotFound? ==> m == "Can't find the company with id (" + Interpolate(e.id) + ")"
    ensures e.ReferencedCompanyMissing? ==> m == "Company not found"
  {
    match e
    case UserNotFound(id) => "Can't find the user with id (" + Interpolate(id) + ")"
    case CompanyNotFound(id) => "Can't find the company with id (" + Interpolate(id) + ")"
    case ReferencedCompanyMissing => "Company not found"
  }

  /** Text framed by a fixed prefix and suffix determines what lies between them. */
  lemma FramedTextDeterminesMiddle(prefix: string, a: string, b: string, suffix: string)
    requires prefix + a + suffix == prefix + b + suffix
    ensures a == b
  {
    var m := prefix + a + suffix;
    assert |a| == |b|;
    assert a == m[|prefix|..|prefix| + |a|];
    assert b == (prefix + b + suffix)[|prefix|..|prefix| + |b|];
  }

  /**
   * A not-found message names the requested id: two messages of the same
   * kind that read the same were raised for the same id.
   */
  lemma MessageNamesId(a: string, b: string)
    ensures Message(UserNotFound(Str(a))) == Message(UserNotFound(Str(b))) ==> a == b
    ensures Message(CompanyNotFound(Str(a))) == Message(CompanyNotFound(Str(b))) ==> a == b
  {
    if Message(UserNotFound(Str(a))) == Message(UserNotFound(Str(b))) {
      FramedTextDeterminesMiddle("Can't find the user with id (", a, b, ")");
    }
    if Message(CompanyNotFound(Str(a))) == Message(CompanyNotFound(Str(b))) {
      FramedTextDeterminesMiddle("Can't find the company with id (", a, b, ")");
    }
  }

  /**
   * The document `updateUser` writes: each of `firstName`, `age` and
   * `companyId` is the argument when it is truthy, else the stored value,
   * so `0` and `""` never overwrite anything.
   */
  function MergeUser(stored: User, firstName: StrValue, age: IntValue, companyId: StrValue): (u: User)
    ensures u.id == stored.id
    ensures u.firstName == (if Truthy(firstName) then firstName else stored.firstName)
    ensures u.age == (if Truthy(age) then age else stored.age)
    ensures u.companyId == (if Truthy(companyId) then companyId else stored.companyId)
  {
    User(stored.id, Or(firstName, stored.firstName), Or(age, stored.age), Or(companyId, stored.companyId))
  }

  /** Repeating an update with the same arguments changes nothing more. */
  lemma MergeUserIdempotent(stored: User, firstName: StrValue, age: IntValue, companyId: StrValue)
    ensures var once := MergeUser(stored, firstName, age, companyId);
      MergeUser(once, firstName, age, companyId) == once
  {
  }

  /** An update whose arguments are all falsy leaves the user as it was. */
  lemma MergeUserFalsyKeeps(stored: User, firstName: StrValue, age: IntValue, companyId: StrValue)
    requires !Truthy(firstName) && !Truthy(age) && !Truthy(companyId)
    ensures MergeUser(stored, firstName, age, companyId) == stored
  {
  }

  /**
   * The document `updateCompany` writes: `name` and `slogan` are the
   * argument when it is truthy, else the stored value.
   */
  function MergeCompany(stored: Company, name: StrValue, slogan: StrValue): (c: Company)
    ensures c.id == stored.id
    ensures c.name == (if Truthy(name) then name else stored.name)
    ensures c.slogan == (if Truthy(slogan) then slogan else stored.slogan)
  {
    Company(stored.id, Or(name, stored.name), Or(slogan, stored.slogan))
  }

  /** The store the resolvers read and write. */
  class Store {
    var users: map<string, User>
    var companies: map<string, Company>

    /** Every document is stored under its own `_id`. */
    ghost predicate Valid()
      reads this
    {
      && (forall id :: id in users ==> users[id].id == id)
      && (forall id :: id in companies ==> companies[id].id == id)
    }

    /** Every user with a truthy `companyId` refers to a stored company. */
    ghost predicate ReferencesResolve()
      reads this
    {
      forall id :: id in users && Truthy(users[id].companyId) ==> users[id].companyId.s in companies
    }

    /** `findById` on users finds a document. */
    predicate HasUser(id: StrValue)
      reads this
    {
      id.Str? && id.s in users
    }

    /** `findById` on companies finds a document. */
    predicate HasCompany(id: StrValue)
      reads this
    {
      id.Str? && id.s in companies
    }

    /** The company check of `createUser`/`updateUser`: made only for a truthy `companyId`. */
    predicate CompanyArgumentOk(companyId: StrValue)
      reads this
    {
      !Truthy(companyId) || HasCompany(companyId)
    }

    constructor ()
      ensures Valid() && ReferencesResolve()
      ensures users == map[] && companies == map[]
    {
      users, companies := map[], map[];
    }

    /** Query `user(id)`: the stored user, read with the derived selection, or an error. */
    method QueryUser(id: StrValue, fields: seq<string>) returns (r: Result<User, Error>, selections: map<string, int>)
      requires Valid()
      ensures selections == SelectionMap(fields)
      ensures r.Ok? <==> id.Str? && id.s in users
      ensures r.Ok? ==> r.value == users[id.s] && r.value.id == id.s
      ensures r.Err? ==> r.error == UserNotFound(id)
    {
      selections := BuildSelections(fields);
      if HasUser(id) {
        r := Ok(users[id.s]);
      } else {
        r := Err(UserNotFound(id));
      }
    }

    /** Query `users`: every stored user, read with the derived selection. */
    method QueryUsers(fields: seq<string>) returns (all: set<User>, selections: map<string, int>)
      requires Valid()
      ensures selections == SelectionMap(fields)
      ensures forall u :: u in all <==> exists id :: id in users && users[id] == u
    {
      selections := BuildSelections(fields);
      all := users.Values;
    }

    /** Query `company(id)`: the stored company, or an error. */
    method QueryCompany(id: StrValue) returns (r: Result<Company, Error>)
      requires Valid()
      ensures r.Ok? <==> id.Str? && id.s in companies
      ensures r.Ok? ==> r.value == companies[id.s] && r.value.id == id.s
      ensures r.Err? ==> r.error == CompanyNotFound(id)
    {
      if HasCompany(id) {
        r := Ok(companies[id.s]);
      } else {
        r := Err(CompanyNotFound(id));
      }
    }

    /** Query `companies`: every stored company. */
    method QueryCompanies() returns (all: set<Company>)
      ensures forall c :: c in all <==> exists id :: id in companies && companies[id] == c
    {
      all := companies.Values;
    }

    /**
     * Mutation `createUser`: a truthy `companyId` must name a stored company;
     * then the arguments are stored as a new user under a fresh id.
     */
    method CreateUser(firstName: StrValue, age: IntValue, companyId: StrValue, newId: string)
      returns (r: Result<User, Error>)
      requires Valid() && newId !in users
      modifies this
      ensures Valid() && companies == old(companies)
      ensures !old(CompanyArgumentOk(companyId)) ==>
        r == Err(ReferencedCompanyMissing) && users == old(users)
      ensures old(CompanyArgumentOk(companyId)) ==>
        && r == Ok(User(newId, firstName, age, companyId))
        && users == old(users)[newId := r.value]
      ensures old(ReferencesResolve()) ==> ReferencesResolve()
    {
      if !CompanyArgumentOk(companyId) {
        return Err(ReferencedCompanyMissing);
      }
      var user := User(newId, firstName, age, companyId);
      users := users[newId := user];
      r := Ok(user);
    }

    /**
     * Mutation `updateUser`: the user must exist (checked first), then a
     * truthy `companyId` must name a stored company; then the truthy
     * arguments replace the stored fields.
     */
    method UpdateUser(id: StrValue, firstName: StrValue, age: IntValue, companyId: StrValue)
      returns (r: Result<User, Error>)
      requires Valid()
      modifies this
      ensures Valid() && companies == old(companies)
      ensures !old(HasUser(id)) ==>
        r == Err(UserNotFound(id)) && users == old(users)
      ensures old(HasUser(id)) && !old(CompanyArgumentOk(companyId)) ==>
        r == Err(ReferencedCompanyMissing) && users == old(users)
      ensures old(HasUser(id)) && old(CompanyArgumentOk(companyId)) ==>
        && r == Ok(MergeUser(old(users)[id.s], firstName, age, companyId))
        && users == old(users)[id.s := r.value]
      ensures old(ReferencesResolve()) ==> ReferencesResolve()
    {
      if !HasUser(id) {
        return Err(UserNotFound(id));
      }
      if !CompanyArgumentOk(companyId) {
        return Err(ReferencedCompanyMissing);
      }
      var updated := MergeUser(users[id.s], firstName, age, companyId);
      users := users[id.s := updated];
      r := Ok(updated);
    }

    /**
     * Mutation `deleteUser`: removes and returns the user, or an error.
     * `findByIdAndDelete` filters on `{ _id: id }` without the null lookup
     * `findById` makes of an undefined id, and Mongoose drops an undefined
     * value from a filter: an omitted id matches some stored user, which
     * is then deleted (which one is the database's choice).
     */
    method DeleteUser(id: StrValue) returns (r: Result<User, Error>)
      requires Valid()
      modifies this
      ensures Valid() && companies == old(companies)
      ensures id.Undefined? && old(users) == map[] ==> r == Err(UserNotFound(id)) && users == old(users)
      ensures id.Undefined? && old(users) != map[] ==>
        && r.Ok? && r.value.id in old(users) && r.value == old(users)[r.value.id]
        && users == old(users) - {r.value.id}
      ensures !id.Undefined? && !old(HasUser(id)) ==> r == Err(UserNotFound(id)) && users == old(users)
      ensures old(HasUser(id)) ==> r == Ok(old(users)[id.s]) && users == old(users) - {id.s}
      ensures old(ReferencesResolve()) ==> ReferencesResolve()
    {
      if id.Undefined? && users != map[] {
        var some :| some in users;
        r := Ok(users[some]);
        users := users - {some};
        return;
      }
      if !HasUser(id) {
        return Err(UserNotFound(id));
      }
      r := Ok(users[id.s]);
      users := users - {id.s};
    }

    /** Mutation `createCompany`: stores the arguments as a new company under a fresh id. */
    method CreateCompany(name: StrValue, slogan: StrValue, newId: string) returns (c: Company)
      requires Valid() && newId !in companies
      modifies this
      ensures Valid() && users == old(users)
      ensures c == Company(newId, name, slogan)
      ensures companies == old(companies)[newId := c]
      ensures old(ReferencesResolve()) ==> ReferencesResolve()
    {
      c := Company(newId, name, slogan);
      companies := companies[newId := c];
    }

    /** Mutation `updateCompany`: the truthy arguments replace the stored fields. */
    method UpdateCompany(id: StrValue, name: StrValue, slogan: StrValue) returns (r: Result<Company, Error>)
      requires Valid()
      modifies this
      ensures Valid() && users == old(users)
      ensures !old(HasCompany(id)) ==> r == Err(CompanyNotFound(id)) && companies == old(companies)
      ensures old(HasCompany(id)) ==>
        && r == Ok(MergeCompany(old(companies)[id.s], name, slogan))
        && companies == old(companies)[id.s := r.value]
      ensures old(ReferencesResolve()) ==> ReferencesResolve()
    {
      if !HasCompany(id) {
        return Err(CompanyNotFound(id));
      }
      var updated := MergeCompany(companies[id.s], name, slogan);
      companies := companies[id.s := updated];
      r := Ok(updated);
    }

    /**
     * Mutation `deleteCompany`: removes and returns the company, or an
     * error. Users that refer to it are left as they are. As for
     * `deleteUser`, an omitted id matches some stored company, which is
     * then deleted.
     */
    method DeleteCompany(id: StrValue) returns (r: Result<Company, Error>)
      requires Valid()
      modifies this
      ensures Valid() && users == old(users)
      ensures id.Undefined? && old(companies) == map[] ==>
        r == Err(CompanyNotFound(id)) && companies == old(companies)
      ensures id.Undefined? && old(companies) != map[] ==>
        && r.Ok? && r.value.id in old(companies) && r.value == old(companies)[r.value.id]
        && companies == old(companies) - {r.value.id}
      ensures !id.Undefined? && !old(HasCompany(id)) ==>
        r == Err(CompanyNotFound(id)) && companies == old(companies)
      ensures old(HasCompany(id)) ==> r == Ok(old(companies)[id.s]) && companies == old(companies) - {id.s}
    {
      if id.Undefined? && companies != map[] {
        var some :| some in companies;
        r := Ok(companies[some]);
        companies := companies - {some};
        return;
      }
      if !HasCompany(id) {
        return Err(CompanyNotFound(id));
      }
      r := Ok(companies[id.s]);
      companies := companies - {id.s};
    }
  }
}
