/**
 * Field-projection derivation: the requested field names of a `User`
 * selection become a selection map for the database read. The relationship
 * field `company` is read through its foreign key `companyId`; every other
 * name is read as itself; every entry is 1.
 */
module Selection {

  /** The stored attribute that backs a requested field. */
  function StorageName(field: string): (name: string)
    ensures name != "company"
    ensures field == "company" ==> name == "companyId"
    ensures field != "company" ==> name == field
  {
    if field == "company" then "companyId" else field
  }

  /** The attributes a list of requested fields needs. */
  function Needed(fields: seq<string>): (names: set<string>)
  {
    set f | f in fields :: StorageName(f)
  }

  /** The selection map a list of requested fields denotes. */
  function SelectionMap(fields: seq<string>): (selections: map<string, int>)
  {
    map name | name in Needed(fields) :: 1
  }

  /**
   * A name is selected exactly when it was requested (and is not the
   * relationship `company`), or it is `companyId` and `company` was
   * requested; every selected name maps to 1.
   */
  lemma SelectionMapKeys(fields: seq<string>)
    ensures forall name :: name in SelectionMap(fields) <==>
      (name in fields && name != "company") || (name == "companyId" && "company" in fields)
    ensures forall name :: name in SelectionMap(fields) ==> SelectionMap(fields)[name] == 1
    ensures "company" !in SelectionMap(fields)
  {
  }

  /** Reordering or repeating the requested names does not change the map. */
  lemma SelectionMapIgnoresOrderAndRepeats(a: seq<string>, b: seq<string>)
    requires forall f :: f in a <==> f in b
    ensures SelectionMap(a) == SelectionMap(b)
  {
  }

  /**
   * The `forEach` loop that fills the selection object in place, one
   * requested field at a time.
   */
  method BuildSelections(fields: seq<string>) returns (selections: map<string, int>)
    ensures selections == SelectionMap(fields)
    ensures forall name :: name in selections <==>
      (name in fields && name != "company") || (name == "companyId" && "company" in fields)
    ensures forall name :: name in selections ==> selections[name] == 1
  {
    selections := map[];
    for i := 0 to |fields|
      invariant selections == SelectionMap(fields[..i])
    {
      assert fields[..i + 1] == fields[..i] + [fields[i]];
      assert Needed(fields[..i + 1]) == Needed(fields[..i]) + {StorageName(fields[i])};
      if fields[i] == "company" {
        selections := selections["companyId" := 1];
      } else {
        selections := selections[fields[i] := 1];
      }
    }
    assert fields[..|fields|] == fields;
    SelectionMapKeys(fields);
  }
}
