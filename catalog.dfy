/**
 * The value view of a Jakarta catalog record: its technology entries, the
 * first-match search that updateTechnology performs over them, and the
 * update that search drives, with the properties the update keeps.
 */
module Catalog {
  import opened CaseFold

  /** An optional value; None stands for Java's null. */
  datatype Option<T> = None | Some(value: T)

  /** The value of one Technology object: its name and its description. */
  datatype Entry = Entry(name: string, description: string)

  /** The value of one MyJakarta object, field by field; None is a null field. */
  datatype Record = Record(
    version: Option<string>,
    description: Option<string>,
    technologies: Option<seq<Entry>>)

  /** The filter of updateTechnology: the entry's name equals the candidate's name ignoring case. */
  predicate NameMatches(e: Entry, name: string)
  {
    EqualsIgnoreCase(e.name, name)
  }

  /** i is the smallest index whose entry matches name. */
  predicate IsFirstMatch(techs: seq<Entry>, name: string, i: int)
  {
    && 0 <= i < |techs|
    && NameMatches(techs[i], name)
    && forall k :: 0 <= k < i ==> !NameMatches(techs[k], name)
  }

  /** filter(...).findFirst() over the list, left to right, as an index. */
  function FirstMatch(techs: seq<Entry>, name: string): (r: Option<nat>)
    ensures r.Some? ==> IsFirstMatch(techs, name, r.value)
    ensures r.None? <==> forall k :: 0 <= k < |techs| ==> !NameMatches(techs[k], name)
  {
    if techs == [] then None
    else if NameMatches(techs[0], name) then Some(0)
    else match FirstMatch(techs[1..], name)
      case None => None
      case Some(i) => Some(i + 1)
  }

  /**
   * The list of entries after updateTechnology(candidate): a null candidate or
   * a name that matches nothing leaves the list as it is; otherwise the first
   * matching entry takes the candidate's description and keeps its own name.
   */
  function Update(techs: seq<Entry>, candidate: Option<Entry>): (r: seq<Entry>)
    ensures |r| == |techs|
    ensures forall k :: 0 <= k < |techs| ==> r[k].name == techs[k].name
    ensures candidate.None? ==> r == techs
    ensures candidate.Some? && (forall k :: 0 <= k < |techs| ==> !NameMatches(techs[k], candidate.value.name))
      ==> r == techs
    ensures candidate.Some? ==>
      forall i :: IsFirstMatch(techs, candidate.value.name, i) ==>
        && r[i].description == candidate.value.description
        && forall k :: 0 <= k < |techs| && k != i ==> r[k] == techs[k]
  {
    match candidate
    case None => techs
    case Some(c) =>
      match FirstMatch(techs, c.name)
      case None => techs
      case Some(i) => techs[i := techs[i].(description := c.description)]
  }

  /** The search looks only at names, so lists with the same names have the same first match. */
  lemma FirstMatchSeesOnlyNames(a: seq<Entry>, b: seq<Entry>, name: string)
    requires |a| == |b|
    requires forall k :: 0 <= k < |a| ==> a[k].name == b[k].name
    ensures FirstMatch(a, name) == FirstMatch(b, name)
  {
  }

  /** Names that are equal ignoring case select the same first match. */
  lemma FirstMatchOfEquivalentNames(techs: seq<Entry>, n1: string, n2: string)
    requires EqualsIgnoreCase(n1, n2)
    ensures FirstMatch(techs, n1) == FirstMatch(techs, n2)
  {
  }

  /**
   * A second update whose name equals the first one's ignoring case lands on
   * the same entry and simply overwrites it: the first update leaves no trace.
   */
  lemma LaterUpdateOverwrites(techs: seq<Entry>, c1: Entry, c2: Entry)
    requires EqualsIgnoreCase(c1.name, c2.name)
    ensures Update(Update(techs, Some(c1)), Some(c2)) == Update(techs, Some(c2))
  {
    var mid := Update(techs, Some(c1));
    FirstMatchSeesOnlyNames(techs, mid, c2.name);
    FirstMatchOfEquivalentNames(techs, c1.name, c2.name);
  }

  /** Applying the same update twice is the same as applying it once. */
  lemma UpdateIsIdempotent(techs: seq<Entry>, candidate: Option<Entry>)
    ensures Update(Update(techs, candidate), candidate) == Update(techs, candidate)
  {
  }

  /**
   * Three technologies, the second one updated by an entry with the same
   * name: only the second description changes.
   */
  lemma UpdateSecondOfThree()
    ensures
      var t1 := Entry("Technology 1", "Description about technology 1.");
      var t2 := Entry("Technology 2", "Description about technology 2.");
      var t3 := Entry("Technology 3", "Description about technology 3.");
      var edited := Entry("Technology 2", "New description about technology 2.");
      Update([t1, t2, t3], Some(edited)) == [t1, edited, t3]
  {
    var t1 := Entry("Technology 1", "Description about technology 1.");
    var t2 := Entry("Technology 2", "Description about technology 2.");
    var t3 := Entry("Technology 3", "Description about technology 3.");
    var edited := Entry("Technology 2", "New description about technology 2.");
    assert !CharEqualsIgnoreCase(t1.name[11], edited.name[11]);
    assert IsFirstMatch([t1, t2, t3], edited.name, 1);
  }

  /**
   * A candidate written in other letter case still finds its entry, and the
   * entry keeps its own spelling of the name.
   */
  lemma UpdateKeepsOriginalCasing()
    ensures
      var maven := Entry("Maven", "build tool");
      var jackson := Entry("Jackson", "JSON lib");
      Update([maven, jackson], Some(Entry("jackson", "new JSON lib desc")))
        == [maven, Entry("Jackson", "new JSON lib desc")]
  {
  }
}
