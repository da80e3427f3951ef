/**
 * The MyJakarta catalog record as a mutable object: its three fields, its
 * constructors and setters, structural equality, the in-place
 * updateTechnology operation, and the null-path guards in front of its JSON
 * persistence. The JSON library and the file system are parameters.
 */
module Jakarta {
  import opened CaseFold
  import opened Catalog

  /** A technology entry: a name and a description that can be changed in place. */
  class Technology {
    var name: string
    var description: string

    constructor (name: string, description: string)
      ensures this.name == name && this.description == description
    {
      this.name := name;
      this.description := description;
    }

    /** The value this object holds now. */
    function View(): Entry
      reads this
    {
      Entry(name, description)
    }

    method SetDescription(description: string)
      modifies this
      ensures this.description == description
      ensures name == old(name)
    {
      this.description := description;
    }
  }

  /** The values held by the objects of a list, in list order. */
  function EntriesOf(list: seq<Technology>): seq<Entry>
    reads set t | t in list
  {
    seq(|list|, k requires 0 <= k < |list| reads set t | t in list => list[k].View())
  }

  /** No object occurs twice in the list. */
  predicate Distinct(list: seq<Technology>)
  {
    forall i, j :: 0 <= i < j < |list| ==> list[i] != list[j]
  }

  /** A Java exception the record's operations can raise. */
  datatype Error =
    | IllegalArgument(message: string)  // IllegalArgumentException
    | Runtime(cause: string)            // RuntimeException wrapping an IOException

  /** The outcome of an operation that returns nothing. */
  datatype Outcome = Pass | Fail(error: Error)

  /** The outcome of an operation that returns a value. */
  datatype Result<T> = Success(value: T) | Failure(error: Error)

  /**
   * What the JSON library and the file system do with a path: return a value,
   * or throw an IOException with a message.
   */
  datatype Io<T> = Done(value: T) | Thrown(exception: string)

  const WriteNullPathMessage: string := "File path to write cannot be null"
  const ReadNullPathMessage: string := "File path to read cannot be null"

  /**
   * readFromJson(path): a null path is refused before the reader is asked
   * anything; a reader exception comes back wrapped as a runtime error; a
   * value read comes back as it is.
   */
  function ReadFromJson(path: Option<string>, read: string -> Io<Record>): (r: Result<Record>)
    ensures path.None? ==> r == Failure(IllegalArgument(ReadNullPathMessage))
    ensures path.Some? && read(path.value).Done? ==> r == Success(read(path.value).value)
    ensures path.Some? && read(path.value).Thrown? ==> r == Failure(Runtime(read(path.value).exception))
  {
    match path
    case None => Failure(IllegalArgument(ReadNullPathMessage))
    case Some(p) =>
      match read(p)
      case Done(record) => Success(record)
      case Thrown(e) => Failure(Runtime(e))
  }

  class MyJakarta {
    var version: Option<string>
    var description: Option<string>
    var technologies: Option<seq<Technology>>

    /** The no-argument constructor leaves every field null. */
    constructor ()
      ensures version == None && description == None && technologies == None
    {
      version := None;
      description := None;
      technologies := None;
    }

    constructor Of(version: Option<string>, description: Option<string>, technologies: Option<seq<Technology>>)
      ensures this.version == version
      ensures this.description == description
      ensures this.technologies == technologies
    {
      this.version := version;
      this.description := description;
      this.technologies := technologies;
    }

    /** The technology objects the list refers to. */
    function Techs(): set<Technology>
      reads this
    {
      if technologies.Some? then set t | t in technologies.value else {}
    }

    /** The value this record holds now, down to its entries. */
    function View(): Record
      reads this, Techs()
    {
      Record(version, description,
        if technologies.Some? then Some(EntriesOf(technologies.value)) else None)
    }

    method SetVersion(version: Option<string>)
      modifies this
      ensures this.version == version
      ensures description == old(description) && technologies == old(technologies)
    {
      this.version := version;
    }

    method SetDescription(description: Option<string>)
      modifies this
      ensures this.description == description
      ensures version == old(version) && technologies == old(technologies)
    {
      this.description := description;
    }

    method SetTechnologies(technologies: Option<seq<Technology>>)
      modifies this
      ensures this.technologies == technologies
      ensures version == old(version) && description == old(description)
    {
      this.technologies := technologies;
    }

    /**
     * equals: the same object, or another record whose version, description
     * and technologies (entry by entry, by value) are all equal.
     */
    function Equals(o: MyJakarta?): (r: bool)
      reads this, Techs(), o, if o != null then o.Techs() else {}
      ensures r <==> o != null && View() == o.View()
    {
      if this == o then true
      else if o == null then false
      else
        && version == o.version
        && description == o.description
        && match (technologies, o.technologies)
           case (None, None) => true
           case (Some(a), Some(b)) => EntriesOf(a) == EntriesOf(b)
           case _ => false
    }

    /**
     * writeToJson(path): a null path is refused before the writer is asked
     * anything; otherwise the writer is given the path and this record's
     * value, and an exception it throws comes back wrapped as a runtime error.
     */
    method WriteToJson(path: Option<string>, write: (string, Record) -> Io<()>) returns (r: Outcome)
      ensures path.None? ==> r == Fail(IllegalArgument(WriteNullPathMessage))
      ensures path.Some? ==> (r.Pass? <==> write(path.value, View()).Done?)
      ensures path.Some? && r.Fail? ==> r.error == Runtime(write(path.value, View()).exception)
    {
      if path == None {
        return Fail(IllegalArgument(WriteNullPathMessage));
      }
      var written := write(path.value, View());
      match written
      case Done(_) => r := Pass;
      case Thrown(e) => r := Fail(Runtime(e));
    }

    /**
     * updateTechnology(candidate): with a non-null candidate, find the first
     * technology whose name equals the candidate's ignoring case and give it
     * the candidate's description. Nothing else changes: no field of the
     * record, no name, no other object. When no object occurs twice in the
     * list, the entries afterwards are exactly Update of the entries before.
     */
    method UpdateTechnology(candidate: Technology?)
      requires candidate != null ==> technologies.Some?
      modifies Techs()
      ensures version == old(version) && description == old(description) && technologies == old(technologies)
      ensures forall t :: t in Techs() ==> t.name == old(t.name)
      ensures candidate == null ==> unchanged(Techs())
      ensures candidate != null ==>
        var list := technologies.value;
        match FirstMatch(old(EntriesOf(list)), old(candidate.name))
        case None => unchanged(Techs())
        case Some(i) =>
          && list[i].description == old(candidate.description)
          && forall t :: t in Techs() && t != list[i] ==> t.description == old(t.description)
      ensures technologies.Some? && Distinct(technologies.value) ==>
        EntriesOf(technologies.value)
          == Update(old(EntriesOf(technologies.value)), if candidate == null then None else Some(old(candidate.View())))
    {
      if candidate != null {
        var list := technologies.value;
        var name := candidate.name;
        ghost var before := EntriesOf(list);
        var i := 0;
        while i < |list| && !NameMatches(list[i].View(), name)
          invariant 0 <= i <= |list|
          invariant forall k :: 0 <= k < i ==> !NameMatches(before[k], name)
        {
          i := i + 1;
        }
        if i < |list| {
          assert IsFirstMatch(before, name, i);
          list[i].SetDescription(candidate.description);
          assert forall k :: 0 <= k < |list| && k != i && list[k] != list[i] ==> EntriesOf(list)[k] == before[k];
        }
      }
    }
  }
}
