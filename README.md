# MyJakarta catalog record in Dafny

This project models `MyJakarta`, a catalog record for a version of Jakarta EE.
The record has a `version`, a `description` and an ordered list of `Technology`
entries, and each entry has a name and a description. The record can be written
to and read from a JSON file. Its one operation with real logic is
`updateTechnology`. Given a candidate technology, it scans the list from left
to right for the first entry whose name equals the candidate's name ignoring
case. It then overwrites that entry's description in place. The entry keeps its
own name, letter case and position. A null candidate, or a name that matches
nothing, changes nothing.

The project has three modules:

- `CaseFold` (`case_fold.dfy`) defines `String.equalsIgnoreCase` character by
  character, in the three steps Java uses (equal, equal upper-cased, equal
  upper- then lower-cased), over ASCII letters. It proves this is the same as
  comparing the lower-cased strings, and that it is an equivalence relation.
- `Catalog` (`catalog.dfy`) is the value view. `Entry` is the value of a
  `Technology` and `Record` is the value of a `MyJakarta`. `FirstMatch` is the
  `filter(...).findFirst()` search. `Update` is the list of entries after
  `updateTechnology`. Lemmas state what the update keeps and how two updates
  combine.
- `Jakarta` (`jakarta.dfy`) holds the objects. `Technology` and `MyJakarta` are
  classes whose fields the methods assign. `MyJakarta.UpdateTechnology` runs
  the search as a loop and then calls `SetDescription` on the entry it found.
  Its contract is stated object by object, so it also covers one object
  appearing twice in the list. When every object in the list is distinct, the
  contract says the new entries are exactly `Catalog.Update` of the old ones.
  `WriteToJson` and `ReadFromJson` model the null-path guards. The JSON library
  and the file system are a function parameter (`write` or `read`) that either
  returns or throws an `IOException`.

Java `null` is modelled as `Option.None` for the record's fields and for path
arguments, and as a nullable reference (`Technology?`) for the candidate.

Two facts about the source shape the model:

- `writeToJson` and `readFromJson` refuse only a `null` path
  (src/main/java/by/javaguru/MyJakarta.java:26, :39). An empty path goes to
  the file system like any other.
- The list holds references to `Technology` objects that callers also hold
  (src/test/java/by/javaguru/MyJakartaTest.java:86-99), so the update changes
  the shared object.

## Model

| member | source | states |
|---|---|---|
| `CaseFold.CharEqualsIgnoreCaseIffLower` | src/main/java/by/javaguru/MyJakarta.java:54 | the three-step per-character test of equalsIgnoreCase holds exactly when both characters lower-case to the same character |
| `CaseFold.EqualsIgnoreCaseIffFolded` | src/main/java/by/javaguru/MyJakarta.java:54 | two names are equal ignoring case if and only if their lower-cased forms are equal (both directions) |
| `CaseFold.EqualsIgnoreCaseIsEquivalence` | src/main/java/by/javaguru/MyJakarta.java:54 | equalsIgnoreCase is reflexive, symmetric and transitive |
| `Catalog.FirstMatch` | src/main/java/by/javaguru/MyJakarta.java:53-55 | the search returns the smallest index whose name matches ignoring case, and returns nothing exactly when no entry matches |
| `Catalog.Update` | src/main/java/by/javaguru/MyJakarta.java:50-57 | same length; every name unchanged at its index; a null candidate or no match leaves the list equal; otherwise the first match takes the candidate's description and every other entry (later duplicates included) is unchanged |
| `Catalog.FirstMatchSeesOnlyNames` | src/main/java/by/javaguru/MyJakarta.java:54 | two lists with the same names at every index have the same first match, whatever their descriptions |
| `Catalog.FirstMatchOfEquivalentNames` | src/main/java/by/javaguru/MyJakarta.java:52-54 | candidate names equal ignoring case select the same entry |
| `Catalog.LaterUpdateOverwrites` | src/main/java/by/javaguru/MyJakarta.java:50-57 | a second update whose name equals the first one's ignoring case gives the same list as the second update alone |
| `Catalog.UpdateIsIdempotent` | src/main/java/by/javaguru/MyJakarta.java:50-57 | applying the same update twice gives the same list as applying it once |
| `Catalog.UpdateSecondOfThree` | src/test/java/by/javaguru/MyJakartaTest.java:81-100 | updating [T1, T2, T3] with ("Technology 2", new description) gives [T1, ("Technology 2", new description), T3] |
| `Catalog.UpdateKeepsOriginalCasing` | src/main/java/by/javaguru/MyJakarta.java:54-56 | the candidate "jackson" updates the entry "Jackson", which keeps its own spelling; "Maven" before it is untouched |
| `Jakarta.Technology.constructor` | src/test/java/by/javaguru/MyJakartaTest.java:24 | a technology built from a name and a description holds exactly those |
| `Jakarta.Technology.SetDescription` | src/main/java/by/javaguru/MyJakarta.java:56 | sets the description and leaves the name alone |
| `Jakarta.ReadFromJson` | src/main/java/by/javaguru/MyJakarta.java:38-48 | a null path fails with IllegalArgument("File path to read cannot be null") whatever the reader would do; otherwise the reader's record is returned, or its IOException is wrapped as a runtime error |
| `Jakarta.MyJakarta.constructor` | src/main/java/by/javaguru/MyJakarta.java:16-17 | the no-argument constructor leaves version, description and technologies null |
| `Jakarta.MyJakarta.Of` | src/main/java/by/javaguru/MyJakarta.java:19-23 | the three-argument constructor stores the three arguments |
| `Jakarta.MyJakarta.SetVersion` | src/main/java/by/javaguru/MyJakarta.java:64-66 | sets version; description and technologies unchanged |
| `Jakarta.MyJakarta.SetDescription` | src/main/java/by/javaguru/MyJakarta.java:72-74 | sets description; version and technologies unchanged |
| `Jakarta.MyJakarta.SetTechnologies` | src/main/java/by/javaguru/MyJakarta.java:80-82 | sets technologies; version and description unchanged |
| `Jakarta.MyJakarta.Equals` | src/main/java/by/javaguru/MyJakarta.java:84-90 | true exactly when the other record is non-null and equal by value: version, description and the technologies entry by entry, nulls included; the same-object shortcut agrees with this |
| `Jakarta.MyJakarta.WriteToJson` | src/main/java/by/javaguru/MyJakarta.java:25-36 | a null path fails with IllegalArgument("File path to write cannot be null") whatever the writer would do; otherwise it succeeds exactly when the writer, given the path and the record's value, does not throw, and a thrown IOException is wrapped as a runtime error |
| `Jakarta.MyJakarta.UpdateTechnology` | src/main/java/by/javaguru/MyJakarta.java:50-57 | the record's fields and every name stay the same; a null candidate or no match changes nothing; otherwise the first match by name ignoring case gets the candidate's description and no other object changes; with distinct objects, the entries afterwards equal `Catalog.Update` of the entries before |

## Left out

- JSON serialisation and file access in writeToJson and readFromJson: the Jackson `ObjectMapper` and the file system are not part of this model. They are the `write` and `read` parameters, so round-trip fidelity is not stated.
- `hashCode` and `toString`: library hashing and string formatting with no stateable contract.
- The getters `getVersion`, `getDescription` and `getTechnologies` are plain reads of the fields, which are public in the model.
- `Technology.java` is not part of this model. `Technology` is defined from its uses: a constructor taking a name and a description, `getName`, `getDescription` and `setDescription`. Its equality is by value, as `Entry`'s is.
- `CaseFold.EqualsIgnoreCaseIffFolded`: case folding covers ASCII letters only, not Java's full Unicode `Character.toUpperCase`/`toLowerCase`.
- `Jakarta.MyJakarta.UpdateTechnology`: a non-null candidate on a record whose technologies list is null is excluded by a precondition. The source throws a `NullPointerException` there and does not handle it.
- `Jakarta.MyJakarta.UpdateTechnology`: the elements of the technologies list are non-null references, so null list elements are not modelled. In Java, a null element before the first match makes the filter call `getName()` on null and throw a `NullPointerException` (src/main/java/by/javaguru/MyJakarta.java:54), and `equals` compares such elements through `Objects.equals` (:89). The `List` itself is also not modelled as a shared mutable object. `setTechnologies` stores the caller's reference (:81), so a later change through the caller's alias would show in the record. The model holds an immutable sequence of shared `Technology` references instead.
- Null names and descriptions inside `Technology` are not modelled. Java throws a `NullPointerException` on an entry with a null name, and a candidate with a null name matches nothing.
- `Jakarta.MyJakarta.Equals`: the `getClass()` comparison is not modelled, since the model has no subclasses of `MyJakarta`.
- The test set-up that loads `config.properties` and resolves resource paths is resource I/O and is not modelled.
