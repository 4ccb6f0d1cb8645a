/**
The libraries loaded on each connection, and the choice of the library a type belongs to: the longest recorded name
that is the type's name or a dotted prefix of it, whatever the order of the map.
*/
module LibraryCatalog {
  import opened Strings
  import opened Wrappers

  datatype Library = Library(name: string, version: string)

  /** Keyed by the lower-case name. */
  type Libraries = map<string, Library>

  predicate IsTypeOfLibrary(typeName: string, libraryName: string) {
    var (t, library) := (LowerCase(typeName), LowerCase(libraryName));
    t == library || library + "." <= t
  }

  function IndexOfDot(s: string): (n: nat)
    ensures n <= |s|
  {
    if s == "" || s[0] == '.' then 0 else 1 + IndexOfDot(s[1..])
  }

  function RootNamespace(typeName: string): string {
    typeName[..IndexOfDot(typeName)]
  }

  /** A type belongs to a library when its name is the library's, in whatever case, or goes on with a dot after it. */
  lemma BelongsExactly(typeName: string, libraryName: string)
    ensures IsTypeOfLibrary(typeName, libraryName) <==>
            && |libraryName| <= |typeName|
            && (forall i :: 0 <= i < |libraryName| ==> Lower(typeName[i]) == Lower(libraryName[i]))
            && (|typeName| == |libraryName| || typeName[|libraryName|] == '.')
  {
    var t, library, n := LowerCase(typeName), LowerCase(libraryName), |libraryName|;
    if |t| >= n {
      SameLetters(typeName, libraryName);
      if |t| > n {
        assert library + "." <= t <==> t[..n + 1] == library + ".";
        assert t[..n + 1] == t[..n] + [t[n]] && (library + ".")[..n] == library && (library + ".")[n] == '.';
        assert t[n] == '.' <==> typeName[n] == '.';
      }
    }
  }

  lemma SameLetters(a: string, b: string)
    requires |b| <= |a|
    ensures LowerCase(a)[..|b|] == LowerCase(b) <==> forall i :: 0 <= i < |b| ==> Lower(a[i]) == Lower(b[i])
  {
    hide Lower;
    forall i | 0 <= i < |b|
      ensures LowerCase(a)[..|b|][i] == Lower(a[i]) && LowerCase(b)[i] == Lower(b[i])
    {
    }
  }

  /** What stands before the first dot, or the whole name. */
  lemma {:induction false} RootExactly(typeName: string)
    ensures var root := RootNamespace(typeName); '.' !in root && (root == typeName || root + "." <= typeName)
  {
    if typeName != "" && typeName[0] != '.' {
      RootExactly(typeName[1..]);
      assert RootNamespace(typeName) == [typeName[0]] + RootNamespace(typeName[1..]);
      assert typeName == [typeName[0]] + typeName[1..];
    }
  }

  // ----- loads -----

  datatype Load = Load(name: string, version: string)

  function Recorded(loads: seq<Load>): Libraries {
    if loads == [] then map[]
    else
      var last := loads[|loads| - 1];
      Recorded(loads[..|loads| - 1])[LowerCase(last.name) := Library(last.name, last.version)]
  }

  /** The load is the last one of its name, in whatever case. */
  ghost predicate LastLoad(loads: seq<Load>, i: nat) {
    i < |loads| && forall j :: i < j < |loads| ==> LowerCase(loads[j].name) != LowerCase(loads[i].name)
  }

  predicate WellKeyed(libraries: Libraries) {
    forall key :: key in libraries ==> LowerCase(libraries[key].name) == key
  }

  lemma {:induction false} RecordedKeyed(loads: seq<Load>)
    ensures WellKeyed(Recorded(loads))
  {
    hide LowerCase;
    if loads != [] {
      RecordedKeyed(loads[..|loads| - 1]);
    }
  }

  /** The table has the last load of every name. */
  lemma {:induction false} RecordedLast(loads: seq<Load>, i: nat)
    requires LastLoad(loads, i)
    ensures LowerCase(loads[i].name) in Recorded(loads)
    ensures Recorded(loads)[LowerCase(loads[i].name)] == Library(loads[i].name, loads[i].version)
  {
    hide LowerCase;
    var n := |loads| - 1;
    if i < n {
      assert forall j :: 0 <= j < n ==> loads[..n][j] == loads[j];
      RecordedLast(loads[..n], i);
      assert LowerCase(loads[n].name) != LowerCase(loads[i].name);
    }
  }

  /** And nothing else. */
  lemma {:induction false} RecordedFrom(loads: seq<Load>, key: string) returns (i: nat)
    requires key in Recorded(loads)
    ensures LastLoad(loads, i) && LowerCase(loads[i].name) == key
  {
    hide LowerCase;
    var n := |loads| - 1;
    if LowerCase(loads[n].name) == key {
      i := n;
    } else {
      i := RecordedFrom(loads[..n], key);
      assert forall j :: 0 <= j < n ==> loads[..n][j] == loads[j];
    }
  }

  // ----- the choice -----

  /** No library of the type has a longer name. */
  ghost predicate Longest(libraries: Libraries, typeName: string, name: string) {
    && (exists key :: key in libraries && libraries[key].name == name)
    && IsTypeOfLibrary(typeName, name)
    && forall key :: key in libraries && IsTypeOfLibrary(typeName, libraries[key].name) ==> |libraries[key].name| <= |name|
  }

  ghost predicate Chosen(libraries: Libraries, typeName: string, choice: string) {
    if exists key :: key in libraries && IsTypeOfLibrary(typeName, libraries[key].name) then Longest(libraries, typeName, choice)
    else choice == RootNamespace(typeName)
  }

  /** Names of one type that are equally long differ in case only. */
  lemma SameLengthSameName(typeName: string, a: string, b: string)
    requires IsTypeOfLibrary(typeName, a) && IsTypeOfLibrary(typeName, b) && |a| == |b|
    ensures LowerCase(a) == LowerCase(b)
  {
    assert LowerCase(a) == LowerCase(typeName)[..|a|];
    assert LowerCase(b) == LowerCase(typeName)[..|b|];
  }

  /** So the choice does not depend on the order in which the map is walked. */
  lemma ChoiceIsUnique(libraries: Libraries, typeName: string, a: string, b: string)
    requires WellKeyed(libraries) && Chosen(libraries, typeName, a) && Chosen(libraries, typeName, b)
    ensures a == b
  {
    if exists key :: key in libraries && IsTypeOfLibrary(typeName, libraries[key].name) {
      var keyA :| keyA in libraries && libraries[keyA].name == a;
      var keyB :| keyB in libraries && libraries[keyB].name == b;
      SameLengthSameName(typeName, a, b);
    }
  }

  class Catalog {
    var libraries: map<string, Libraries>
    var versionByPath: map<string, string>
    /** What was loaded on each connection, in order. */
    ghost var history: map<string, seq<Load>>

    /** The table of a connection is that of its loads. */
    ghost predicate Valid()
      reads this
    {
      && history.Keys == libraries.Keys
      && forall connection :: connection in libraries ==> libraries[connection] == Recorded(history[connection])
    }

    ghost function Loads(connection: string): seq<Load>
      reads this
    {
      if connection in history then history[connection] else []
    }

    constructor ()
      ensures Valid() && history == map[] && versionByPath == map[]
    {
      libraries := map[];
      versionByPath := map[];
      history := map[];
    }

    /**
    name is the file name of path without its extension; version what the file says now, if it was not asked before.
    */
    method RecordLoad(connection: string, path: Option<string>, name: string, version: string)
      requires Valid()
      modifies this
      ensures Valid()
      ensures Blank(path) || Blank(Some(name)) ==> history == old(history) && versionByPath == old(versionByPath)
      ensures !Blank(path) && !Blank(Some(name)) ==>
                && versionByPath == (if path.value in old(versionByPath) then old(versionByPath)
                                     else old(versionByPath)[path.value := version])
                && history == old(history)[connection := old(Loads(connection)) + [Load(name, versionByPath[path.value])]]
    {
      hide LowerCase, Trim, Recorded;
      if Blank(path) {
        return;
      }
      if Blank(Some(name)) {
        return;
      }
      AddConnection(connection);
      if path.value !in versionByPath {
        versionByPath := versionByPath[path.value := version];
      }
      Put(connection, Load(name, versionByPath[path.value]));
    }

    method AddConnection(connection: string)
      requires Valid()
      modifies this`libraries, this`history
      ensures Valid() && history == old(history)[connection := old(Loads(connection))]
    {
      hide Recorded;
      if connection !in libraries {
        NoLoads();
        libraries := libraries[connection := map[]];
        history := history[connection := []];
      }
    }

    method Put(connection: string, load: Load)
      requires Valid() && connection in libraries
      modifies this`libraries, this`history
      ensures Valid() && history == old(history)[connection := old(history)[connection] + [load]]
    {
      hide LowerCase, Recorded;
      OneMoreLoad(history[connection], load);
      libraries := libraries[connection := libraries[connection][LowerCase(load.name) := Library(load.name, load.version)]];
      history := history[connection := history[connection] + [load]];
    }

    /** A library that the command itself loads comes first; loads has the file names of those without their extensions. */
    method ResolveLibraryName(connection: string, loads: seq<Option<string>>, typeName: Option<string>) returns (choice: Option<string>)
      requires Valid()
      ensures (exists i :: 0 <= i < |loads| && !Blank(loads[i])) ==>
                exists i :: 0 <= i < |loads| && !Blank(loads[i]) && choice == loads[i] && forall j :: 0 <= j < i ==> Blank(loads[j])
      ensures (forall i :: 0 <= i < |loads| ==> Blank(loads[i])) ==>
                if Blank(typeName) then choice == None
                else choice.Some? && Chosen(Recorded(Loads(connection)), typeName.value, choice.value)
    {
      for i := 0 to |loads|
        invariant forall j :: 0 <= j < i ==> Blank(loads[j])
      {
        if !Blank(loads[i]) {
          return loads[i];
        }
      }
      if Blank(typeName) {
        return None;
      }
      var name := ChooseLibrary(connection, typeName.value);
      choice := Some(name);
    }

    /** The choice is the only one there is for the loads of the connection, so the order of the map does not matter. */
    method ChooseLibrary(connection: string, typeName: string) returns (choice: string)
      requires Valid()
      ensures forall other :: Chosen(Recorded(Loads(connection)), typeName, other) <==> other == choice
    {
      hide IsTypeOfLibrary, LowerCase;
      RecordedKeyed(Loads(connection));
      if connection !in libraries {
        choice := RootNamespace(typeName);
        OnlyChoice(map[], typeName, choice);
        return;
      }
      var table := libraries[connection];
      var bestMatch := None;
      var rest := table.Keys;
      while rest != {}
        invariant rest <= table.Keys
        invariant bestMatch.Some? ==>
                    && (exists key :: key in table && table[key].name == bestMatch.value)
                    && IsTypeOfLibrary(typeName, bestMatch.value)
        invariant forall key :: key in table && key !in rest && IsTypeOfLibrary(typeName, table[key].name) ==>
                    bestMatch.Some? && |table[key].name| <= |bestMatch.value|
        decreases |rest|
      {
        var key :| key in rest;
        rest := rest - {key};
        var library := table[key];
        if !IsTypeOfLibrary(typeName, library.name) {
          continue;
        }
        if bestMatch.None? || |library.name| > |bestMatch.value| {
          bestMatch := Some(library.name);
        }
      }
      choice := if bestMatch.Some? then bestMatch.value else RootNamespace(typeName);
      OnlyChoice(table, typeName, choice);
    }

    /** The version of the last load of that name, in whatever case, on that connection. */
    method LookupVersion(connection: string, name: string) returns (version: Option<string>)
      requires Valid()
      ensures forall i: nat :: LastLoad(Loads(connection), i) && LowerCase(Loads(connection)[i].name) == LowerCase(name) ==>
                version == Some(Loads(connection)[i].version)
      ensures version.None? <==> forall i :: 0 <= i < |Loads(connection)| ==> LowerCase(Loads(connection)[i].name) != LowerCase(name)
    {
      hide LowerCase, Recorded;
      ghost var loads := Loads(connection);
      LoadedOrNot(loads, LowerCase(name));
      if connection !in libraries {
        return None;
      }
      var table := libraries[connection];
      if LowerCase(name) !in table {
        return None;
      }
      return Some(table[LowerCase(name)].version);
    }
  }

  lemma NoLoads()
    ensures Recorded([]) == map[]
  {
  }

  lemma OneMoreLoad(loads: seq<Load>, load: Load)
    ensures Recorded(loads + [load]) == Recorded(loads)[LowerCase(load.name) := Library(load.name, load.version)]
  {
    assert (loads + [load])[..|loads|] == loads;
  }

  lemma OnlyChoice(libraries: Libraries, typeName: string, choice: string)
    requires WellKeyed(libraries) && Chosen(libraries, typeName, choice)
    ensures forall other :: Chosen(libraries, typeName, other) <==> other == choice
  {
    hide WellKeyed, Chosen;
    forall other | Chosen(libraries, typeName, other)
      ensures other == choice
    {
      ChoiceIsUnique(libraries, typeName, other, choice);
    }
  }

  /** The table answers for a key exactly when a load has it, and then with the last such load. */
  lemma {:induction false} LoadedOrNot(loads: seq<Load>, key: string)
    ensures key in Recorded(loads) <==> exists i :: 0 <= i < |loads| && LowerCase(loads[i].name) == key
    ensures forall i: nat :: LastLoad(loads, i) && LowerCase(loads[i].name) == key ==>
              key in Recorded(loads) && Recorded(loads)[key].version == loads[i].version
  {
    hide LowerCase, Recorded;
    if key in Recorded(loads) {
      var i := RecordedFrom(loads, key);
      LastInRange(loads, i);
    }
    if j :| 0 <= j < |loads| && LowerCase(loads[j].name) == key {
      var k := LastOf(loads, j);
      RecordedLast(loads, k);
    }
    forall i: nat | LastLoad(loads, i) && LowerCase(loads[i].name) == key
      ensures key in Recorded(loads) && Recorded(loads)[key].version == loads[i].version
    {
      RecordedLast(loads, i);
    }
  }

  /**
  After any loads the choice is the last spelling of the longest loaded name that is the type's name or a dotted
  prefix of it, and the version found under it is that load's; without one it is the root namespace.
  */
  lemma {:induction false} ChoiceAfterLoads(loads: seq<Load>, typeName: string, choice: string)
    requires Chosen(Recorded(loads), typeName, choice)
    ensures (forall i :: 0 <= i < |loads| ==> !IsTypeOfLibrary(typeName, loads[i].name)) ==> choice == RootNamespace(typeName)
    ensures (exists i :: 0 <= i < |loads| && IsTypeOfLibrary(typeName, loads[i].name)) ==>
              exists i: nat ::
                && LastLoad(loads, i) && loads[i].name == choice && IsTypeOfLibrary(typeName, choice)
                && (forall j :: 0 <= j < |loads| && IsTypeOfLibrary(typeName, loads[j].name) ==>
                      |loads[j].name| < |choice| || LowerCase(loads[j].name) == LowerCase(choice))
                && LowerCase(choice) in Recorded(loads) && Recorded(loads)[LowerCase(choice)].version == loads[i].version
  {
    hide LowerCase, IsTypeOfLibrary, Recorded, LastLoad;
    var table := Recorded(loads);
    forall key | key in table
      ensures exists i :: 0 <= i < |loads| && table[key].name == loads[i].name
    {
      var i := RecordedFrom(loads, key);
      RecordedLast(loads, i);
      LastInRange(loads, i);
    }
    forall j | 0 <= j < |loads|
      ensures var key := LowerCase(loads[j].name);
              key in table && |table[key].name| == |loads[j].name|
              && IsTypeOfLibrary(typeName, table[key].name) == IsTypeOfLibrary(typeName, loads[j].name)
    {
      var k := LastOf(loads, j);
      RecordedLast(loads, k);
      SameCase(typeName, loads[j].name, loads[k].name);
    }
    if exists j :: 0 <= j < |loads| && IsTypeOfLibrary(typeName, loads[j].name) {
      var key :| key in table && table[key].name == choice;
      var i := RecordedFrom(loads, key);
      RecordedLast(loads, i);
      LastInRange(loads, i);
      forall j | 0 <= j < |loads| && IsTypeOfLibrary(typeName, loads[j].name)
        ensures |loads[j].name| < |choice| || LowerCase(loads[j].name) == LowerCase(choice)
      {
        if |loads[j].name| == |choice| {
          SameLengthSameName(typeName, loads[j].name, choice);
        }
      }
    }
  }

  lemma LastInRange(loads: seq<Load>, i: nat)
    requires LastLoad(loads, i)
    ensures i < |loads|
  {
  }

  lemma {:induction false} LastOf(loads: seq<Load>, j: nat) returns (k: nat)
    requires j < |loads|
    ensures LastLoad(loads, k) && LowerCase(loads[k].name) == LowerCase(loads[j].name)
    decreases |loads| - j
  {
    if LastLoad(loads, j) {
      k := j;
    } else {
      var later: nat :| j < later < |loads| && LowerCase(loads[later].name) == LowerCase(loads[j].name);
      k := LastOf(loads, later);
    }
  }

  lemma SameCase(typeName: string, a: string, b: string)
    requires LowerCase(a) == LowerCase(b)
    ensures IsTypeOfLibrary(typeName, a) == IsTypeOfLibrary(typeName, b) && |a| == |b|
  {
    assert |LowerCase(a)| == |a| && |LowerCase(b)| == |b|;
  }
}
