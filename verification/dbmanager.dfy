/** `DBManager`: the registry of open databases, keyed by a name derived
    from the file name, with a "current" database. A dictionary keeps
    insertion order in Python, so the registry is the ordered list of names
    plus the map from name to handler; a handler is represented by its
    database file path. Opening and closing connections is not modelled. */
module DbManager {
  import opened PyStr
  import opened PyList

  // ---------------------------------------------------------------- names

  function LastSep(s: string): (k: int)
    ensures -1 <= k < |s|
    ensures k >= 0 ==> s[k] == '/' || s[k] == '\\'
    ensures forall j :: k < j < |s| ==> s[j] != '/' && s[j] != '\\'
  {
    if |s| == 0 then -1
    else if s[|s| - 1] == '/' || s[|s| - 1] == '\\' then |s| - 1
    else LastSep(s[..|s| - 1])
  }

  /** `os.path.basename` on Windows, where both `/` and `\` separate
      directories: the text after the last separator. */
  function BaseName(path: string): (r: string)
    ensures forall j :: 0 <= j < |r| ==> r[j] != '/' && r[j] != '\\'
    ensures EndsWith(path, r)
  {
    path[LastSep(path) + 1..]
  }

  function LastDot(s: string): (k: int)
    ensures -1 <= k < |s|
    ensures k >= 0 ==> s[k] == '.'
    ensures forall j :: k < j < |s| ==> s[j] != '.'
  {
    if |s| == 0 then -1
    else if s[|s| - 1] == '.' then |s| - 1
    else LastDot(s[..|s| - 1])
  }

  predicate AllDots(s: string) { forall j :: 0 <= j < |s| ==> s[j] == '.' }

  /** `os.path.splitext(name)[0]` for a name without separators: the text
      before the last dot, unless only dots precede that dot. */
  function StripExtension(name: string): (r: string)
    ensures r == name || (|r| < |name| && name[|r|] == '.' && !AllDots(r))
    ensures r == name[..|r|]
  {
    var k := LastDot(name);
    if k >= 0 && !AllDots(name[..k]) then name[..k] else name
  }

  /** The `f"{original_name}_{counter}"` candidate. */
  function Numbered(base: string, counter: nat): string
  {
    base + "_" + NatToString(counter)
  }

  lemma NumberedInjective(base: string, i: nat, j: nat)
    requires Numbered(base, i) == Numbered(base, j)
    ensures i == j
  {
    assert Numbered(base, i)[|base| + 1..] == NatToString(i);
    assert Numbered(base, j)[|base| + 1..] == NatToString(j);
    NatToStringInjective(i, j);
  }

  // ---------------------------------------------------------------- registry

  datatype DbInfo = DbInfo(name: string, path: string, isCurrent: bool)

  class DBManager {
    /** the keys of `databases`, in insertion order */
    var names: seq<string>
    /** `databases`: name -> the handler's database file */
    var databases: map<string, string>
    var current: Option<string>

    ghost predicate Valid()
      reads this
    {
      (forall i, j :: 0 <= i < j < |names| ==> names[i] != names[j]) &&
      (forall n :: n in databases <==> n in names) &&
      (current.Some? ==> current.value in databases)
    }

    constructor ()
      ensures Valid() && names == [] && databases == map[] && current == None
    {
      names := [];
      databases := map[];
      current := None;
    }

    /** `_generate_db_name(path)`: the file's base name, or `base_k` for the
        smallest k >= 1 that is not yet a key. */
    method GenerateDbName(path: string) returns (name: string)
      ensures name !in databases
      ensures var base := StripExtension(BaseName(path));
        name == base ||
        (exists k: nat ::
           1 <= k && name == Numbered(base, k) && base in databases &&
           forall j: nat :: 1 <= j < k ==> Numbered(base, j) in databases)
      ensures StripExtension(BaseName(path)) !in databases ==> name == StripExtension(BaseName(path))
    {
      var base := StripExtension(BaseName(path));
      name := base;
      var counter: nat := 1;
      ghost var seen: set<string> := {};
      while name in databases
        invariant name == base || (counter >= 2 && name == Numbered(base, counter - 1))
        invariant counter >= 1
        invariant name == base <==> counter == 1
        invariant counter >= 2 ==> base in databases
        invariant forall j: nat :: 1 <= j < counter - 1 ==> Numbered(base, j) in databases
        invariant seen <= databases.Keys
        invariant name !in seen
        invariant forall n :: n in seen ==> n == base || exists j: nat :: 1 <= j < counter - 1 && n == Numbered(base, j)
        decreases databases.Keys - seen
      {
        seen := seen + {name};
        name := Numbered(base, counter);
        counter := counter + 1;
        forall n | n in seen ensures n != name {
          if n != base {
            var j: nat :| 1 <= j < counter - 1 && n == Numbered(base, j);
            if n == name {
              NumberedInjective(base, j, counter - 1);
            }
          } else {
            assert |name| > |base|;
          }
        }
      }
    }

    /** `_add_db_handler`: store the handler; it becomes current when there
        was none or when replacing. */
    method AddDbHandler(name: string, handler: string, replaceExisting: bool)
      requires Valid()
      modifies this
      ensures Valid()
      ensures databases == old(databases)[name := handler]
      ensures names == if name in old(databases) then old(names) else old(names) + [name]
      ensures current == if old(current).None? || replaceExisting then Some(name) else old(current)
    {
      if name !in databases {
        names := names + [name];
      }
      databases := databases[name := handler];
      if current.None? || replaceExisting {
        current := Some(name);
      }
    }

    /** `add_database(path, replace_existing)`: `FileNotFoundError` when the
        file does not exist; otherwise (after closing everything when
        replacing) registers the file under a fresh name and returns it. */
    method AddDatabase(path: string, replaceExisting: bool, fileExists: bool) returns (r: Option<string>)
      requires Valid()
      modifies this
      ensures Valid()
      ensures !fileExists ==> r == None && names == old(names) && databases == old(databases) && current == old(current)
      ensures fileExists ==> r.Some? && r.value in databases && databases[r.value] == path
      ensures fileExists && replaceExisting ==>
        names == [r.value] && databases == map[r.value := path] && current == r
      ensures fileExists && !replaceExisting ==>
        r.value !in old(databases) && names == old(names) + [r.value] &&
        databases == old(databases)[r.value := path] &&
        current == (if old(current).None? then r else old(current))
    {
      if !fileExists {
        return None;
      }
      if replaceExisting {
        DisconnectAll();
      }
      var name := GenerateDbName(path);
      AddDbHandler(name, path, replaceExisting);
      return Some(name);
    }

    /** `switch_database(name)` */
    method SwitchDatabase(name: string) returns (ok: bool)
      requires Valid()
      modifies this
      ensures Valid()
      ensures names == old(names) && databases == old(databases)
      ensures ok <==> name in databases
      ensures current == if ok then Some(name) else old(current)
    {
      if name !in databases {
        return false;
      }
      current := Some(name);
      return true;
    }

    /** `remove_database(name)`: when the removed database was current, the
        first remaining one in insertion order becomes current, or none. */
    method RemoveDatabase(name: string) returns (ok: bool)
      requires Valid()
      modifies this
      ensures Valid()
      ensures ok <==> name in old(databases)
      ensures !ok ==> names == old(names) && databases == old(databases) && current == old(current)
      ensures ok ==> databases == old(databases) - {name} && name !in names
      ensures ok ==> names == RemoveFirst(old(names), name)
      ensures ok && old(current) != Some(name) ==> current == old(current)
      ensures ok && old(current) == Some(name) ==>
        current == if |names| > 0 then Some(names[0]) else None
    {
      if name !in databases {
        return false;
      }
      RemoveFirstDistinct(names, name);
      names := RemoveFirst(names, name);
      databases := databases - {name};
      if current == Some(name) {
        if |names| > 0 {
          current := Some(names[0]);
        } else {
          current := None;
        }
      }
      return true;
    }

    /** `get_current_db()`: an empty current name counts as no name. */
    method GetCurrentDb() returns (r: Option<string>)
      requires Valid()
      ensures r.Some? <==> current.Some? && current.value != ""
      ensures r.Some? ==> r.value == databases[current.value]
    {
      if current.Some? && current.value != "" && current.value in databases {
        return Some(databases[current.value]);
      }
      return None;
    }

    /** `get_database_info()`: one entry per database in insertion order,
        exactly the current one marked. */
    method GetDatabaseInfo() returns (info: seq<DbInfo>)
      requires Valid()
      ensures |info| == |names|
      ensures forall i :: 0 <= i < |info| ==> info[i].name == names[i]
      ensures forall i :: 0 <= i < |info| ==>
        info[i].path == (if databases[names[i]] != "" then databases[names[i]] else "N/A")
      ensures forall i :: 0 <= i < |info| ==> (info[i].isCurrent <==> current == Some(names[i]))
    {
      info := [];
      var i := 0;
      while i < |names|
        invariant 0 <= i <= |names|
        invariant |info| == i
        invariant forall j :: 0 <= j < i ==> info[j].name == names[j]
        invariant forall j :: 0 <= j < i ==>
          info[j].path == (if databases[names[j]] != "" then databases[names[j]] else "N/A")
        invariant forall j :: 0 <= j < i ==> (info[j].isCurrent <==> current == Some(names[j]))
      {
        var n := names[i];
        var path := if databases[n] != "" then databases[n] else "N/A";
        info := info + [DbInfo(n, path, current == Some(n))];
        i := i + 1;
      }
    }

    /** `disconnect_all()` */
    method DisconnectAll()
      requires Valid()
      modifies this
      ensures Valid()
      ensures names == [] && databases == map[] && current == None
    {
      names := [];
      databases := map[];
      current := None;
    }
  }
}
