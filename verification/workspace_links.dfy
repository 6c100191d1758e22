/**
  Installed dependencies may only be links into the workspace
  (`workspaceLinks` in scripts/gate-cache.mjs).
 */
module WorkspaceLinks {
  import opened Options
  import opened Text

  /** An entry below `packages`: its manifest's name, if that is a string, and where it really is. */
  datatype Package = Package(directory: bool, name: Option<string>, location: string)

  /** What an installed name is on disk. */
  datatype Found = NotALink | LinkTo(location: string)

  /** The installed modules: top-level entries and the children of scope directories. */
  datatype Install = Install(entries: seq<string>, scopes: map<string, seq<string>>, found: string -> Found)

  const LOCK := ".package-lock.json"

  // ---------- What is expected ----------

  predicate PackagesOk(packages: seq<Package>) {
    && (forall i :: 0 <= i < |packages| && packages[i].directory ==> packages[i].name.Some?)
    && (forall i, j :: 0 <= i < j < |packages| && packages[i].directory && packages[j].directory ==>
          packages[i].name != packages[j].name)
  }

  /** `expected` maps every package name to its own directory, and nothing else. */
  ghost predicate Expects(expected: map<string, string>, packages: seq<Package>) {
    && (forall i :: 0 <= i < |packages| && packages[i].directory ==>
          packages[i].name.Some? && packages[i].name.value in expected &&
          expected[packages[i].name.value] == packages[i].location)
    && (forall name :: name in expected ==> Offered(packages, name))
  }

  predicate Offered(packages: seq<Package>, name: string) {
    exists i :: 0 <= i < |packages| && packages[i].directory && packages[i].name == Some(name)
  }

  method ReadPackages(packages: seq<Package>) returns (expected: Option<map<string, string>>)
    ensures expected.Some? <==> PackagesOk(packages)
    ensures expected.Some? ==> Expects(expected.value, packages)
  {
    var names: map<string, string> := map[];
    for i := 0 to |packages|
      invariant PackagesOk(packages[..i]) && Expects(names, packages[..i])
    {
      var p := packages[i];
      if p.directory {
        if p.name.None? || p.name.value in names {
          PackageRefused(packages, i, names);
          return None;
        }
        ExpectsMore(packages, i, names);
        names := names[p.name.value := p.location];
      } else {
        ExpectsSame(packages, i, names);
      }
    }
    assert packages[..|packages|] == packages;
    return Some(names);
  }

  lemma PackageRefused(packages: seq<Package>, i: nat, names: map<string, string>)
    requires i < |packages| && packages[i].directory && Expects(names, packages[..i])
    requires packages[i].name.None? || packages[i].name.value in names
    ensures !PackagesOk(packages)
  {
    if packages[i].name.Some? {
      assert Offered(packages[..i], packages[i].name.value);
      var j :| 0 <= j < i && packages[..i][j].directory && packages[..i][j].name == packages[i].name;
      assert packages[j].name == packages[i].name;
    }
  }

  lemma ExpectsMore(packages: seq<Package>, i: nat, names: map<string, string>)
    requires i < |packages| && packages[i].directory && packages[i].name.Some?
    requires PackagesOk(packages[..i]) && Expects(names, packages[..i]) && packages[i].name.value !in names
    ensures PackagesOk(packages[..i + 1])
    ensures Expects(names[packages[i].name.value := packages[i].location], packages[..i + 1])
  {
    var less, more, name := packages[..i], packages[..i + 1], packages[i].name.value;
    assert forall j :: 0 <= j < i ==> more[j] == less[j];
    assert more[i] == packages[i];
    forall n | n in names ensures Offered(more, n) {
      assert Offered(less, n);
      var j :| 0 <= j < i && less[j].directory && less[j].name == Some(n);
      assert more[j].name == Some(n);
    }
    assert Offered(more, name);
  }

  lemma ExpectsSame(packages: seq<Package>, i: nat, names: map<string, string>)
    requires i < |packages| && !packages[i].directory
    requires PackagesOk(packages[..i]) && Expects(names, packages[..i])
    ensures PackagesOk(packages[..i + 1]) && Expects(names, packages[..i + 1])
  {
    var less, more := packages[..i], packages[..i + 1];
    assert forall j :: 0 <= j < i ==> more[j] == less[j];
    forall n | n in names ensures Offered(more, n) {
      assert Offered(less, n);
      var j :| 0 <= j < i && less[j].directory && less[j].name == Some(n);
      assert more[j].name == Some(n);
    }
  }

  // ---------- What is installed ----------

  function Scoped(scope: string, children: seq<string>): seq<string> {
    if children == [] then [] else [scope + "/" + children[0]] + Scoped(scope, children[1..])
  }

  /** Installed names in sorted order; a scope that is not a readable directory makes the state uncertain. */
  function Names(install: Install, entries: seq<string>): Option<seq<string>> {
    if entries == [] then Some([])
    else
      var entry, rest := entries[0], Names(install, entries[1..]);
      if rest.None? then None
      else if entry == LOCK || !StartsWith(entry, "@") then Some([entry] + rest.value)
      else if entry !in install.scopes then None
      else Some(Scoped(entry, Sort(ByText, install.scopes[entry])) + rest.value)
  }

  lemma {:induction false} ScopedMembers(scope: string, children: seq<string>)
    ensures forall x :: x in Scoped(scope, children) <==> exists c :: c in children && x == scope + "/" + c
  {
    if children != [] {
      ScopedMembers(scope, children[1..]);
      assert children == [children[0]] + children[1..];
      forall x | exists c :: c in children && x == scope + "/" + c ensures x in Scoped(scope, children) {
        var c :| c in children && x == scope + "/" + c;
        assert c == children[0] || c in children[1..];
      }
    }
  }

  /** An installed name: an entry that is not a scope, or a child of one under its scope. */
  ghost predicate Installed(install: Install, entries: seq<string>, x: string) {
    || (x in entries && !StartsWith(x, "@"))
    || exists scope, child :: scope in entries && StartsWith(scope, "@") && scope in install.scopes
                              && child in install.scopes[scope] && x == scope + "/" + child
  }

  /** The names are known exactly when every scope can be read, and then they are all that is installed. */
  lemma {:induction false} NamesAreInstalled(install: Install, entries: seq<string>)
    ensures Names(install, entries).Some? <==>
      forall e :: e in entries && StartsWith(e, "@") ==> e in install.scopes
    ensures Names(install, entries).Some? ==>
      forall x :: x in Names(install, entries).value <==> Installed(install, entries, x)
  {
    if entries != [] {
      var entry, rest := entries[0], entries[1..];
      assert entries == [entry] + rest;
      NamesAreInstalled(install, rest);
      assert LOCK[0] == '.';
      if StartsWith(entry, "@") && entry in install.scopes {
        SortSorts(ByText, install.scopes[entry]);
        SameMembers(Sort(ByText, install.scopes[entry]), install.scopes[entry]);
        ScopedMembers(entry, Sort(ByText, install.scopes[entry]));
      }
      if Names(install, entries).Some? {
        forall x ensures x in Names(install, entries).value <==> Installed(install, entries, x) {
          InstalledMore(install, entry, rest, x);
        }
      }
    }
  }

  lemma InstalledMore(install: Install, entry: string, rest: seq<string>, x: string)
    ensures Installed(install, [entry] + rest, x) <==>
      || Installed(install, rest, x)
      || (if StartsWith(entry, "@") then entry in install.scopes && Under(install, entry, x) else x == entry)
  {
    if Installed(install, [entry] + rest, x) && !Installed(install, rest, x) {
      assert forall e :: e in [entry] + rest <==> e == entry || e in rest;
    }
    if StartsWith(entry, "@") && entry in install.scopes && Under(install, entry, x) {
      assert entry in [entry] + rest;
    }
  }

  ghost predicate Under(install: Install, scope: string, x: string)
    requires scope in install.scopes
  {
    exists child :: child in install.scopes[scope] && x == scope + "/" + child
  }

  /** Installed names other than the lockfile are, one to one, the expected ones, each a link to its own directory. */
  ghost predicate Bijection(names: seq<string>, expected: map<string, string>, found: string -> Found) {
    && (forall i :: 0 <= i < |names| && names[i] != LOCK ==>
          names[i] in expected && found(names[i]) == LinkTo(expected[names[i]]))
    && (forall i, j :: 0 <= i < j < |names| && names[i] != LOCK ==> names[i] != names[j])
    && (forall name :: name in expected ==> name != LOCK && name in names)
  }

  /** The loop that deletes every name it finds, and the final test that nothing expected is left. */
  method MatchLinks(names: seq<string>, expected: map<string, string>, found: string -> Found) returns (ok: bool)
    ensures ok <==> Bijection(names, expected, found)
  {
    var left := expected;
    for i := 0 to |names|
      invariant forall j :: 0 <= j < i && names[j] != LOCK ==>
        names[j] in expected && found(names[j]) == LinkTo(expected[names[j]]) && names[j] !in left
      invariant forall j, k :: 0 <= j < k < i && names[j] != LOCK ==> names[j] != names[k]
      invariant forall name :: name in left ==> name in expected && left[name] == expected[name]
      invariant forall name :: name in expected && name !in left ==> name != LOCK && name in names[..i]
    {
      var name := names[i];
      if name != LOCK {
        if name !in left || found(name) != LinkTo(left[name]) {
          NotABijection(names, i, expected, left, found);
          return false;
        }
        left := left - {name};
      }
      assert names[..i + 1] == names[..i] + [name];
    }
    assert names[..|names|] == names;
    ok := left == map[];
    if !ok {
      var name :| name in left;
      assert name in expected;
      if name in names {
        var j :| 0 <= j < |names| && names[j] == name;
      }
    } else {
      assert forall name :: name in expected ==> name !in left;
    }
  }

  lemma NotABijection(names: seq<string>, i: nat, expected: map<string, string>, left: map<string, string>,
                      found: string -> Found)
    requires i < |names| && names[i] != LOCK
    requires names[i] !in left || found(names[i]) != LinkTo(left[names[i]])
    requires forall name :: name in left ==> name in expected && left[name] == expected[name]
    requires forall name :: name in expected && name !in left ==> name != LOCK && name in names[..i]
    ensures !Bijection(names, expected, found)
  {
    if names[i] in expected && names[i] !in left {
      var j :| 0 <= j < i && names[..i][j] == names[i];
      assert names[j] == names[i];
    }
  }

  /** The installed name is the package's own name and links to the package's own directory. */
  predicate OwnLink(p: Package, name: string, found: string -> Found) {
    p.directory && p.name == Some(name) && name != LOCK && found(name) == LinkTo(p.location)
  }

  /** Installed names other than the lockfile and workspace packages correspond one to one. */
  ghost predicate AllLinked(names: seq<string>, packages: seq<Package>, found: string -> Found) {
    && (forall i :: 0 <= i < |names| && names[i] != LOCK ==> HasPackage(names[i], packages, found))
    && (forall k :: 0 <= k < |packages| && packages[k].directory ==> IsInstalled(packages[k], names, found))
    && (forall i, j :: 0 <= i < j < |names| && names[i] != LOCK ==> names[i] != names[j])
  }

  ghost predicate HasPackage(name: string, packages: seq<Package>, found: string -> Found) {
    exists k :: 0 <= k < |packages| && OwnLink(packages[k], name, found)
  }

  ghost predicate IsInstalled(p: Package, names: seq<string>, found: string -> Found) {
    exists i :: 0 <= i < |names| && OwnLink(p, names[i], found)
  }

  /**
    `workspaceLinks` of a repository whose modules directory is there. `knownLayout`
    is the workspaces setting of the manifest; `stable` is the second look at every
    directory that was listed.
   */
  method InstalledLinks(knownLayout: bool, packages: seq<Package>, install: Install, stable: bool)
    returns (actual: Option<seq<string>>)
    ensures actual.Some? ==> actual == Names(install, Sort(ByText, install.entries))
    ensures actual.Some? <==>
      && knownLayout && stable && PackagesOk(packages)
      && Names(install, Sort(ByText, install.entries)).Some?
      && AllLinked(Names(install, Sort(ByText, install.entries)).value, packages, install.found)
  {
    if !knownLayout { return None; }
    var expected := ReadPackages(packages);
    if expected.None? { return None; }
    var names := Names(install, Sort(ByText, install.entries));
    if names.None? { return None; }
    var ok := MatchLinks(names.value, expected.value, install.found);
    BijectionWithPackages(names.value, expected.value, packages, install.found);
    if !ok || !stable { return None; }
    return names;
  }

  lemma BijectionWithPackages(names: seq<string>, expected: map<string, string>, packages: seq<Package>,
                              found: string -> Found)
    requires Expects(expected, packages) && PackagesOk(packages)
    ensures Bijection(names, expected, found) <==> AllLinked(names, packages, found)
  {
    if Bijection(names, expected, found) {
      forall i | 0 <= i < |names| && names[i] != LOCK ensures HasPackage(names[i], packages, found) {
        assert Offered(packages, names[i]);
        var k :| 0 <= k < |packages| && packages[k].directory && packages[k].name == Some(names[i]);
        assert OwnLink(packages[k], names[i], found);
      }
      forall k | 0 <= k < |packages| && packages[k].directory ensures IsInstalled(packages[k], names, found) {
        assert packages[k].name.value in names;
        var i :| 0 <= i < |names| && names[i] == packages[k].name.value;
        assert OwnLink(packages[k], names[i], found);
      }
    }
    if AllLinked(names, packages, found) {
      forall i | 0 <= i < |names| && names[i] != LOCK
        ensures names[i] in expected && found(names[i]) == LinkTo(expected[names[i]])
      {
        assert HasPackage(names[i], packages, found);
        var k :| 0 <= k < |packages| && OwnLink(packages[k], names[i], found);
      }
      forall name | name in expected ensures name != LOCK && name in names {
        assert Offered(packages, name);
        var k :| 0 <= k < |packages| && packages[k].directory && packages[k].name == Some(name);
        assert IsInstalled(packages[k], names, found);
      }
    }
  }
}
