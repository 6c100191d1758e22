/**
  The trusted contract of a documentation selection
  (scripts/push-selection.mjs): the two entry modules and everything they reach
  through matched relative imports and URLs.
 */
module Selection {
  import opened Options

  /** A trusted module: its bytes and the files its matched imports and URLs name, in order. */
  datatype Source = Source(bytes: string, links: seq<string>)

  /** The trusted checkout. A file that is not there cannot be read. */
  datatype Trusted = Trusted(disk: map<string, Source>, inside: string -> bool)

  predicate Good(t: Trusted, file: string) {
    t.inside(file) && file in t.disk
  }

  /** Follows every link of every file in it that can be read. */
  ghost predicate Closed(t: Trusted, s: set<string>) {
    forall f, i :: f in s && f in t.disk && 0 <= i < |t.disk[f].links| ==> t.disk[f].links[i] in s
  }

  /** All links of these files lead into `into`. */
  ghost predicate Followed(t: Trusted, files: set<string>, into: set<string>) {
    forall f, i :: f in files && f in t.disk && 0 <= i < |t.disk[f].links| ==> t.disk[f].links[i] in into
  }

  /** Any closed set with `file` in it also holds all of `files`. */
  ghost predicate Needed(t: Trusted, file: string, files: set<string>) {
    forall s :: Closed(t, s) && file in s ==> files <= s
  }

  /** Any closed set with `file` in it holds a file that is outside or unreadable. */
  ghost predicate Hopeless(t: Trusted, file: string) {
    forall s :: Closed(t, s) && file in s ==> exists f :: f in s && !Good(t, f)
  }

  class Walk {
    const trusted: Trusted
    var files: map<string, string>

    ghost predicate Valid()
      reads this
    {
      forall f :: f in files ==> Good(trusted, f) && files[f] == trusted.disk[f].bytes
    }

    constructor (trusted: Trusted)
      ensures Valid() && this.trusted == trusted && files == map[]
    {
      this.trusted, files := trusted, map[];
    }

    /** The recursive `visit`; it ends on cycles because a file is entered before its links are followed. */
    method Visit(file: string) returns (ok: bool)
      requires Valid()
      modifies this`files
      ensures Valid() && old(files).Keys <= files.Keys
      ensures ok ==> file in files && Followed(trusted, files.Keys - old(files).Keys, files.Keys)
      ensures Needed(trusted, file, files.Keys - old(files).Keys)
      ensures !ok ==> Hopeless(trusted, file)
      decreases trusted.disk.Keys - files.Keys
    {
      if file in files { return true; }
      if !Good(trusted, file) { return false; }
      ghost var before := files.Keys;
      var source := trusted.disk[file];
      files := files[file := source.bytes];
      for i := 0 to |source.links|
        invariant Valid() && before + {file} <= files.Keys
        invariant forall j :: 0 <= j < i ==> source.links[j] in files
        invariant Followed(trusted, files.Keys - before - {file}, files.Keys)
        invariant Needed(trusted, file, files.Keys - before)
      {
        ghost var sofar := files.Keys;
        ok := Visit(source.links[i]);
        LinkNeeded(trusted, file, i, files.Keys - sofar);
        if !ok {
          LinkHopeless(trusted, file, i);
          return;
        }
      }
      ok := true;
    }
  }

  lemma LinkNeeded(t: Trusted, file: string, i: nat, files: set<string>)
    requires file in t.disk && i < |t.disk[file].links| && Needed(t, t.disk[file].links[i], files)
    ensures Needed(t, file, files)
  {}

  lemma LinkHopeless(t: Trusted, file: string, i: nat)
    requires file in t.disk && i < |t.disk[file].links| && Hopeless(t, t.disk[file].links[i])
    ensures Hopeless(t, file)
  {}

  /** Exactly the least closed set with both roots, every file with its own bytes. */
  ghost predicate IsContract(t: Trusted, roots: (string, string), files: map<string, string>) {
    && roots.0 in files && roots.1 in files && Closed(t, files.Keys)
    && (forall f :: f in files ==> t.inside(f) && f in t.disk && files[f] == t.disk[f].bytes)
    && (forall s :: Closed(t, s) && roots.0 in s && roots.1 in s ==> files.Keys <= s)
  }

  /** Every closed set with both roots holds a file that cannot be trusted. */
  ghost predicate NoContract(t: Trusted, roots: (string, string)) {
    forall s :: Closed(t, s) && roots.0 in s && roots.1 in s ==> exists f :: f in s && !(t.inside(f) && f in t.disk)
  }

  lemma ContractIsUnique(t: Trusted, roots: (string, string), a: map<string, string>, b: map<string, string>)
    requires IsContract(t, roots, a) && IsContract(t, roots, b)
    ensures a == b
  {
    assert a.Keys == b.Keys;
  }

  method ContractFiles(t: Trusted, roots: (string, string)) returns (result: Option<map<string, string>>)
    ensures result.Some? ==> IsContract(t, roots, result.value)
    ensures result.None? ==> NoContract(t, roots)
  {
    var walk := new Walk(t);
    var ok := walk.Visit(roots.0);
    if !ok { return None; }
    ghost var first := walk.files.Keys;
    ok := walk.Visit(roots.1);
    if !ok { return None; }
    assert walk.files.Keys == first + (walk.files.Keys - first);
    return Some(walk.files);
  }

  /** Keeps the contract once it has been read. */
  class Gate {
    const trusted: Trusted
    const roots: (string, string)
    var cached: Option<Option<map<string, string>>>

    ghost predicate Valid()
      reads this
    {
      cached.Some? ==>
        if cached.value.Some? then IsContract(trusted, roots, cached.value.value) else NoContract(trusted, roots)
    }

    constructor (trusted: Trusted, roots: (string, string))
      ensures Valid() && this.trusted == trusted && this.roots == roots
    {
      this.trusted, this.roots, cached := trusted, roots, None;
    }

    /**
      `supportsSelection` of a checkout: `script` is its test script and `read` its
      bytes at a trusted file's relative path.
     */
    method SupportsSelection(script: Option<string>, read: string -> Option<string>) returns (supported: bool)
      requires Valid()
      modifies this`cached
      ensures Valid()
      ensures supported <==>
        script == Some(TEST_SCRIPT) && exists files :: IsContract(trusted, roots, files) && SameBytes(files, read)
    {
      if script != Some(TEST_SCRIPT) { return false; }
      if cached.None? {
        var files := ContractFiles(trusted, roots);
        cached := Some(files);
      }
      if cached.value.None? { return false; }
      var files := cached.value.value;
      var left := files.Keys;
      while left != {}
        invariant left <= files.Keys
        invariant forall f :: f in files && f !in left ==> read(f) == Some(files[f])
      {
        var f :| f in left;
        if read(f) != Some(files[f]) {
          forall other | IsContract(trusted, roots, other) ensures !SameBytes(other, read) {
            ContractIsUnique(trusted, roots, files, other);
          }
          return false;
        }
        left := left - {f};
      }
      return true;
    }
  }

  const TEST_SCRIPT := "node scripts/run-tests.mjs"

  predicate SameBytes(files: map<string, string>, read: string -> Option<string>) {
    forall f :: f in files ==> read(f) == Some(files[f])
  }
}
