/**
  Strings as the scripts compare and sort them. JavaScript compares UTF-16 code
  units; `Rank` maps a Unicode scalar to a number with the same order.
 */
module Text {

  function Rank(c: char): int {
    var n := c as int;
    if n >= 0x10000 then n - 0x10000 + 0xD800 else if n >= 0xE000 then n + 0x100000 else n
  }

  /** `a < b` on strings: lexicographic by code unit. */
  predicate Less(a: string, b: string) {
    b != [] && (a == [] || Rank(a[0]) < Rank(b[0]) || (a[0] == b[0] && Less(a[1..], b[1..])))
  }

  predicate Digit(c: char) {
    '0' <= c <= '9'
  }

  predicate AllDigits(s: string) {
    forall i :: 0 <= i < |s| ==> Digit(s[i])
  }

  /** An array index in canonical decimal form, at most 2^32 - 2. */
  predicate IsIndex(key: string) {
    && key != [] && AllDigits(key) && (|key| == 1 || key[0] != '0')
    && (|key| < 10 || (|key| == 10 && !Less("4294967294", key)))
  }

  /**
    Two ways to order keys: plain string order, and the order an object lists its
    own keys after they were added in it.
   */
  datatype Order = ByText | ByOwnKey

  predicate Before(o: Order, a: string, b: string) {
    match o
    case ByText => Less(a, b)
    case ByOwnKey =>
      if IsIndex(a) && IsIndex(b) then |a| < |b| || (|a| == |b| && Less(a, b))
      else if IsIndex(a) != IsIndex(b) then IsIndex(a)
      else Less(a, b)
  }

  lemma {:induction false} LessIsTotal(a: string, b: string)
    ensures a == b || Less(a, b) || Less(b, a)
    ensures !(Less(a, b) && Less(b, a)) && !Less(a, a)
    decreases |a|
  {
    if a != [] && b != [] && Rank(a[0]) == Rank(b[0]) {
      assert a[0] == b[0];
      LessIsTotal(a[1..], b[1..]);
      assert a[1..] == b[1..] ==> a == b by {
        assert a == [a[0]] + a[1..] && b == [b[0]] + b[1..];
      }
    }
    if a != [] {
      LessIsTotal(a[1..], a[1..]);
    }
  }

  lemma {:induction false} LessIsTransitive(a: string, b: string, c: string)
    requires Less(a, b) && Less(b, c)
    ensures Less(a, c)
    decreases |a|
  {
    if a != [] && a[0] == b[0] && b[0] == c[0] {
      LessIsTransitive(a[1..], b[1..], c[1..]);
    }
  }

  lemma BeforeIsTotal(o: Order, a: string, b: string)
    ensures a == b || Before(o, a, b) || Before(o, b, a)
    ensures !(Before(o, a, b) && Before(o, b, a)) && !Before(o, a, a)
  {
    LessIsTotal(a, b);
    LessIsTotal(a, a);
  }

  lemma BeforeIsTransitive(o: Order, a: string, b: string, c: string)
    requires Before(o, a, b) && Before(o, b, c)
    ensures Before(o, a, c)
  {
    if Less(a, b) && Less(b, c) {
      LessIsTransitive(a, b, c);
    }
  }

  // ---------- Sorting ----------

  predicate Ascending(o: Order, xs: seq<string>) {
    forall i, j :: 0 <= i < j < |xs| ==> !Before(o, xs[j], xs[i])
  }

  predicate Strict(o: Order, xs: seq<string>) {
    forall i, j :: 0 <= i < j < |xs| ==> Before(o, xs[i], xs[j])
  }

  predicate NoRepeats(xs: seq<string>) {
    forall i, j :: 0 <= i < j < |xs| ==> xs[i] != xs[j]
  }

  function Insert(o: Order, x: string, xs: seq<string>): seq<string> {
    if xs == [] then [x]
    else if Before(o, xs[0], x) then [xs[0]] + Insert(o, x, xs[1..])
    else [x] + xs
  }

  /** `values.sort()`. */
  function Sort(o: Order, xs: seq<string>): seq<string> {
    if xs == [] then [] else Insert(o, xs[0], Sort(o, xs[1..]))
  }

  function Dedup(xs: seq<string>): seq<string> {
    if xs == [] then []
    else
      var rest := Dedup(xs[..|xs| - 1]);
      if xs[|xs| - 1] in rest then rest else rest + [xs[|xs| - 1]]
  }

  /** `[...new Set(values)].sort()`. */
  function SortUnique(xs: seq<string>): seq<string> {
    Sort(ByText, Dedup(xs))
  }

  lemma {:induction false} InsertAdds(o: Order, x: string, xs: seq<string>)
    ensures multiset(Insert(o, x, xs)) == multiset(xs) + multiset{x} && |Insert(o, x, xs)| == |xs| + 1
    ensures forall y :: y in Insert(o, x, xs) <==> y == x || y in xs
    decreases |xs|
  {
    if xs != [] && Before(o, xs[0], x) {
      InsertAdds(o, x, xs[1..]);
      assert xs == [xs[0]] + xs[1..];
    }
  }

  lemma {:induction false} InsertSorts(o: Order, x: string, xs: seq<string>)
    requires Ascending(o, xs)
    ensures Ascending(o, Insert(o, x, xs))
    decreases |xs|
  {
    if xs == [] {
    } else if Before(o, xs[0], x) {
      InsertSorts(o, x, xs[1..]);
      InsertAdds(o, x, xs[1..]);
      var rest := Insert(o, x, xs[1..]);
      forall j | 0 <= j < |rest| ensures !Before(o, rest[j], xs[0]) {
        BeforeIsTotal(o, xs[0], x);
        assert rest[j] in rest;
      }
      AscendingFrom(o, xs[0], rest);
    } else {
      forall j | 0 <= j < |xs| ensures !Before(o, xs[j], x) {
        NotBeforeHead(o, x, xs, j);
      }
      AscendingFrom(o, x, xs);
    }
  }

  lemma AscendingFrom(o: Order, x: string, xs: seq<string>)
    requires Ascending(o, xs) && forall j :: 0 <= j < |xs| ==> !Before(o, xs[j], x)
    ensures Ascending(o, [x] + xs)
  {}

  lemma NotBeforeHead(o: Order, x: string, xs: seq<string>, j: nat)
    requires Ascending(o, xs) && j < |xs| && !Before(o, xs[0], x)
    ensures !Before(o, xs[j], x)
  {
    BeforeIsTotal(o, xs[0], x);
    BeforeIsTotal(o, xs[j], xs[0]);
    if Before(o, xs[j], x) && Before(o, x, xs[0]) {
      BeforeIsTransitive(o, xs[j], x, xs[0]);
    }
  }

  lemma {:induction false} SortSorts(o: Order, xs: seq<string>)
    ensures Ascending(o, Sort(o, xs))
    ensures multiset(Sort(o, xs)) == multiset(xs)
    ensures |Sort(o, xs)| == |xs|
    decreases |xs|
  {
    if xs != [] {
      SortSorts(o, xs[1..]);
      InsertSorts(o, xs[0], Sort(o, xs[1..]));
      InsertAdds(o, xs[0], Sort(o, xs[1..]));
      assert xs == [xs[0]] + xs[1..];
    }
  }

  lemma SameMembers(xs: seq<string>, ys: seq<string>)
    requires multiset(xs) == multiset(ys)
    ensures forall x :: x in xs <==> x in ys
  {
    assert forall x :: x in xs <==> x in multiset(xs);
    assert forall x :: x in ys <==> x in multiset(ys);
  }

  lemma NoRepeatsIsMultiset(xs: seq<string>)
    ensures NoRepeats(xs) <==> forall x :: multiset(xs)[x] <= 1
  {
    forall i, j | 0 <= i < j < |xs| && xs[i] == xs[j] ensures multiset(xs)[xs[i]] > 1 {
      assert xs == xs[..i] + [xs[i]] + xs[i + 1..j] + [xs[j]] + xs[j + 1..];
      assert multiset(xs) == multiset(xs[..i]) + multiset{xs[i]} + multiset(xs[i + 1..j])
        + multiset{xs[j]} + multiset(xs[j + 1..]);
    }
    if NoRepeats(xs) {
      CountedOnce(xs);
    }
  }

  lemma {:induction false} CountedOnce(xs: seq<string>)
    requires NoRepeats(xs)
    ensures forall x :: multiset(xs)[x] <= 1
  {
    if xs != [] {
      CountedOnce(xs[1..]);
      assert xs == [xs[0]] + xs[1..];
      assert xs[0] !in xs[1..];
    }
  }

  lemma SortIsStrict(o: Order, xs: seq<string>)
    requires NoRepeats(xs)
    ensures Strict(o, Sort(o, xs)) && NoRepeats(Sort(o, xs))
    ensures forall x :: x in Sort(o, xs) <==> x in xs
    ensures |Sort(o, xs)| == |xs|
  {
    SortSorts(o, xs);
    SameMembers(Sort(o, xs), xs);
    NoRepeatsIsMultiset(xs);
    NoRepeatsIsMultiset(Sort(o, xs));
    forall i, j | 0 <= i < j < |xs| ensures Before(o, Sort(o, xs)[i], Sort(o, xs)[j]) {
      BeforeIsTotal(o, Sort(o, xs)[i], Sort(o, xs)[j]);
    }
  }

  lemma StrictHasNoRepeats(o: Order, xs: seq<string>)
    requires Strict(o, xs)
    ensures NoRepeats(xs)
  {
    forall i, j | 0 <= i < j < |xs| ensures xs[i] != xs[j] {
      BeforeIsTotal(o, xs[i], xs[j]);
    }
  }

  /** Strictly ascending sequences are determined by their members. */
  lemma {:induction false} StrictIsUnique(o: Order, xs: seq<string>, ys: seq<string>)
    requires Strict(o, xs) && Strict(o, ys)
    requires forall x :: x in xs <==> x in ys
    ensures xs == ys
    decreases |xs|
  {
    assert ys != [] ==> ys[0] in ys;
    if xs != [] {
      assert xs[0] in xs;
      var k :| 0 <= k < |ys| && ys[k] == xs[0];
      var m :| 0 <= m < |xs| && xs[m] == ys[0];
      BeforeIsTotal(o, xs[0], ys[0]);
      assert xs[0] == ys[0];
      StrictHasNoRepeats(o, xs);
      StrictHasNoRepeats(o, ys);
      assert xs == [xs[0]] + xs[1..] && ys == [ys[0]] + ys[1..];
      forall x ensures x in xs[1..] <==> x in ys[1..] {
        assert x in xs[1..] <==> x in xs && x != xs[0];
        assert x in ys[1..] <==> x in ys && x != ys[0];
      }
      StrictIsUnique(o, xs[1..], ys[1..]);
    }
  }

  /** Sorting gives the strictly ascending list of exactly these members, and nothing else does. */
  lemma SortsTo(o: Order, xs: seq<string>, ys: seq<string>)
    requires Strict(o, ys)
    ensures Sort(o, xs) == ys <==> multiset(xs) == multiset(ys)
  {
    SortSorts(o, xs);
    if multiset(xs) == multiset(ys) {
      StrictHasNoRepeats(o, ys);
      NoRepeatsIsMultiset(ys);
      NoRepeatsIsMultiset(xs);
      SortIsStrict(o, xs);
      SameMembers(xs, ys);
      StrictIsUnique(o, Sort(o, xs), ys);
    }
  }

  lemma {:induction false} DedupKeepsMembers(xs: seq<string>)
    ensures NoRepeats(Dedup(xs))
    ensures forall x :: x in Dedup(xs) <==> x in xs
  {
    if xs != [] {
      DedupKeepsMembers(xs[..|xs| - 1]);
      assert xs == xs[..|xs| - 1] + [xs[|xs| - 1]];
    }
  }

  lemma DedupAppend(xs: seq<string>, x: string)
    ensures Dedup(xs + [x]) == if x in Dedup(xs) then Dedup(xs) else Dedup(xs) + [x]
  {
    assert (xs + [x])[..|xs|] == xs;
  }

  /** Some occurrence of `x` in `xs` comes before every occurrence of `y`. */
  predicate Leading(xs: seq<string>, x: string, y: string) {
    exists p :: 0 <= p < |xs| && xs[p] == x && y !in xs[..p]
  }

  /** Without repeats, values stand in the order of their first appearance. */
  lemma {:induction false} DedupKeepsOrder(xs: seq<string>, i: nat, j: nat)
    requires i < j < |Dedup(xs)|
    ensures Leading(xs, Dedup(xs)[i], Dedup(xs)[j])
    decreases |xs|
  {
    var n := |xs| - 1;
    var rest := Dedup(xs[..n]);
    DedupKeepsMembers(xs[..n]);
    if j < |rest| {
      DedupKeepsOrder(xs[..n], i, j);
      var p :| 0 <= p < n && xs[..n][p] == rest[i] && rest[j] !in xs[..n][..p];
      assert xs[..p] == xs[..n][..p];
    } else {
      assert rest[i] in rest;
      var p :| 0 <= p < n && xs[..n][p] == rest[i];
      assert xs[..p] == xs[..n][..p] && forall k :: 0 <= k < p ==> xs[..p][k] in xs[..n];
    }
  }

  lemma SortUniqueIsCanonical(xs: seq<string>)
    ensures Strict(ByText, SortUnique(xs))
    ensures forall x :: x in SortUnique(xs) <==> x in xs
  {
    DedupKeepsMembers(xs);
    SortIsStrict(ByText, Dedup(xs));
  }

  // ---------- Prefixes ----------

  predicate StartsWith(s: string, prefix: string) {
    prefix <= s
  }

  predicate EndsWith(s: string, suffix: string) {
    |suffix| <= |s| && s[|s| - |suffix|..] == suffix
  }
}
