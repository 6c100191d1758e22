/**
  JSON values, the `canonical` copy with sorted members that every digest is
  taken over, and the text `JSON.stringify` gives it (RFC 8259).
 */
module Json {
  import opened Text

  /** An object keeps its members in the order JavaScript lists them; a number keeps its text. */
  datatype Json =
    | Null
    | Bool(flag: bool)
    | Num(lexeme: string)
    | Str(text: string)
    | Arr(items: seq<Json>)
    | Obj(members: seq<Member>)

  datatype Member = Member(key: string, value: Json)

  function Keys(members: seq<Member>): seq<string> {
    seq(|members|, i requires 0 <= i < |members| => members[i].key)
  }

  /** A value that exists in memory: no member name twice, and numbers as JSON writes them. */
  predicate Valid(v: Json) {
    match v
    case Num(lexeme) => IsNumber(lexeme)
    case Arr(items) => forall i :: 0 <= i < |items| ==> Valid(items[i])
    case Obj(members) =>
      NoRepeats(Keys(members)) && forall i :: 0 <= i < |members| ==> Valid(members[i].value)
    case _ => true
  }

  predicate NumberChar(c: char) {
    Digit(c) || c in "-+.eE"
  }

  predicate IsNumber(lexeme: string) {
    lexeme != [] && forall i :: 0 <= i < |lexeme| ==> NumberChar(lexeme[i])
  }

  function Index(members: seq<Member>, key: string): (i: nat)
    requires key in Keys(members)
    ensures i < |members| && members[i].key == key
  {
    if members[0].key == key then 0
    else
      assert Keys(members)[1..] == Keys(members[1..]);
      assert Keys(members) == [members[0].key] + Keys(members)[1..];
      1 + Index(members[1..], key)
  }

  lemma IndexIsUnique(members: seq<Member>, i: nat)
    requires NoRepeats(Keys(members)) && i < |members|
    ensures Keys(members)[i] == members[i].key && members[i].key in Keys(members)
    ensures Index(members, members[i].key) == i
  {
    var k := Keys(members);
    assert k[i] == members[i].key;
    var j := Index(members, members[i].key);
    assert k[j] == k[i];
  }

  // ---------- Canonical copies ----------

  /** `canonical`: the same value with the members of every object in sorted order. */
  function Canonical(v: Json): Json {
    match v
    case Arr(items) => Arr(seq(|items|, i requires 0 <= i < |items| => Canonical(items[i])))
    case Obj(members) =>
      var keys := Sort(ByOwnKey, Keys(members));
      SortSorts(ByOwnKey, Keys(members));
      SameMembers(keys, Keys(members));
      Obj(seq(|keys|, i requires 0 <= i < |keys| =>
        Member(keys[i], Canonical(members[Index(members, keys[i])].value))))
    case _ => v
  }

  // ---------- Meaning ----------

  /** A JSON value as a tree whose object members have no order. */
  datatype Tree =
    | TNull
    | TBool(flag: bool)
    | TNum(lexeme: string)
    | TStr(text: string)
    | TArr(items: seq<Tree>)
    | TObj(members: map<string, Tree>)

  function Meaning(v: Json): Tree {
    match v
    case Null => TNull
    case Bool(flag) => TBool(flag)
    case Num(lexeme) => TNum(lexeme)
    case Str(text) => TStr(text)
    case Arr(items) => TArr(seq(|items|, i requires 0 <= i < |items| => Meaning(items[i])))
    case Obj(members) => TObj(map key | key in Keys(members) :: Meaning(members[Index(members, key)].value))
  }

  lemma CanonicalKeys(members: seq<Member>)
    requires NoRepeats(Keys(members))
    ensures Keys(Canonical(Obj(members)).members) == Sort(ByOwnKey, Keys(members))
    ensures NoRepeats(Sort(ByOwnKey, Keys(members)))
    ensures forall key :: key in Sort(ByOwnKey, Keys(members)) <==> key in Keys(members)
  {
    SortIsStrict(ByOwnKey, Keys(members));
    assert Keys(Canonical(Obj(members)).members) == Sort(ByOwnKey, Keys(members));
  }

  /** A canonical copy is a value again and means the same. */
  lemma {:induction false} CanonicalKeepsMeaning(v: Json)
    requires Valid(v)
    ensures Valid(Canonical(v)) && Meaning(Canonical(v)) == Meaning(v)
    decreases v, 1
  {
    match v
    case Arr(items) =>
      forall i | 0 <= i < |items|
        ensures Valid(Canonical(items[i])) && Meaning(Canonical(items[i])) == Meaning(items[i])
      {
        CanonicalKeepsMeaning(items[i]);
      }
      assert Meaning(Canonical(v)).items == Meaning(v).items;
    case Obj(members) => CanonicalKeepsMembers(v);
    case _ =>
  }

  lemma {:induction false} CanonicalKeepsMembers(v: Json)
    requires v.Obj? && Valid(v)
    ensures Valid(Canonical(v)) && Meaning(Canonical(v)) == Meaning(v)
    decreases v, 0
  {
    var members, copy := v.members, Canonical(v).members;
    CanonicalKeys(members);
    forall i | 0 <= i < |copy|
      ensures Valid(copy[i].value) && SameMeaning(members, copy[i])
    {
      assert copy[i].key == Keys(copy)[i];
      CanonicalKeepsMeaning(members[Index(members, copy[i].key)].value);
    }
    MembersMeanTheSame(members, copy);
  }

  predicate SameMeaning(members: seq<Member>, m: Member) {
    m.key in Keys(members) && Meaning(m.value) == Meaning(members[Index(members, m.key)].value)
  }

  lemma MembersMeanTheSame(members: seq<Member>, copy: seq<Member>)
    requires NoRepeats(Keys(copy)) && forall key :: key in Keys(copy) <==> key in Keys(members)
    requires forall i :: 0 <= i < |copy| ==> SameMeaning(members, copy[i])
    ensures Meaning(Obj(copy)) == Meaning(Obj(members))
  {
    assert Meaning(Obj(copy)).members == Meaning(Obj(members)).members;
  }

  /** Values that mean the same have one canonical copy. */
  lemma {:induction false} MeaningFixesCanonical(a: Json, b: Json)
    requires Valid(a) && Valid(b) && Meaning(a) == Meaning(b)
    ensures Canonical(a) == Canonical(b)
    decreases a, 1
  {
    match a
    case Arr(items) =>
      var others := b.items;
      assert |Meaning(a).items| == |items| && |Meaning(b).items| == |others|;
      forall i | 0 <= i < |items| ensures Canonical(items[i]) == Canonical(others[i]) {
        assert Meaning(items[i]) == Meaning(a).items[i];
        assert Meaning(others[i]) == Meaning(b).items[i];
        MeaningFixesCanonical(items[i], others[i]);
      }
      assert Canonical(a).items == Canonical(b).items;
    case Obj(members) =>
      MeaningFixesMembers(a, b);
    case _ =>
  }

  lemma {:induction false} MeaningFixesMembers(a: Json, b: Json)
    requires Valid(a) && Valid(b) && Meaning(a) == Meaning(b) && a.Obj?
    ensures Canonical(a) == Canonical(b)
    decreases a, 0
  {
    var ms, ns := a.members, b.members;
    forall key ensures key in Keys(ms) <==> key in Keys(ns) {
      assert key in Keys(ms) <==> key in Meaning(a).members;
      assert key in Keys(ns) <==> key in Meaning(b).members;
    }
    var keys := Sort(ByOwnKey, Keys(ms));
    SortIsStrict(ByOwnKey, Keys(ms));
    SortIsStrict(ByOwnKey, Keys(ns));
    StrictIsUnique(ByOwnKey, keys, Sort(ByOwnKey, Keys(ns)));
    forall i | 0 <= i < |keys|
      ensures Canonical(ms[Index(ms, keys[i])].value) == Canonical(ns[Index(ns, keys[i])].value)
    {
      assert keys[i] in keys;
      assert Meaning(a).members[keys[i]] == Meaning(b).members[keys[i]];
      MeaningFixesCanonical(ms[Index(ms, keys[i])].value, ns[Index(ns, keys[i])].value);
    }
    assert Canonical(a).members == Canonical(b).members;
  }

  lemma CanonicalIsIdempotent(v: Json)
    requires Valid(v)
    ensures Canonical(Canonical(v)) == Canonical(v)
  {
    CanonicalKeepsMeaning(v);
    MeaningFixesCanonical(Canonical(v), v);
  }
}
