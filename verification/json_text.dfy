/**
  The text of a JSON value as `JSON.stringify` writes it without spaces
  (sections 4, 5 and 7 of RFC 8259), how such a text is read, and why no two
  values share a text.
 */
module JsonText {
  import opened Options
  import opened Text
  import opened Decimals
  import opened Json

  function HexDigit(n: nat): char
    requires n < 16
  {
    "0123456789abcdef"[n]
  }

  function EscapeChar(c: char): string {
    if c == '\"' then "\\\""
    else if c == '\\' then "\\\\"
    else if c as int == 8 then "\\b"
    else if c as int == 9 then "\\t"
    else if c as int == 10 then "\\n"
    else if c as int == 12 then "\\f"
    else if c as int == 13 then "\\r"
    else if c as int < 32 then "\\u00" + [HexDigit(c as int / 16), HexDigit(c as int % 16)]
    else [c]
  }

  /** The quoted string `s`, followed by `rest`. */
  function Quote(s: string, rest: string): string {
    "\"" + Escape(s, "\"" + rest)
  }

  function Escape(s: string, rest: string): string {
    if s == [] then rest else EscapeChar(s[0]) + Escape(s[1..], rest)
  }

  /** The text of `v`, followed by `rest`. */
  function Write(v: Json, rest: string): string
    decreases v, 1
  {
    match v
    case Null => "null" + rest
    case Bool(flag) => if flag then "true" + rest else "false" + rest
    case Num(lexeme) => lexeme + rest
    case Str(text) => Quote(text, rest)
    case Arr(items) => "[" + WriteItems(items, "]" + rest, false)
    case Obj(members) => "{" + WriteMembers(members, "}" + rest, false)
  }

  /** The items with commas between them; `more` says that an item came before. */
  function WriteItems(items: seq<Json>, rest: string, more: bool): string
    decreases items, 0
  {
    if items == [] then rest else Comma(more, Write(items[0], WriteItems(items[1..], rest, true)))
  }

  function WriteMembers(members: seq<Member>, rest: string, more: bool): string
    decreases members, 0
  {
    if members == [] then rest
    else Comma(more, Quote(members[0].key, ":" + Write(members[0].value, WriteMembers(members[1..], rest, true))))
  }

  function Comma(more: bool, rest: string): string {
    if more then "," + rest else rest
  }

  // ---------- Reading ----------

  function HexValue(c: char): (n: int)
    ensures n < 16
  {
    if '0' <= c <= '9' then c as int - '0' as int
    else if 'a' <= c <= 'f' then c as int - 'a' as int + 10
    else if 'A' <= c <= 'F' then c as int - 'A' as int + 10
    else -1
  }

  /** The character that two characters after a backslash stand for (section 7 of RFC 8259). */
  function ShortEscape(c: char): Option<char> {
    match c
    case '\"' => Some('\"')
    case '\\' => Some('\\')
    case '/' => Some('/')
    case 'b' => Some(8 as char)
    case 'f' => Some(12 as char)
    case 'n' => Some('\n')
    case 'r' => Some('\r')
    case 't' => Some('\t')
    case _ => None
  }

  /** `\u` and four hexadecimal digits. */
  function LongEscape(t: string): Option<char> {
    if |t| < 6 || exists i :: 2 <= i < 6 && HexValue(t[i]) < 0 then None
    else
      var code := ((HexValue(t[2]) * 16 + HexValue(t[3])) * 16 + HexValue(t[4])) * 16 + HexValue(t[5]);
      if 0xD800 <= code < 0xE000 then None else Some(code as char)
  }

  /** One character of a string, and what follows it. */
  function ReadChar(t: string): (r: Option<(char, string)>)
    requires t != []
    ensures r.Some? ==> |r.value.1| < |t|
  {
    if t[0] != '\\' then if t[0] as int < 32 then None else Some((t[0], t[1..]))
    else if |t| < 2 then None
    else if t[1] == 'u' then
      var c := LongEscape(t);
      if c.None? then None else Some((c.value, t[6..]))
    else
      var c := ShortEscape(t[1]);
      if c.None? then None else Some((c.value, t[2..]))
  }

  /** The characters up to the closing quote. */
  function ReadString(t: string): (r: Option<(string, string)>)
    ensures r.Some? ==> |r.value.1| < |t|
    decreases |t|
  {
    if t == [] then None
    else if t[0] == '\"' then Some(("", t[1..]))
    else
      var c := ReadChar(t);
      if c.None? then None
      else
        var s := ReadString(c.value.1);
        if s.None? then None else Some(([c.value.0] + s.value.0, s.value.1))
  }

  /** As many characters of a number as there are. */
  function ReadNumber(t: string): (r: (string, string))
    ensures |r.1| == |t| - |r.0|
  {
    if t == [] || !NumberChar(t[0]) then ("", t)
    else
      var (s, rest) := ReadNumber(t[1..]);
      ([t[0]] + s, rest)
  }

  /** The value at the start of a text without spaces (sections 3 to 7 of RFC 8259), and what follows it. */
  function ReadValue(t: string): (r: Option<(Json, string)>)
    ensures r.Some? ==> |r.value.1| < |t|
    decreases |t|, 0
  {
    if t == [] then None
    else if "null" <= t then Some((Null, t[4..]))
    else if "true" <= t then Some((Bool(true), t[4..]))
    else if "false" <= t then Some((Bool(false), t[5..]))
    else if NumberChar(t[0]) then
      var (lexeme, rest) := ReadNumber(t);
      Some((Num(lexeme), rest))
    else if t[0] == '\"' then
      var s := ReadString(t[1..]);
      if s.None? then None else Some((Str(s.value.0), s.value.1))
    else if "[]" <= t then Some((Arr([]), t[2..]))
    else if "{}" <= t then Some((Obj([]), t[2..]))
    else if t[0] == '[' then
      var items := ReadItems(t[1..]);
      if items.None? then None else Some((Arr(items.value.0), items.value.1))
    else if t[0] == '{' then
      var members := ReadMembers(t[1..]);
      if members.None? then None else Some((Obj(members.value.0), members.value.1))
    else None
  }

  /** A value, then a closing bracket, or a comma and more. */
  function ReadItems(t: string): (r: Option<(seq<Json>, string)>)
    ensures r.Some? ==> |r.value.1| < |t|
    decreases |t|, 1
  {
    var v := ReadValue(t);
    if v.None? || v.value.1 == [] then None
    else if v.value.1[0] == ']' then Some(([v.value.0], v.value.1[1..]))
    else if v.value.1[0] == ',' then
      var more := ReadItems(v.value.1[1..]);
      if more.None? then None else Some(([v.value.0] + more.value.0, more.value.1))
    else None
  }

  /** A name, a colon and a value, then a closing brace, or a comma and more. */
  function ReadMembers(t: string): (r: Option<(seq<Member>, string)>)
    ensures r.Some? ==> |r.value.1| < |t|
    decreases |t|, 1
  {
    var key := if t != [] && t[0] == '\"' then ReadString(t[1..]) else None;
    if key.None? || key.value.1 == [] || key.value.1[0] != ':' then None
    else
      var v := ReadValue(key.value.1[1..]);
      if v.None? || v.value.1 == [] then None
      else
        var member := Member(key.value.0, v.value.0);
        if v.value.1[0] == '}' then Some(([member], v.value.1[1..]))
        else if v.value.1[0] == ',' then
          var more := ReadMembers(v.value.1[1..]);
          if more.None? then None else Some(([member] + more.value.0, more.value.1))
        else None
  }

  // ---------- Reading undoes writing ----------

  lemma ReadsChar(c: char, rest: string)
    ensures var t := EscapeChar(c) + rest;
      t != [] && t[0] != '\"' && ReadChar(t) == Some((c, rest))
  {
    var t := EscapeChar(c) + rest;
    assert t[|EscapeChar(c)|..] == rest;
    if |EscapeChar(c)| == 6 {
      ReadsControl(c, rest);
    }
  }

  lemma HexDigits(n: nat)
    requires n < 16
    ensures HexValue(HexDigit(n)) == n
  {}

  lemma ReadsControl(c: char, rest: string)
    requires |EscapeChar(c)| == 6
    ensures LongEscape(EscapeChar(c) + rest) == Some(c)
  {
    var t := EscapeChar(c) + rest;
    HexDigits(c as int / 16);
    HexDigits(c as int % 16);
    assert t[2] == '0' && t[3] == '0' && t[4] == HexDigit(c as int / 16) && t[5] == HexDigit(c as int % 16);
    assert HexValue('0') == 0;
  }

  lemma {:induction false} ReadsString(s: string, rest: string)
    ensures ReadString(Escape(s, "\"" + rest)) == Some((s, rest))
    decreases |s|
  {
    if s != [] {
      ReadsChar(s[0], Escape(s[1..], "\"" + rest));
      ReadsString(s[1..], rest);
      assert s == [s[0]] + s[1..];
    }
  }

  /** What may follow a value inside a text. */
  predicate Ends(rest: string) {
    rest == [] || rest[0] in ",]}"
  }

  lemma {:induction false} ReadsNumber(s: string, rest: string)
    requires (forall i :: 0 <= i < |s| ==> NumberChar(s[i])) && Ends(rest)
    ensures ReadNumber(s + rest) == (s, rest)
    decreases |s|
  {
    if s == [] {
      assert s + rest == rest;
    } else {
      assert (s + rest)[0] == s[0] && (s + rest)[1..] == s[1..] + rest;
      ReadsNumber(s[1..], rest);
      assert s == [s[0]] + s[1..];
    }
  }

  /** Reading the text of a value gives the value back, and leaves what follows it. */
  lemma {:induction false} ReadUndoesWrite(v: Json, rest: string)
    requires Valid(v) && Ends(rest)
    ensures ReadValue(Write(v, rest)) == Some((v, rest))
    decreases v, 1
  {
    match v
    case Null => assert Write(v, rest)[4..] == rest;
    case Bool(flag) => ReadsFlag(flag, rest);
    case Num(lexeme) =>
      assert Write(v, rest)[0] == lexeme[0];
      ReadsNumber(lexeme, rest);
    case Str(text) =>
      ReadsString(text, rest);
      assert Quote(text, rest)[1..] == Escape(text, "\"" + rest);
    case Arr(items) => ReadsArray(items, rest);
    case Obj(members) => ReadsObject(members, rest);
  }

  lemma ReadsFlag(flag: bool, rest: string)
    ensures ReadValue(Write(Bool(flag), rest)) == Some((Bool(flag), rest))
  {
    var t := Write(Bool(flag), rest);
    assert t[if flag then 4 else 5..] == rest;
    assert t[0] == if flag then 't' else 'f';
  }

  /** Brackets and braces tell an array and an object from every other value. */
  lemma ReadsBrackets(t: string)
    requires t != [] && (t[0] == '[' || t[0] == '{')
    ensures "[]" <= t ==> ReadValue(t) == Some((Arr([]), t[2..]))
    ensures "{}" <= t ==> ReadValue(t) == Some((Obj([]), t[2..]))
    ensures t[0] == '[' && !("[]" <= t) && ReadItems(t[1..]).Some? ==>
      ReadValue(t) == Some((Arr(ReadItems(t[1..]).value.0), ReadItems(t[1..]).value.1))
    ensures t[0] == '{' && !("{}" <= t) && ReadMembers(t[1..]).Some? ==>
      ReadValue(t) == Some((Obj(ReadMembers(t[1..]).value.0), ReadMembers(t[1..]).value.1))
  {}

  lemma {:induction false} ReadsArray(items: seq<Json>, rest: string)
    requires forall i :: 0 <= i < |items| ==> Valid(items[i])
    ensures ReadValue(Write(Arr(items), rest)) == Some((Arr(items), rest))
    decreases items, 2
  {
    var t := Write(Arr(items), rest);
    var inner := WriteItems(items, "]" + rest, false);
    assert t == "[" + inner && t[0] == '[' && t[1..] == inner;
    ReadsBrackets(t);
    if items == [] {
      assert "[]" <= t && t[2..] == rest;
    } else {
      StartsValue(items[0], WriteItems(items[1..], "]" + rest, true));
      assert t[1] == inner[0];
      ReadsItems(items, rest);
    }
  }

  lemma StartsValue(v: Json, rest: string)
    requires Valid(v)
    ensures Write(v, rest) != [] && Write(v, rest)[0] != ']'
  {}

  lemma {:induction false} ReadsItems(items: seq<Json>, rest: string)
    requires items != [] && forall i :: 0 <= i < |items| ==> Valid(items[i])
    ensures ReadItems(WriteItems(items, "]" + rest, false)) == Some((items, rest))
    decreases items, 0
  {
    var tail := WriteItems(items[1..], "]" + rest, true);
    ReadUndoesWrite(items[0], tail);
    if |items| == 1 {
      assert tail == "]" + rest && tail[1..] == rest && items == [items[0]];
    } else {
      assert tail == "," + WriteItems(items[1..], "]" + rest, false);
      assert tail[1..] == WriteItems(items[1..], "]" + rest, false);
      ReadsItems(items[1..], rest);
      assert items == [items[0]] + items[1..];
    }
  }

  lemma {:induction false} ReadsObject(members: seq<Member>, rest: string)
    requires forall i :: 0 <= i < |members| ==> Valid(members[i].value)
    ensures ReadValue(Write(Obj(members), rest)) == Some((Obj(members), rest))
    decreases members, 2
  {
    var t := Write(Obj(members), rest);
    var inner := WriteMembers(members, "}" + rest, false);
    assert t == "{" + inner && t[0] == '{' && t[1..] == inner;
    ReadsBrackets(t);
    if members == [] {
      assert "{}" <= t && t[2..] == rest;
    } else {
      assert t[1] == inner[0] == '\"';
      ReadsMembers(members, rest);
    }
  }

  lemma ReadsKey(key: string, value: string)
    ensures var t := Quote(key, ":" + value);
      && t != [] && t[0] == '\"' && ReadString(t[1..]) == Some((key, ":" + value))
      && (":" + value)[0] == ':' && (":" + value)[1..] == value
  {
    ReadsString(key, ":" + value);
    assert Quote(key, ":" + value)[1..] == Escape(key, "\"" + (":" + value));
  }

  lemma {:induction false} ReadsMembers(members: seq<Member>, rest: string)
    requires members != [] && forall i :: 0 <= i < |members| ==> Valid(members[i].value)
    ensures ReadMembers(WriteMembers(members, "}" + rest, false)) == Some((members, rest))
    decreases members, 0
  {
    var tail := WriteMembers(members[1..], "}" + rest, true);
    ReadUndoesWrite(members[0].value, tail);
    MembersAfter(members, rest);
    if |members| > 1 {
      ReadsMembers(members[1..], rest);
      assert members == [members[0]] + members[1..];
    }
    ReadsMember(members[0], tail);
  }

  /** A member is read, and then what follows it. */
  lemma ReadsMember(m: Member, tail: string)
    requires ReadValue(Write(m.value, tail)) == Some((m.value, tail)) && tail != []
    ensures var all := ReadMembers(Quote(m.key, ":" + Write(m.value, tail)));
      var more := ReadMembers(tail[1..]);
      && (tail[0] == '}' ==> all == Some(([m], tail[1..])))
      && (tail[0] == ',' && more.Some? ==> all == Some(([m] + more.value.0, more.value.1)))
  {
    ReadsKey(m.key, Write(m.value, tail));
  }

  lemma MembersAfter(members: seq<Member>, rest: string)
    requires members != []
    ensures var tail := WriteMembers(members[1..], "}" + rest, true);
      if |members| == 1 then tail == "}" + rest && tail[1..] == rest && members == [members[0]]
      else tail[0] == ',' && tail[1..] == WriteMembers(members[1..], "}" + rest, false)
  {}

  /** So a text, up to where its value ends, has one reading. */
  lemma WriteIsUnique(a: Json, b: Json, r: string, s: string)
    requires Valid(a) && Valid(b) && Ends(r) && Ends(s)
    requires Write(a, r) == Write(b, s)
    ensures a == b && r == s
  {
    ReadUndoesWrite(a, r);
    ReadUndoesWrite(b, s);
  }

  // ---------- Digests ----------

  /** `JSON.stringify(canonical(value))`. */
  function Serialize(v: Json): string {
    Write(Canonical(v), [])
  }

  /** In a canonical copy, names that are numbers come first and in their order, and then the others in text order. */
  lemma CanonicalOrder(members: seq<Member>, i: nat, j: nat)
    requires NoRepeats(Keys(members)) && i < j < |Canonical(Obj(members)).members|
    ensures var a, b := Canonical(Obj(members)).members[i].key, Canonical(Obj(members)).members[j].key;
      if IsIndex(a) && IsIndex(b) then Value(a) < Value(b) else IsIndex(a) || (!IsIndex(b) && Less(a, b))
  {
    var keys := Sort(ByOwnKey, Keys(members));
    CanonicalKeys(members);
    SortIsStrict(ByOwnKey, Keys(members));
    assert Keys(Canonical(Obj(members)).members)[i] == keys[i];
    assert Keys(Canonical(Obj(members)).members)[j] == keys[j];
    OwnKeyOrder(keys[i], keys[j]);
  }

  /** Two values have one serialised text exactly when they are equal up to the order of object members. */
  lemma SerializeIsFaithful(a: Json, b: Json)
    requires Valid(a) && Valid(b)
    ensures Serialize(a) == Serialize(b) <==> Meaning(a) == Meaning(b)
  {
    CanonicalKeepsMeaning(a);
    CanonicalKeepsMeaning(b);
    if Serialize(a) == Serialize(b) {
      WriteIsUnique(Canonical(a), Canonical(b), [], []);
    }
    if Meaning(a) == Meaning(b) {
      MeaningFixesCanonical(a, b);
    }
  }

  /** SHA-256 with its output as text, taken to have no collisions. */
  type Hash = string -> string

  ghost predicate CollisionFree(hash: Hash) {
    forall a, b :: hash(a) == hash(b) ==> a == b
  }

  function HashPlan(hash: Hash, v: Json): string {
    hash(Serialize(v))
  }

  /** Digests of canonical values compare the values by meaning. */
  lemma DigestIsFaithful(hash: Hash, a: Json, b: Json)
    requires CollisionFree(hash) && Valid(a) && Valid(b)
    ensures HashPlan(hash, a) == HashPlan(hash, b) <==> Meaning(a) == Meaning(b)
  {
    SerializeIsFaithful(a, b);
  }
}
