/**
  The NUL-framed output of `git diff --raw -z` and its parser
  (scripts/change-plan-git.mjs): printing and parsing undo each other.
 */
module RawDiff {
  import opened Options
  import opened Text
  import opened Decimals

  const NUL: char := '\0'

  /** One change; an absent side has neither path nor mode. */
  datatype Change = Change(status: char, oldPath: Option<string>, newPath: Option<string>,
                           oldMode: Option<string>, newMode: Option<string>)

  /** What a record carries besides the change: two object ids and a similarity score. */
  datatype Meta = Meta(oldOid: string, newOid: string, score: string)

  // ---------- Splitting and joining ----------

  /** `text.split(sep)`: always at least one piece. */
  function Split(sep: char, s: string): (parts: seq<string>)
    ensures parts != []
  {
    if s == [] then [""]
    else
      var rest := Split(sep, s[1..]);
      if s[0] == sep then [""] + rest else [[s[0]] + rest[0]] + rest[1..]
  }

  function Join(sep: char, parts: seq<string>): string {
    if parts == [] then "" else if |parts| == 1 then parts[0] else parts[0] + [sep] + Join(sep, parts[1..])
  }

  predicate Free(sep: char, parts: seq<string>) {
    forall i :: 0 <= i < |parts| ==> sep !in parts[i]
  }

  lemma {:induction false} SplitThenJoin(sep: char, s: string)
    ensures Free(sep, Split(sep, s)) && Join(sep, Split(sep, s)) == s
  {
    if s != [] {
      SplitThenJoin(sep, s[1..]);
      var rest, all := Split(sep, s[1..]), Split(sep, s);
      assert all[1..] == if s[0] == sep then rest else rest[1..];
      assert s == [s[0]] + s[1..];
    }
  }

  lemma {:induction false} SplitWord(sep: char, word: string, tail: string)
    requires sep !in word
    ensures Split(sep, word + [sep] + tail) == [word] + Split(sep, tail)
    ensures Split(sep, word) == [word]
    decreases |word|
  {
    if word == [] {
      assert (word + [sep] + tail)[1..] == tail;
    } else {
      SplitWord(sep, word[1..], tail);
      var all := word + [sep] + tail;
      assert all[1..] == word[1..] + [sep] + tail;
      assert word == [word[0]] + word[1..];
    }
  }

  lemma {:induction false} JoinThenSplit(sep: char, parts: seq<string>)
    requires parts != [] && Free(sep, parts)
    ensures Split(sep, Join(sep, parts)) == parts
    decreases |parts|
  {
    if |parts| == 1 {
      SplitWord(sep, parts[0], "");
    } else {
      JoinThenSplit(sep, parts[1..]);
      SplitWord(sep, parts[0], Join(sep, parts[1..]));
      assert parts == [parts[0]] + parts[1..];
    }
  }

  /** Every part followed by a NUL. */
  function Frame(parts: seq<string>): string {
    if parts == [] then "" else Join(NUL, parts) + [NUL]
  }

  /** `fields`: the parts of a NUL-terminated text, or a failure when the last terminator is missing. */
  function Fields(text: string): Option<seq<string>> {
    if text == [] then Some([])
    else if text[|text| - 1] != NUL then None
    else Some(Split(NUL, text[..|text| - 1]))
  }

  lemma FieldsUndoFrame(text: string, parts: seq<string>)
    ensures Fields(text) == Some(parts) <==> Free(NUL, parts) && text == Frame(parts)
  {
    if text != [] && text[|text| - 1] == NUL {
      SplitThenJoin(NUL, text[..|text| - 1]);
      assert text == text[..|text| - 1] + [NUL];
    }
    if parts != [] && Free(NUL, parts) {
      JoinThenSplit(NUL, parts);
      assert Frame(parts)[..|Frame(parts)| - 1] == Join(NUL, parts);
    }
  }

  // ---------- Headers ----------

  predicate HexChar(c: char) {
    Digit(c) || 'a' <= c <= 'f'
  }

  predicate IsHex(s: string) {
    s != [] && forall i :: 0 <= i < |s| ==> HexChar(s[i])
  }

  predicate IsMode(s: string) {
    |s| == 6 && AllDigits(s)
  }

  predicate IsScore(s: string) {
    s == "100" || (AllDigits(s) && (1 <= |s| <= 2 || (|s| == 3 && s[0] == '0')))
  }

  /** A score is a number up to 100 in one to three digits. */
  lemma ScoresArePercentages(s: string)
    ensures IsScore(s) <==> 1 <= |s| <= 3 && AllDigits(s) && Value(s) <= 100
  {
    if 1 <= |s| <= 3 && AllDigits(s) {
      ShortValue(s);
    }
  }

  lemma ShortValue(s: string)
    requires AllDigits(s) && 1 <= |s| <= 3
    ensures |s| <= 2 ==> Value(s) <= 99
    ensures |s| == 3 ==>
      Value(s) == 100 * (s[0] as int - '0' as int) + 10 * (s[1] as int - '0' as int) + (s[2] as int - '0' as int)
  {
    var n := |s| - 1;
    if n > 0 {
      ShortValue(s[..n]);
      assert s[..n][..n - 1] == s[..n - 1];
      if n == 2 {
        assert s[..1][..0] == [] && s[..2][..1] == s[..1];
        assert Value(s[..1]) == s[0] as int - '0' as int;
        assert Value(s[..2]) == 10 * Value(s[..1]) + (s[1] as int - '0' as int);
      } else {
        assert s[..1][..0] == [];
      }
    } else {
      assert s[..0] == [];
    }
  }

  predicate TwoPaths(status: char) {
    status == 'R' || status == 'C'
  }

  predicate IsCode(code: string) {
    code != [] && if TwoPaths(code[0]) then IsScore(code[1..]) else |code| == 1 && code[0] in "AMDT"
  }

  /** The captured groups of a record header, in order: modes, object ids, status code. */
  predicate HeaderWords(words: seq<string>) {
    |words| == 5 && IsMode(words[0]) && IsMode(words[1]) && IsHex(words[2]) && IsHex(words[3]) && IsCode(words[4])
  }

  function ParseHeader(s: string): Option<seq<string>> {
    if s == [] || s[0] != ':' then None
    else
      var words := Split(' ', s[1..]);
      if HeaderWords(words) then Some(words) else None
  }

  lemma HeaderIsUnique(s: string, words: seq<string>)
    ensures ParseHeader(s) == Some(words) <==> HeaderWords(words) && s == ":" + Join(' ', words)
  {
    if s != [] && s[0] == ':' {
      SplitThenJoin(' ', s[1..]);
      assert s == ":" + s[1..];
    }
    if HeaderWords(words) {
      HeaderWordsHaveNoSpace(words);
      JoinThenSplit(' ', words);
      assert (":" + Join(' ', words))[1..] == Join(' ', words);
    }
  }

  lemma HeaderWordsHaveNoSpace(words: seq<string>)
    requires HeaderWords(words)
    ensures Free(' ', words) && Free(NUL, words)
  {
    forall i | 0 <= i < |words[4]| ensures words[4][i] != ' ' && words[4][i] != NUL {
      if i > 0 {
        assert words[4][i] == words[4][1..][i - 1];
      }
    }
  }

  lemma {:induction false} JoinFree(sep: char, other: char, parts: seq<string>)
    requires sep != other && Free(other, parts)
    ensures other !in Join(sep, parts)
  {
    if |parts| > 1 {
      JoinFree(sep, other, parts[1..]);
    }
  }

  // ---------- Records ----------

  function ModeText(mode: Option<string>): string {
    if mode.None? then "000000" else mode.value
  }

  function ModeOf(text: string): Option<string> {
    if text == "000000" then None else Some(text)
  }

  function Code(change: Change, meta: Meta): string {
    [change.status] + if TwoPaths(change.status) then meta.score else ""
  }

  function Words(change: Change, meta: Meta): seq<string> {
    [ModeText(change.oldMode), ModeText(change.newMode), meta.oldOid, meta.newOid, Code(change, meta)]
  }

  function Paths(change: Change): seq<string>
    requires IsChange(change)
  {
    if change.status == 'A' then [change.newPath.value]
    else if TwoPaths(change.status) then [change.oldPath.value, change.newPath.value]
    else [change.oldPath.value]
  }

  predicate IsPath(path: Option<string>) {
    path.Some? && path.value != [] && NUL !in path.value
  }

  /** Which changes git can report: `A` and `D` have one side, `M` and `T` one path, `R` and `C` two. */
  predicate IsChange(c: Change) {
    && (c.oldMode.Some? ==> IsMode(c.oldMode.value) && c.oldMode.value != "000000")
    && (c.newMode.Some? ==> IsMode(c.newMode.value) && c.newMode.value != "000000")
    && match c.status
       case 'A' => c.oldPath.None? && IsPath(c.newPath)
       case 'D' => IsPath(c.oldPath) && c.newPath.None?
       case 'M' => IsPath(c.oldPath) && c.newPath == c.oldPath
       case 'T' => IsPath(c.oldPath) && c.newPath == c.oldPath
       case 'R' => IsPath(c.oldPath) && IsPath(c.newPath)
       case 'C' => IsPath(c.oldPath) && IsPath(c.newPath)
       case _ => false
  }

  predicate IsMeta(meta: Meta) {
    IsHex(meta.oldOid) && IsHex(meta.newOid) && IsScore(meta.score)
  }

  function RecordParts(change: Change, meta: Meta): seq<string>
    requires IsChange(change)
  {
    [":" + Join(' ', Words(change, meta))] + Paths(change)
  }

  predicate AreChanges(changes: seq<Change>) {
    forall i :: 0 <= i < |changes| ==> IsChange(changes[i])
  }

  predicate AreMetas(metas: seq<Meta>) {
    forall i :: 0 <= i < |metas| ==> IsMeta(metas[i])
  }

  function PrintParts(changes: seq<Change>, metas: seq<Meta>): seq<string>
    requires AreChanges(changes) && |metas| == |changes|
  {
    if changes == [] then [] else RecordParts(changes[0], metas[0]) + PrintParts(changes[1..], metas[1..])
  }

  /** The text git prints for these changes. */
  function Print(changes: seq<Change>, metas: seq<Meta>): string
    requires AreChanges(changes) && |metas| == |changes|
  {
    Frame(PrintParts(changes, metas))
  }

  // ---------- Parsing ----------

  /** The change at the front of `parts` and how many parts it takes. */
  function ParseRecord(parts: seq<string>): (r: Option<(Change, nat)>)
    requires parts != []
    ensures r.Some? ==> 0 < r.value.1 <= |parts|
  {
    var words := ParseHeader(parts[0]);
    if words.None? then None
    else
      var status := words.value[4][0];
      var first := if |parts| > 1 then parts[1] else "";
      var second := if !TwoPaths(status) then first else if |parts| > 2 then parts[2] else "";
      if first == "" || second == "" then None
      else
        Some((Change(status, if status == 'A' then None else Some(first), if status == 'D' then None else Some(second),
                     ModeOf(words.value[0]), ModeOf(words.value[1])),
              if TwoPaths(status) then 3 else 2))
  }

  function ParseParts(parts: seq<string>): Option<seq<Change>> {
    if parts == [] then Some([])
    else
      var record := ParseRecord(parts);
      if record.None? then None
      else
        var rest := ParseParts(parts[record.value.1..]);
        if rest.None? then None else Some([record.value.0] + rest.value)
  }

  function Parse(text: string): Option<seq<Change>> {
    var parts := Fields(text);
    if parts.None? then None else ParseParts(parts.value)
  }

  /** What is read when these changes come before the reading of the parts. */
  function After(changes: seq<Change>, parts: seq<string>): Option<seq<Change>> {
    var rest := ParseParts(parts);
    if rest.None? then None else Some(changes + rest.value)
  }

  lemma NothingAfter(changes: seq<Change>, parts: seq<string>)
    ensures After([], parts) == ParseParts(parts) && After(changes, []) == Some(changes)
  {
    var rest := ParseParts(parts);
    assert rest.Some? ==> [] + rest.value == rest.value;
    assert changes + [] == changes;
  }

  lemma OneMoreRecord(changes: seq<Change>, parts: seq<string>, index: nat)
    requires index < |parts|
    ensures var record := ParseRecord(parts[index..]);
      After(changes, parts[index..]) ==
        if record.None? then None else After(changes + [record.value.0], parts[index + record.value.1..])
  {
    var record := ParseRecord(parts[index..]);
    if record.Some? {
      assert parts[index..][record.value.1..] == parts[index + record.value.1..];
      var rest := ParseParts(parts[index + record.value.1..]);
      assert rest.Some? ==> changes + ([record.value.0] + rest.value) == changes + [record.value.0] + rest.value;
    }
  }

  /** The loop of `parseRawChanges`, which advances an index through the parts. */
  method ParseRawChanges(text: string) returns (result: Option<seq<Change>>)
    ensures result == Parse(text)
  {
    var fields := Fields(text);
    if fields.None? { return None; }
    var parts, changes, index := fields.value, [], 0;
    NothingAfter(changes, parts);
    assert parts[0..] == parts;
    while index < |parts|
      invariant 0 <= index <= |parts| && After(changes, parts[index..]) == ParseParts(parts)
    {
      OneMoreRecord(changes, parts, index);
      var record := ParseRecord(parts[index..]);
      if record.None? { return None; }
      changes := changes + [record.value.0];
      index := index + record.value.1;
    }
    assert parts[index..] == [];
    NothingAfter(changes, parts);
    return Some(changes);
  }

  lemma RecordReads(change: Change, meta: Meta, tail: seq<string>)
    requires IsChange(change) && IsMeta(meta)
    ensures ParseRecord(RecordParts(change, meta) + tail) == Some((change, |RecordParts(change, meta)|))
    ensures Free(NUL, RecordParts(change, meta))
  {
    var words, parts := Words(change, meta), RecordParts(change, meta);
    assert Code(change, meta)[1..] == if TwoPaths(change.status) then meta.score else "";
    assert HeaderWords(words);
    HeaderIsUnique(parts[0], words);
    HeaderWordsHaveNoSpace(words);
    JoinFree(' ', NUL, words);
    assert (parts + tail)[0] == parts[0];
  }

  /** The header of a record with these words. */
  function Header(m: string, n: string, a: string, b: string, code: string): string {
    ":" + m + " " + n + " " + a + " " + b + " " + code
  }

  lemma HeaderJoins(m: string, n: string, a: string, b: string, code: string)
    ensures Header(m, n, a, b, code) == ":" + Join(' ', [m, n, a, b, code])
  {
    var words := [m, n, a, b, code];
    assert words[1..][1..][1..][1..] == [code] && words[1..][1..][1..] == [b, code];
    assert words[1..][1..] == [a, b, code] && words[1..] == [n, a, b, code];
    assert Join(' ', [b, code]) == b + " " + code;
    assert Join(' ', [a, b, code]) == a + " " + Join(' ', [b, code]);
    assert Join(' ', [n, a, b, code]) == n + " " + Join(' ', [a, b, code]);
  }

  /** A mode of zeros is no mode. */
  function SomeMode(m: string): Option<string> {
    if m == "000000" then None else Some(m)
  }

  /** A record with one path: the new one of an addition, the old one of a deletion, both of a change in place. */
  lemma OnePathIsRead(m: string, n: string, a: string, b: string, code: string, p: string, tail: seq<string>)
    requires IsMode(m) && IsMode(n) && IsHex(a) && IsHex(b) && p != [] && code in ["A", "D", "M", "T"]
    ensures ParseRecord([Header(m, n, a, b, code), p] + tail) ==
      Some((Change(code[0], if code == "A" then None else Some(p), if code == "D" then None else Some(p), SomeMode(m),
                   SomeMode(n)), 2))
  {
    var header, parts := Header(m, n, a, b, code), [Header(m, n, a, b, code), p] + tail;
    HeaderJoins(m, n, a, b, code);
    HeaderIsUnique(header, [m, n, a, b, code]);
    assert parts[0] == header && parts[1] == p;
  }

  /** A rename or a copy has the old path first and the new one after it. */
  lemma TwoPathsAreRead(m: string, n: string, a: string, b: string, code: string, p: string, q: string,
                        tail: seq<string>)
    requires IsMode(m) && IsMode(n) && IsHex(a) && IsHex(b) && p != [] && q != []
    requires code != [] && code[0] in "RC" && IsScore(code[1..])
    ensures ParseRecord([Header(m, n, a, b, code), p, q] + tail) ==
      Some((Change(code[0], Some(p), Some(q), SomeMode(m), SomeMode(n)), 3))
  {
    var header, parts := Header(m, n, a, b, code), [Header(m, n, a, b, code), p, q] + tail;
    HeaderJoins(m, n, a, b, code);
    HeaderIsUnique(header, [m, n, a, b, code]);
    assert parts[0] == header && parts[1] == p && parts[2] == q;
  }

  lemma RecordIsPrinted(parts: seq<string>) returns (meta: Meta)
    requires parts != [] && Free(NUL, parts) && ParseRecord(parts).Some?
    ensures var (change, n) := ParseRecord(parts).value;
      IsChange(change) && IsMeta(meta) && RecordParts(change, meta) == parts[..n]
  {
    var words := ParseHeader(parts[0]).value;
    HeaderIsUnique(parts[0], words);
    var (change, n) := ParseRecord(parts).value;
    meta := Meta(words[2], words[3], if TwoPaths(change.status) then words[4][1..] else "0");
    assert words[4] == [change.status] + words[4][1..];
    assert Words(change, meta) == words;
    assert AllDigits("0");
    assert RecordParts(change, meta) == parts[..n];
  }

  /** Parsing the print of any changes, with any object ids and scores, gives the changes back. */
  lemma {:induction false} PartsRoundTrip(changes: seq<Change>, metas: seq<Meta>)
    requires AreChanges(changes) && AreMetas(metas) && |metas| == |changes|
    ensures ParseParts(PrintParts(changes, metas)) == Some(changes)
    ensures Free(NUL, PrintParts(changes, metas))
    decreases |changes|
  {
    if changes != [] {
      var tail := PrintParts(changes[1..], metas[1..]);
      RecordReads(changes[0], metas[0], tail);
      PartsRoundTrip(changes[1..], metas[1..]);
      var head := RecordParts(changes[0], metas[0]);
      assert (head + tail)[|head|..] == tail;
      assert changes == [changes[0]] + changes[1..];
    }
  }

  lemma ParseUndoesPrint(changes: seq<Change>, metas: seq<Meta>)
    requires AreChanges(changes) && AreMetas(metas) && |metas| == |changes|
    ensures Parse(Print(changes, metas)) == Some(changes)
  {
    PartsRoundTrip(changes, metas);
    FieldsUndoFrame(Print(changes, metas), PrintParts(changes, metas));
  }

  lemma PrintOneMore(change: Change, meta: Meta, changes: seq<Change>, metas: seq<Meta>)
    requires IsChange(change) && AreChanges(changes) && |metas| == |changes|
    ensures AreChanges([change] + changes)
    ensures PrintParts([change] + changes, [meta] + metas) == RecordParts(change, meta) + PrintParts(changes, metas)
  {
    assert ([change] + changes)[1..] == changes && ([meta] + metas)[1..] == metas;
  }

  lemma {:induction false} PartsArePrinted(parts: seq<string>) returns (metas: seq<Meta>)
    requires Free(NUL, parts) && ParseParts(parts).Some?
    ensures var changes := ParseParts(parts).value;
      && AreChanges(changes) && AreMetas(metas) && |metas| == |changes|
      && PrintParts(changes, metas) == parts
    decreases |parts|
  {
    if parts == [] {
      metas := [];
    } else {
      var meta := RecordIsPrinted(parts);
      var (change, n) := ParseRecord(parts).value;
      assert Free(NUL, parts[n..]);
      var rest := PartsArePrinted(parts[n..]);
      metas := [meta] + rest;
      PrintOneMore(change, meta, ParseParts(parts[n..]).value, rest);
      assert parts == parts[..n] + parts[n..];
    }
  }

  /** Every accepted text is the print of what it was parsed to. */
  lemma PrintUndoesParse(text: string)
    requires Parse(text).Some?
    ensures var changes := Parse(text).value;
      AreChanges(changes) && exists metas :: |metas| == |changes| && AreMetas(metas) && Print(changes, metas) == text
  {
    var parts := Fields(text).value;
    FieldsUndoFrame(text, parts);
    var metas := PartsArePrinted(parts);
  }
}
