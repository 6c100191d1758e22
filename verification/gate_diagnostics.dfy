/**
  The closed schema between the test runner and the CI checker
  (scripts/gate-diagnostics.mjs): what of an event and of a file record is
  written, and what is dropped because it does not have the allowed form.
 */
module GateDiagnostics {
  import opened Options
  import opened Text
  import opened RawDiff
  import opened ChangeFacts
  import opened TestRun
  import opened Shards

  datatype Platform = Linux | Darwin | Win32 | AnotherPlatform

  datatype Scope = FullScope | DocsScope

  /** The identity every event repeats; a fact that is unknown or not well formed is absent. */
  datatype Stamp = Stamp(commit: Option<string>, tree: Option<string>, platform: Platform, node: Option<string>,
                         scope: Scope, planDigest: Option<string>, selectionDigest: Option<string>,
                         shard: Option<Shard>, concurrency: nat, realFsync: bool)

  predicate Sha256(s: string) {
    |s| == 64 && IsHex(s)
  }

  predicate Number(s: string) {
    s != [] && AllDigits(s)
  }

  /** `v` and three numbers with dots between them. */
  predicate PlainVersion(s: string) {
    s != [] && s[0] == 'v'
    && var parts := Split('.', s[1..]);
       |parts| == 3 && Number(parts[0]) && Number(parts[1]) && Number(parts[2])
  }

  predicate TagChar(c: char) {
    Digit(c) || 'a' <= c <= 'z' || 'A' <= c <= 'Z' || c == '.' || c == '-'
  }

  /** A version, with an optional tag after a dash. */
  predicate Version(s: string) {
    || PlainVersion(s)
    || exists i :: 0 <= i < |s| - 1 && s[i] == '-' && PlainVersion(s[..i]) && forall j :: i < j < |s| ==> TagChar(s[j])
  }

  function Keep(value: Option<string>, ok: bool): Option<string> {
    if ok then value else None
  }

  /** The fields of an identity that survive the validators. */
  function Clean(s: Stamp): Stamp {
    s.(commit := Keep(s.commit, s.commit.Some? && IsOid(s.commit.value)),
       tree := Keep(s.tree, s.tree.Some? && IsOid(s.tree.value)),
       node := Keep(s.node, s.node.Some? && Version(s.node.value)),
       planDigest := Keep(s.planDigest, s.planDigest.Some? && Sha256(s.planDigest.value)),
       selectionDigest := Keep(s.selectionDigest, s.selectionDigest.Some? && Sha256(s.selectionDigest.value)),
       shard := if s.shard.Some? && s.shard.value.part > 0 && s.shard.value.count > 0 then s.shard else None)
  }

  datatype OutEvent = OutEvent(stamp: Stamp, event: Event)

  datatype Counts = Counts(selected: nat, completed: Option<nat>, passed: Option<nat>, failed: Option<nat>)

  datatype Manifest = Manifest(events: seq<OutEvent>, files: seq<Rec>, decision: Option<Receipts.Decision>,
                               inputDigest: Option<string>, counts: Counts)

  /** A path from the root of a drive. */
  predicate Drive(s: string) {
    |s| > 2 && ('a' <= s[0] <= 'z' || 'A' <= s[0] <= 'Z') && s[1] == ':' && s[2] == '/'
  }

  predicate RelativeFile(s: string) {
    s != [] && '\\' !in s && !Drive(s) && forall i :: 0 <= i < |Split('/', s)| ==> Split('/', s)[i] !in ["", ".", ".."]
  }

  function Shown(records: seq<Rec>): seq<Rec> {
    if records == [] then []
    else
      var rest := Shown(records[..|records| - 1]);
      if RelativeFile(records[|records| - 1].file) then rest + [records[|records| - 1]] else rest
  }

  function Stamped(stamp: Stamp, events: seq<Event>): seq<OutEvent> {
    seq(|events|, i requires 0 <= i < |events| => OutEvent(Clean(stamp), events[i]))
  }

  function Successes(records: seq<Rec>): nat {
    if records == [] then 0
    else Successes(records[..|records| - 1]) + if records[|records| - 1].success then 1 else 0
  }

  /** What a run tells about receipts: its decision and the digest of its inputs. */
  datatype Gate = Gate(decision: Option<Receipts.Decision>, inputDigest: Option<string>)

  /** What the final block of a run writes. */
  function Diagnostic(stamp: Stamp, selected: nat, events: seq<Event>, records: seq<Rec>, complete: bool,
                      gate: Gate): Manifest
    requires Successes(records) <= |records|
  {
    Manifest(Stamped(stamp, events), Shown(records), gate.decision,
      Keep(gate.inputDigest, gate.inputDigest.Some? && Sha256(gate.inputDigest.value)),
      if complete then Counts(selected, Some(|records|), Some(Successes(records)), Some(|records| - Successes(records)))
      else Counts(selected, None, None, None))
  }

  lemma {:induction false} SuccessesBounded(records: seq<Rec>)
    ensures Successes(records) <= |records|
    ensures Successes(records) == |records| <==> forall i :: 0 <= i < |records| ==> records[i].success
  {
    if records != [] {
      SuccessesBounded(records[..|records| - 1]);
    }
  }

  /** Records are shown whole or not at all, so an unchanged number means an unchanged list. */
  lemma {:induction false} ShownAll(records: seq<Rec>)
    ensures |Shown(records)| <= |records|
    ensures |Shown(records)| == |records| ==> Shown(records) == records
    ensures (forall i :: 0 <= i < |records| ==> RelativeFile(records[i].file)) ==> Shown(records) == records
  {
    if records != [] {
      ShownAll(records[..|records| - 1]);
      assert records == records[..|records| - 1] + [records[|records| - 1]];
    }
  }
}
