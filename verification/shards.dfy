/**
  Round-robin shards (scripts/test-shards.mjs, scripts/macos-measurement.mjs):
  any number of shards splits any list without loss or overlap.
 */
module Shards {
  import opened Options
  import opened Text

  datatype Shard = Shard(part: nat, count: nat)

  predicate IsShard(shard: Shard) {
    1 <= shard.part <= shard.count
  }

  /** The files at positions `i` with `i % count == part - 1`, in order. */
  function Pick(files: seq<string>, shard: Shard): seq<string>
    requires IsShard(shard)
  {
    if files == [] then []
    else
      var n := |files| - 1;
      Pick(files[..n], shard) + if n % shard.count == shard.part - 1 then [files[n]] else []
  }

  /** `shardFiles`: an empty shard is refused. */
  function ShardFiles(files: seq<string>, shard: Option<Shard>): Option<seq<string>>
    requires shard.Some? ==> IsShard(shard.value)
  {
    if shard.None? then Some(files)
    else if Pick(files, shard.value) == [] then None
    else Some(Pick(files, shard.value))
  }

  predicate InShard(files: seq<string>, shard: Shard, i: nat) {
    i < |files| && shard.count > 0 && i % shard.count == shard.part - 1
  }

  lemma {:induction false} PickMembers(files: seq<string>, shard: Shard)
    requires IsShard(shard)
    ensures forall x :: x in Pick(files, shard) <==> exists i: nat :: InShard(files, shard, i) && files[i] == x
  {
    if files != [] {
      var n := |files| - 1;
      var before := files[..n];
      PickMembers(before, shard);
      forall x ensures x in Pick(files, shard) <==> exists i: nat :: InShard(files, shard, i) && files[i] == x {
        if x in Pick(before, shard) {
          var i: nat :| InShard(before, shard, i) && before[i] == x;
          assert InShard(files, shard, i) && files[i] == x;
        }
        if n % shard.count == shard.part - 1 && x == files[n] {
          assert InShard(files, shard, n);
        }
        forall i: nat | InShard(files, shard, i) && files[i] == x ensures x in Pick(files, shard) {
          if i < n {
            assert InShard(before, shard, i) && before[i] == x;
          }
        }
      }
    }
  }

  lemma {:induction false} PickIsStrict(files: seq<string>, shard: Shard)
    requires IsShard(shard) && Strict(ByText, files)
    ensures Strict(ByText, Pick(files, shard))
  {
    if files != [] {
      var n := |files| - 1;
      PickIsStrict(files[..n], shard);
      PickMembers(files[..n], shard);
      forall x | x in Pick(files[..n], shard) ensures Before(ByText, x, files[n]) {
        var i: nat :| InShard(files[..n], shard, i) && files[..n][i] == x;
        assert files[i] == x;
      }
      var head := Pick(files[..n], shard);
      assert forall i :: 0 <= i < |head| ==> head[i] in head;
    }
  }

  predicate PickedBy(files: seq<string>, count: nat, x: string, part: int) {
    1 <= part <= count && x in Pick(files, Shard(part, count))
  }

  /** Every file falls into exactly one of the shards. */
  lemma ExactlyOneShard(files: seq<string>, count: nat, x: string)
    requires count > 0 && NoRepeats(files) && x in files
    ensures exists part :: PickedBy(files, count, x, part)
    ensures forall p, q :: PickedBy(files, count, x, p) && PickedBy(files, count, x, q) ==> p == q
  {
    var i: nat :| i < |files| && files[i] == x;
    var home := Shard(i % count + 1, count);
    PickMembers(files, home);
    assert InShard(files, home, i);
    assert PickedBy(files, count, x, home.part);
    forall p | PickedBy(files, count, x, p) ensures p == home.part {
      PickMembers(files, Shard(p, count));
      var j: nat :| InShard(files, Shard(p, count), j) && files[j] == x;
    }
  }

  lemma {:induction false} TwoShardsAreAll(files: seq<string>)
    ensures multiset(Pick(files, Shard(1, 2))) + multiset(Pick(files, Shard(2, 2))) == multiset(files)
  {
    if files != [] {
      var n := |files| - 1;
      TwoShardsAreAll(files[..n]);
      assert files == files[..n] + [files[n]];
    }
  }

  /** A validated shard record lists, up to order, exactly the files of its shard. */
  predicate ExactMembership(listed: seq<string>, selected: seq<string>) {
    Sort(ByText, listed) == selected
  }

  /** `aggregateMeasurements`: the check for disjoint and exhaustive shards cannot fail on validated records. */
  lemma DisjointExhaustive(discovery: seq<string>, first: seq<string>, second: seq<string>)
    requires Strict(ByText, discovery)
    requires ExactMembership(first, Pick(discovery, Shard(1, 2)))
    requires ExactMembership(second, Pick(discovery, Shard(2, 2)))
    ensures NoRepeats(first + second) && Sort(ByText, first + second) == discovery
  {
    SortSorts(ByText, first);
    SortSorts(ByText, second);
    TwoShardsAreAll(discovery);
    assert multiset(first + second) == multiset(discovery);
    SortsTo(ByText, first + second, discovery);
    StrictHasNoRepeats(ByText, discovery);
    NoRepeatsIsMultiset(discovery);
    NoRepeatsIsMultiset(first + second);
  }
}
