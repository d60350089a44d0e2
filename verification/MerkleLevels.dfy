/** The CLI's check of a reported list of Merkle levels, against the vectors the `merkle` loop goes through. */
module MerkleLevels {
  import opened Primitives
  import opened Types
  import opened Roots

  /** Each level is followed by its pair hashes, and the last level starts with the expected root. */
  ghost predicate Accepted(c: Crypto, domain: Bytes, levels: seq<seq<Hash32>>, expected: Hash32) {
    && |levels| > 0
    && (forall i :: 0 <= i < |levels| - 1 ==> levels[i + 1] == NextLevel(c, domain, levels[i]))
    && |levels[|levels| - 1]| > 0 && levels[|levels| - 1][0] == expected
  }

  datatype LevelError =
    | EmptyLevelList | WidthMismatch(level: nat) | ParentMismatch(level: nat, index: nat)
    | EmptyRootLevel | RootMismatch

  /** `parents` is what hashing consecutive pairs of `children` gives. */
  method VerifyLevel(c: Crypto, domain: Bytes, children0: seq<Hash32>, parents: seq<Hash32>, level: nat)
    returns (r: Result<(), LevelError>)
    ensures r.Ok? <==> parents == NextLevel(c, domain, children0)
  {
    hide NextLevel, NodeHash;
    var children := children0;
    if |children| % 2 == 1 { children := children + [children[|children| - 1]]; }
    PaddingIsSelfPairing(c, domain, children0);
    if |parents| != |children| / 2 { return Err(WidthMismatch(level)); }
    var index := 0;
    while index < |children| / 2
      invariant 0 <= index <= |children| / 2
      invariant forall j :: 0 <= j < index ==> parents[j] == NextLevel(c, domain, children)[j]
    {
      NextLevelAt(c, domain, children, index);
      if NodeHash(c, domain, children[2 * index], children[2 * index + 1]) != parents[index] {
        return Err(ParentMismatch(level, index));
      }
      index := index + 1;
    }
    r := Ok(());
  }

  method VerifyMerkleLevels(c: Crypto, levels: seq<seq<Hash32>>, domain: Bytes, expected: Hash32)
    returns (r: Result<Hash32, LevelError>)
    ensures r.Ok? <==> Accepted(c, domain, levels, expected)
    ensures r.Ok? ==> r.value == expected
  {
    if |levels| == 0 { return Err(EmptyLevelList); }
    var i := 0;
    while i < |levels| - 1
      invariant 0 <= i <= |levels| - 1
      invariant forall j :: 0 <= j < i ==> levels[j + 1] == NextLevel(c, domain, levels[j])
    {
      var pair := VerifyLevel(c, domain, levels[i], levels[i + 1], i);
      if pair.Err? { return Err(pair.error); }
      i := i + 1;
    }
    var last := levels[|levels| - 1];
    if |last| == 0 { return Err(EmptyRootLevel); }
    if last[0] != expected { return Err(RootMismatch); }
    r := Ok(last[0]);
  }

  /** The successive vectors of the `merkle` loop. */
  function LoopLevels(c: Crypto, domain: Bytes, level: seq<Hash32>): (r: seq<seq<Hash32>>)
    ensures |r| > 0 && r[0] == level
    decreases |level|
  {
    if |level| <= 1 then [level] else [level] + LoopLevels(c, domain, NextLevel(c, domain, level))
  }

  /** The last level has width one and no earlier level has. */
  predicate OnlyLastIsSingle(levels: seq<seq<Hash32>>) {
    |levels| > 0 && |levels[|levels| - 1]| == 1 && forall i :: 0 <= i < |levels| - 1 ==> |levels[i]| != 1
  }

  lemma {:induction false} LoopLevelsShape(c: Crypto, domain: Bytes, level: seq<Hash32>)
    requires |level| > 0
    ensures OnlyLastIsSingle(LoopLevels(c, domain, level))
    ensures Accepted(c, domain, LoopLevels(c, domain, level), MerkleRoot(c, domain, level))
    decreases |level|
  {
    if |level| > 1 {
      var next := NextLevel(c, domain, level);
      LoopLevelsShape(c, domain, next);
      var rest, all := LoopLevels(c, domain, next), LoopLevels(c, domain, level);
      assert all[1..] == rest;
      forall i | 0 <= i < |all| - 1 ensures all[i + 1] == NextLevel(c, domain, all[i]) && |all[i]| != 1 {
        if i > 0 { assert all[i] == rest[i - 1] && all[i + 1] == rest[i]; }
      }
    }
  }

  lemma {:induction false} AcceptedIsLoop(c: Crypto, domain: Bytes, levels: seq<seq<Hash32>>, expected: Hash32)
    requires Accepted(c, domain, levels, expected) && OnlyLastIsSingle(levels)
    ensures |levels[0]| > 0 && levels == LoopLevels(c, domain, levels[0]) &&
            expected == MerkleRoot(c, domain, levels[0])
    decreases |levels|
  {
    if |levels| > 1 {
      var rest := levels[1..];
      assert forall i :: 0 <= i < |rest| ==> rest[i] == levels[i + 1];
      AcceptedIsLoop(c, domain, rest, expected);
      assert levels[1] == NextLevel(c, domain, levels[0]);
      assert levels == [levels[0]] + rest;
    }
  }

  /** Whatever is accepted is the loop's run to its root exactly when only the last level has width one. */
  lemma CheckerAgreesWithLoop(c: Crypto, domain: Bytes, levels: seq<seq<Hash32>>, expected: Hash32)
    ensures (Accepted(c, domain, levels, expected) && OnlyLastIsSingle(levels)) <==>
            (|levels| > 0 && |levels[0]| > 0 && levels == LoopLevels(c, domain, levels[0]) &&
             expected == MerkleRoot(c, domain, levels[0]))
  {
    if Accepted(c, domain, levels, expected) && OnlyLastIsSingle(levels) {
      AcceptedIsLoop(c, domain, levels, expected);
    }
    if |levels| > 0 && |levels[0]| > 0 && levels == LoopLevels(c, domain, levels[0]) {
      LoopLevelsShape(c, domain, levels[0]);
    }
  }

  /** Without that width condition the checker accepts lists the loop never produces: a wide last level, and a single
      leaf hashed once more. */
  lemma WidthConditionIsNeeded(c: Crypto, domain: Bytes, x: Hash32, y: Hash32)
    ensures Accepted(c, domain, [[x, y]], x) && [[x, y]] != LoopLevels(c, domain, [x, y])
    ensures Accepted(c, domain, [[x], [NodeHash(c, domain, x, x)]], NodeHash(c, domain, x, x))
    ensures [[x], [NodeHash(c, domain, x, x)]] != LoopLevels(c, domain, [x])
  {
    assert |LoopLevels(c, domain, [x, y])| > 1;
    assert |LoopLevels(c, domain, [x])| == 1;
  }
}
