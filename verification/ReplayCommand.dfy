/** The offline `replay` command: reduce a list of blocks from the fresh state and compare each root tuple. */
module ReplayCommand {
  import opened Primitives
  import opened Types
  import opened Reducer
  import opened LiveState
  import opened PathIndependence

  datatype Report = Report(heights: seq<HeightRoots>, eventCounts: seq<nat>, finalState: ChainState)

  datatype ReplayError = ReductionFailed(index: nat, error: ReducerError) | RootMismatch(height: u64) | LengthDiffers

  function RootsOf(journal: seq<BlockDelta>): (r: seq<HeightRoots>)
    ensures |r| == |journal|
  {
    seq(|journal|, i requires 0 <= i < |journal| => journal[i].roots)
  }

  function CountsOf(journal: seq<BlockDelta>): (r: seq<nat>)
    ensures |r| == |journal|
  {
    seq(|journal|, i requires 0 <= i < |journal| => |journal[i].events|)
  }

  /** The command succeeds exactly when the blocks replay and every expected tuple, if any is given, is the clean one.
      */
  method ReplayBlocks(c: Crypto, binding: Binding, blocks: seq<BlockView>, expected: seq<HeightRoots>)
    returns (r: Result<Report, ReplayError>)
    requires Fitted(blocks)
    ensures r.Ok? <==> Replay(c, binding, blocks).Some? &&
                       (expected == [] || expected == RootsOf(Journal(c, binding, blocks)))
    ensures r.Ok? ==> Replay(c, binding, blocks).Some? && r.value.finalState == Replay(c, binding, blocks).value &&
                      r.value.heights == RootsOf(Journal(c, binding, blocks)) &&
                      r.value.eventCounts == CountsOf(Journal(c, binding, blocks))
  {
    hide Reducer.ApplyBlock, Journal, Replay, BlockFits;
    var live := new LiveChain(NewState(c, binding));
    var heights, eventCounts, i := [], [], 0;
    FreshReplay(c, binding);
    assert blocks[..0] == [];
    while i < |blocks|
      invariant i <= |blocks| && Bounded(live.Value())
      invariant Replay(c, binding, blocks[..i]) == Some(live.Value())
      invariant heights == RootsOf(Journal(c, binding, blocks[..i]))
      invariant eventCounts == CountsOf(Journal(c, binding, blocks[..i]))
      invariant forall j :: 0 <= j < i && j < |expected| ==> heights[j] == expected[j]
    {
      var block := blocks[i];
      var reduced := live.ApplyBlock(c, block);
      if reduced.Err? {
        StopsReplay(c, binding, blocks, i);
        return Err(ReductionFailed(i, reduced.error));
      }
      var delta := reduced.value;
      JournalExtends(c, binding, blocks[..i], block);
      assert blocks[..i] + [block] == blocks[..i + 1];
      if i < |expected| && delta.roots != expected[i] {
        if Replay(c, binding, blocks).Some? { RootAt(c, binding, blocks, i); }
        return Err(RootMismatch(block.height));
      }
      eventCounts := eventCounts + [|delta.events|];
      heights := heights + [delta.roots];
      i := i + 1;
    }
    assert blocks[..i] == blocks;
    if expected != [] && |expected| != |heights| { return Err(LengthDiffers); }
    r := Ok(Report(heights, eventCounts, live.Value()));
  }

  lemma FreshReplay(c: Crypto, binding: Binding)
    ensures Replay(c, binding, []) == Some(NewState(c, binding)) && Journal(c, binding, []) == []
  {
  }

  lemma {:induction false} StopsReplay(c: Crypto, binding: Binding, blocks: seq<BlockView>, i: nat)
    requires Fitted(blocks) && i < |blocks| && Replay(c, binding, blocks[..i]).Some?
    requires ApplyBlock(c, Replay(c, binding, blocks[..i]).value, blocks[i]).Err?
    ensures Replay(c, binding, blocks).None?
    decreases |blocks|
  {
    hide ApplyBlock;
    var init := blocks[..|blocks| - 1];
    if i < |init| {
      assert init[..i] == blocks[..i];
      StopsReplay(c, binding, init, i);
    }
  }

  lemma RootAt(c: Crypto, binding: Binding, blocks: seq<BlockView>, i: nat)
    requires Fitted(blocks) && Replay(c, binding, blocks).Some? && i < |blocks|
    ensures Replay(c, binding, blocks[..i]).Some? && Replay(c, binding, blocks[..i + 1]).Some?
    ensures Journal(c, binding, blocks)[i] == Journal(c, binding, blocks[..i + 1])[i]
  {
    hide ApplyBlock;
    JournalAt(c, binding, blocks, i);
    JournalAt(c, binding, blocks[..i + 1], i);
    assert blocks[..i + 1][..i] == blocks[..i];
  }
}
