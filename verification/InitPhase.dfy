/** The lifecycle an INIT block leaves, on the bytes of the configured INIT transaction. */
module InitPhase {
  import opened Primitives
  import opened Types
  import opened Marker
  import opened Validators
  import opened Roots
  import opened Reducer
  import opened MarkerSelection
  import opened Rules
  import opened EventContents
  import opened PathIndependence
  import opened FinalStates

  /** The first transaction of the block with the configured txid. */
  ghost predicate IsConfiguredInit(binding: Binding, block: BlockView, i: nat) {
    i < |block.transactions| && block.transactions[i].txid == binding.initTxid &&
    forall j :: 0 <= j < i ==> block.transactions[j].txid != binding.initTxid
  }

  /** The phase heights stand, little-endian, at bytes 7 to 11 and 11 to 15 of the payload printed in output 0. */
  ghost predicate PhaseWritten(tx: TxView, payload: Bytes, hOpen: u32, hClose: u32) {
    Carries(tx, payload) && |payload| == 59 && payload[6] == 0 && payload[7..11] == LE(hOpen, 4) &&
    payload[11..15] == LE(hClose, 4)
  }

  /** What one INIT block makes of the lifecycle: it runs with exactly the written heights iff the configured INIT
      breaks no rule, and otherwise has failed with the least rule broken. */
  ghost predicate Enters(c: Crypto, binding: Binding, block: BlockView, tx: TxView, status: ProtocolStatus) {
    match status
    case AwaitingInit => false
    case Running(initHeight, hOpen, hClose) =>
      && initHeight == block.height && (forall r :: !BreaksConfiguredInit(c, binding, block.height, tx, r))
      && hClose == hOpen + 4_320 && initHeight + 1_008 <= hOpen
      && exists payload :: PhaseWritten(tx, payload, hOpen, hClose)
    case FailedInit(reason, initHeight) =>
      && initHeight == block.height && BreaksConfiguredInit(c, binding, block.height, tx, reason)
      && forall r :: BreaksConfiguredInit(c, binding, block.height, tx, r) ==> reason.Code() <= r.Code()
  }

  lemma ParamsAreRead(c: Crypto, binding: Binding, height: u64, tx: TxView)
    requires ValidateConfiguredInit(c, binding, height, tx).Ok?
    ensures var r := ValidateConfiguredInit(c, binding, height, tx).value;
            && |Candidates(tx, binding)| == 1 && Candidates(tx, binding)[0].Parse().Ok?
            && var marker := Candidates(tx, binding)[0].Parse().value;
               && marker.vout == 0 && marker.opcode == Some(InitOp)
               && r.hOpen == marker.U32At(7) && r.hClose == marker.U32At(11)
               && r.hClose == r.hOpen + 4_320 && height + 1_008 <= r.hOpen
  {
    hide Candidates, HasOtherOpReturn, MarkerCandidate.Parse, P2wpkhScript;
  }

  lemma PhaseIsWritten(c: Crypto, binding: Binding, height: u64, tx: TxView)
    requires ValidateConfiguredInit(c, binding, height, tx).Ok?
    ensures var r := ValidateConfiguredInit(c, binding, height, tx).value;
            exists payload :: PhaseWritten(tx, payload, r.hOpen, r.hClose)
  {
    hide ValidateConfiguredInit, Candidates, MarkerCandidate.Parse, Carries;
    ParamsAreRead(c, binding, height, tx);
    ParsedIsPrinted(tx, binding);
    var r := ValidateConfiguredInit(c, binding, height, tx).value;
    var marker := Candidates(tx, binding)[0].Parse().value;
    FieldBytes(marker, 7, r.hOpen);
    FieldBytes(marker, 11, r.hClose);
    assert PhaseWritten(tx, marker.payload, r.hOpen, r.hClose);
  }

  lemma InitEnters(c: Crypto, binding: Binding, block: BlockView, tx: TxView)
    ensures var r := ValidateConfiguredInit(c, binding, block.height, tx);
            Enters(c, binding, block, tx, if r.Ok? then Running(block.height, r.value.hOpen, r.value.hClose)
                                          else FailedInit(r.error, block.height))
  {
    hide ValidateConfiguredInit, Candidates, BreaksConfiguredInit, PhaseWritten;
    var r := ValidateConfiguredInit(c, binding, block.height, tx);
    InitReasonIsLeastBrokenRule(c, binding, block.height, tx);
    if r.Ok? {
      ParamsAreRead(c, binding, block.height, tx);
      PhaseIsWritten(c, binding, block.height, tx);
    }
  }

  /** A block applied while INIT is awaited contains the configured INIT and enters the lifecycle it asks for. */
  lemma InitBlockExact(c: Crypto, st: ChainState, block: BlockView) returns (i: nat)
    requires Bounded(st) && BlockFits(block) && ApplyBlock(c, st, block).Ok? && st.protocolStatus.AwaitingInit?
    ensures IsConfiguredInit(st.binding, block, i)
    ensures Enters(c, st.binding, block, block.transactions[i], ApplyBlock(c, st, block).value.state.protocolStatus)
  {
    hide ValidateConfiguredInit, ProcessPrefix, Enters, FailedInitEvent, EventRoot, ObjectStateRoot, ObjectsInOrder,
         BlockRoot;
    i := FindInit(block.transactions, st.binding.initTxid).value;
    InitEnters(c, st.binding, block, block.transactions[i]);
  }

  /** What a failed INIT block reports: one invalid event about the configured INIT under the deployment's namespace, at
      its first marker if it has any, with the attempted type only if that marker is the only one. */
  lemma FailedInitReports(c: Crypto, st: ChainState, block: BlockView, i: nat)
    requires Bounded(st) && BlockFits(block) && ApplyBlock(c, st, block).Ok? && st.protocolStatus.AwaitingInit?
    requires ApplyBlock(c, st, block).value.state.protocolStatus.FailedInit? && IsConfiguredInit(st.binding, block, i)
    ensures var a, tx := ApplyBlock(c, st, block).value, block.transactions[i];
            var markers := Candidates(tx, st.binding);
            && |a.delta.events| == 1
            && var e := a.delta.events[0];
               && e.validityClass == InvalidNoState && e.reason == a.state.protocolStatus.reason
               && e.txIndex == i && e.txid == tx.txid && e.namespace == st.binding.Namespace(c)
               && e.eventIndex == (if |markers| == 0 then 0xFFFF_FFFF else markers[0].vout)
               && e.eventType == (if |markers| == 1 then AttemptedEventType(markers[0]) else InvalidEvent)
               && a.state.objects == st.objects && a.state.active == st.active
  {
    hide ValidateConfiguredInit, ProcessPrefix, Candidates, AttemptedEventType, EventRoot, ObjectStateRoot,
         ObjectsInOrder, BlockRoot, MinVout;
    var found := FindInit(block.transactions, st.binding.initTxid).value;
    assert found == i;
    var markers := Candidates(block.transactions[i], st.binding);
    CandidatesExact(block.transactions[i], st.binding);
    if |markers| > 0 { MinVoutIsFirst(markers); } else { NoVout(markers); }
  }

  lemma NoVout(markers: seq<MarkerCandidate>)
    requires |markers| == 0
    ensures MinVout(markers) == 0xFFFF_FFFF
  {
  }

  /** The lifecycle of every run is the one its first block's INIT calls for. */
  lemma RunPhaseExact(c: Crypto, binding: Binding, blocks: seq<BlockView>) returns (i: nat)
    requires Fitted(blocks) && Replay(c, binding, blocks).Some? && |blocks| > 0
    ensures IsConfiguredInit(binding, blocks[0], i)
    ensures Enters(c, binding, blocks[0], blocks[0].transactions[i], Replay(c, binding, blocks).value.protocolStatus)
  {
    hide ApplyBlock, Enters, IsConfiguredInit;
    LifecycleIsFixed(c, binding, blocks);
    assert blocks[..1][..0] == [];
    assert Replay(c, binding, []) == Some(NewState(c, binding));
    i := InitBlockExact(c, NewState(c, binding), blocks[0]);
  }
}
