/** The founding counter is the number of logged CREATE events before the close of the window. */
module Founding {
  import opened Primitives
  import opened Types
  import opened Reducer
  import opened EventLog
  import opened LocalInvariant
  import opened Ledger
  import opened Lineage
  import opened FaithfulRuns

  /** CREATE events between two heights. */
  function Opened(log: seq<Event>, from: nat, until: nat): nat {
    if |log| == 0 then 0
    else
      var e := log[|log| - 1];
      Opened(log[..|log| - 1], from, until) + if Opens(e) && from <= e.height < until then 1 else 0
  }

  /** Every CREATE of the log is stored under its key with its height. */
  ghost predicate OpenedStored(v: View, log: seq<Event>) {
    forall i :: 0 <= i < |log| && Opens(log[i]) ==>
      log[i].objectKey in v.objects && v.objects[log[i].objectKey].createHeight == log[i].height
  }

  lemma FoundingUpdate(objects: map<Hash32, ObjectState>, k: Hash32, o: ObjectState)
    ensures k in objects && o.founding == objects[k].founding ==> FoundingKeys(objects[k := o]) == FoundingKeys(objects)
    ensures k !in objects ==> |FoundingKeys(objects[k := o])| == |FoundingKeys(objects)| + if o.founding then 1 else 0
  {
    if k in objects && o.founding == objects[k].founding {
      assert FoundingKeys(objects[k := o]) == FoundingKeys(objects);
    }
    if k !in objects {
      assert FoundingKeys(objects[k := o]) == FoundingKeys(objects) + if o.founding then {k} else {};
    }
  }

  /** One event moves the founding count by one exactly when it creates inside the window. */
  lemma StepFounds(phase: Phase, v: View, log: seq<Event>, e: Event)
    requires TailsMatch(v, log) && (Touches(e) ==> Follows(Tail(log, e.objectKey), e))
    ensures var v' := Interpret(phase, v, e);
            |FoundingKeys(v'.objects)| ==
            |FoundingKeys(v.objects)| + if Opens(e) && phase.hOpen <= e.height < phase.hClose then 1 else 0
    ensures var v' := Interpret(phase, v, e);
            forall k :: k in v.objects ==> k in v'.objects && v'.objects[k].createHeight == v.objects[k].createHeight
    ensures Opens(e) ==> var v' := Interpret(phase, v, e);
              e.objectKey in v'.objects && v'.objects[e.objectKey].createHeight == e.height
  {
    hide FoundingKeys, Tail, Matches;
    var v', k := Interpret(phase, v, e), e.objectKey;
    if k in v'.objects && v'.objects != v.objects {
      assert v'.objects == v.objects[k := v'.objects[k]];
      FoundingUpdate(v.objects, k, v'.objects[k]);
    }
  }

  lemma NothingFounded(log: seq<Event>)
    requires |log| == 0
    ensures FoundingKeys(map[]) == {} && OpenedStored(View(map[], map[]), log)
  {
  }

  lemma StoredGrows(v: View, v': View, init: seq<Event>, e: Event)
    requires OpenedStored(v, init)
    requires forall k :: k in v.objects ==> k in v'.objects && v'.objects[k].createHeight == v.objects[k].createHeight
    requires Opens(e) ==> e.objectKey in v'.objects && v'.objects[e.objectKey].createHeight == e.height
    ensures OpenedStored(v', init + [e])
  {
    hide Opens;
  }

  lemma {:induction false} LogFounds(phase: Phase, log: seq<Event>)
    requires Linear(log)
    ensures var v := InterpretAll(phase, View(map[], map[]), log);
            |FoundingKeys(v.objects)| == Opened(log, phase.hOpen, phase.hClose) && OpenedStored(v, log)
    decreases |log|
  {
    hide Interpret, FoundingKeys, Follows, TailsMatch, ChaptersFit, OpenedStored, Tail;
    if |log| == 0 {
      NothingFounded(log);
    } else {
      var init, e := log[..|log| - 1], log[|log| - 1];
      LogFounds(phase, init);
      LinearLogView(phase, init);
      var v := InterpretAll(phase, View(map[], map[]), init);
      StepFounds(phase, v, init, e);
      StoredGrows(v, Interpret(phase, v, e), init, e);
      assert init + [e] == log;
    }
  }

  lemma {:induction false} NoneBefore(log: seq<Event>, from: nat, until: nat)
    requires forall i :: 0 <= i < |log| && Opens(log[i]) ==> log[i].height >= from
    ensures Opened(log, from, until) == Opened(log, 0, until)
    decreases |log|
  {
    if |log| > 0 { NoneBefore(log[..|log| - 1], from, until); }
  }

  /** In every state of a faithful run, `founding_created` is the number of logged CREATE events below `h_close`. */
  lemma FoundingCountsEvents(c: Crypto, binding: Binding, blocks: seq<BlockView>)
    requires GoodRun(c, binding, blocks) && Replay(c, binding, blocks).value.protocolStatus.Running?
    ensures var st := Replay(c, binding, blocks).value;
            CountersOf(st.objects).foundingCreated == Opened(Log(c, binding, blocks), 0, st.protocolStatus.hClose)
  {
    hide Replay, Log, Interpret, FoundingKeys, Linear, LedgerInv, HeightsMatch;
    RunHoldsInvariant(c, binding, blocks);
    var st, log := Replay(c, binding, blocks).value, Log(c, binding, blocks);
    LogFounds(PhaseOf(st.protocolStatus), log);
    forall i | 0 <= i < |log| && Opens(log[i]) ensures log[i].height >= st.protocolStatus.hOpen {
      assert ObjectOk(c, st.binding, st.protocolStatus, st.objects[log[i].objectKey]);
    }
    NoneBefore(log, st.protocolStatus.hOpen, st.protocolStatus.hClose);
  }
}
