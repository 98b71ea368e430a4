/**
 The workflow store behind its mutex: the methods of src/workflow.rs that change
 it in place, each proved equal to the step the theorems are about.
 */
module WorkflowStore {
  import opened Wrappers
  import opened WorkflowEngine
  import Obs = ObservationLog
  import Waits = ObservationWaits

  datatype CancelError = NotFound | StillRunning

  predicate Visible(record: Record, caller: Uuid) {
    record.definition.lifetime == Obs.Persistent || record.owner == caller
  }

  ghost predicate Seen(s: State, id: Uuid, caller: Uuid) { id in s.records && Visible(s.records[id], caller) }

  /** A workflow of a connection is nobody else's business; a persistent one is everybody's. */
  lemma WhoSees(s: State, id: Uuid, caller: Uuid)
    ensures Seen(s, id, caller) <==>
              id in s.records && (s.records[id].owner == caller || s.records[id].definition.lifetime == Obs.Persistent)
  {}

  class Store {
    var records: map<Uuid, Record>
    var cancellations: set<Uuid>
    var retired: set<Uuid>
    var broken: bool
    /** Tasks, signals, connections and the checkpoint: what the store is used by. */
    ghost var outside: State

    ghost function View(): State
      reads this
    {
      outside.(records := records, handles := cancellations, retired := retired, broken := broken)
    }

    /** Where a name stands in a log, or its length. */
    static method Position(steps: seq<StepResult>, name: string) returns (i: nat)
      ensures i == Find(steps, name)
    {
      i := 0;
      while i < |steps| && steps[i].name != name
        invariant i <= |steps|
        invariant Find(steps, name) == i + Find(steps[i..], name)
      {
        assert steps[i..][1..] == steps[i + 1..];
        i := i + 1;
      }
    }

    method PutStep(id: Uuid, r: StepResult)
      modifies this`records
      ensures View() == WorkflowEngine.PutStep(old(View()), id, r)
    {
      if id in records {
        var record := records[id];
        var i := Position(record.steps, r.name);
        if i < |record.steps| {
          records := records[id := record.(steps := record.steps[i := r])];
        } else {
          records := records[id := record.(steps := record.steps + [r])];
        }
      }
    }

    /** Store a result over its marker; refused when the state has no room or the marker is gone. */
    method PutResult(id: Uuid, r: StepResult, fits: bool) returns (ok: bool)
      modifies this`records
      ensures ok <==> fits && id in old(records) && Find(old(records)[id].steps, r.name) < |old(records)[id].steps|
      ensures View() == if ok then WorkflowEngine.PutStep(old(View()), id, r) else old(View())
    {
      if !fits || id !in records {
        return false;
      }
      var record := records[id];
      var i := Position(record.steps, r.name);
      if i == |record.steps| {
        return false;
      }
      records := records[id := record.(steps := record.steps[i := r])];
      return true;
    }

    /** The end of a task, whatever has become of its record. */
    method Finish(id: Uuid, outcome: Outcome)
      modifies this`records, this`cancellations, this`retired
      ensures View() == Closed(old(View()), id, outcome)
    {
      if id in records && records[id].outcome == Waits.Running {
        var failed := records[id].definition.lifetime == Obs.Persistent && broken;
        records := records[id := records[id].(outcome := if failed then Waits.Outcome.Failed else outcome)];
      }
      assert id in old(records) ==> old(records)[id := old(records)[id]] == old(records);
      cancellations := cancellations - {id};
      if id in retired {
        retired := retired - {id};
        records := records - {id};
      } else {
        assert retired - {id} == retired;
      }
    }

    /** Ask a workflow to stop, and forget it if it has ended; a running one is asked all the same. */
    method Cancel(id: Uuid, caller: Uuid, forget: bool) returns (r: Result<Record, CancelError>)
      modifies this`records, this`outside
      ensures match r
              case Err(NotFound) => !Seen(old(View()), id, caller) && View() == old(View())
              case Err(StillRunning) =>
                forget && Seen(old(View()), id, caller) && View() == CancelRequested(old(View()), id)
                && id in records && records[id].outcome == Waits.Running
              case Ok(record) =>
                && Seen(old(View()), id, caller)
                && var asked := CancelRequested(old(View()), id);
                   && id in asked.records && record == asked.records[id]
                   && (forget ==> record.outcome != Waits.Running)
                   && View() == if forget then Forgotten(asked, id) else asked
    {
      if id !in records || !Visible(records[id], caller) {
        return Err(NotFound);
      }
      if id in cancellations {
        outside := outside.(canceled := outside.canceled + {id});
      }
      var record := records[id];
      if record.outcome == Waits.Running {
        record := record.(cancellationRequested := true);
        records := records[id := record];
      }
      assert {id} * cancellations == if id in cancellations then {id} else {};
      if forget {
        if record.outcome == Waits.Running {
          return Err(StillRunning);
        }
        records := records - {id};
      }
      return Ok(record);
    }

    /** Close a connection: running workflows are canceled and retired, finished ones removed. */
    method ShutdownConnection(owner: Uuid)
      modifies this
      ensures View() == Swept(old(View()), owner)
    {
      var owned := set id | id in records && OwnedBy(records[id], owner);
      var todo := owned;
      while todo != {}
        invariant todo <= owned && cancellations == old(cancellations) && broken == old(broken)
        invariant outside == old(outside).(canceled := outside.canceled)
        invariant outside.canceled == old(outside.canceled) + ((owned - todo) * cancellations)
        invariant retired == old(retired) + ((owned - todo) * cancellations)
        invariant records == old(records) - ((owned - todo) - cancellations)
        decreases todo
      {
        var id :| id in todo;
        if id in cancellations {
          outside := outside.(canceled := outside.canceled + {id});
          retired := retired + {id};
        } else {
          records := records - {id};
        }
        todo := todo - {id};
        assert owned - (todo + {id}) + {id} == owned - todo;
      }
      assert owned - {} == owned;
      outside := outside.(swept := outside.swept + {owner});
    }
  }

  datatype Saved = Saved(id: Uuid, record: Record)

  ghost function SavedMap(saved: seq<Saved>): map<Uuid, Record> {
    if saved == [] then map[] else SavedMap(saved[..|saved| - 1])[saved[|saved| - 1].id := saved[|saved| - 1].record]
  }

  /** Every running step becomes a failure that may have completed. */
  method RecoverSteps(steps: seq<StepResult>) returns (r: seq<StepResult>)
    ensures r == seq(|steps|, i requires 0 <= i < |steps| => InterruptedStep(steps[i]))
  {
    r := [];
    for k := 0 to |steps|
      invariant |r| == k && forall i | 0 <= i < k :: r[i] == InterruptedStep(steps[i])
    {
      var step := steps[k];
      if step.outcome == Waits.Running {
        step := step.(outcome := Waits.Outcome.Failed, mayHaveCompleted := true);
      }
      r := r + [step];
    }
  }

  /** Loading a checkpoint: rejected when too large or not persistent, otherwise every record is recovered. */
  method Restore(saved: seq<Saved>, fits: bool) returns (ok: bool, records: map<Uuid, Record>)
    ensures ok <==> |saved| <= MAX_WORKFLOWS && fits
                    && forall i | 0 <= i < |saved| :: saved[i].record.definition.lifetime == Obs.Persistent
    ensures ok ==> records == RecoveredAll(SavedMap(saved))
  {
    records := map[];
    if |saved| > MAX_WORKFLOWS || !fits {
      return false, records;
    }
    for k := 0 to |saved|
      invariant forall i | 0 <= i < k :: saved[i].record.definition.lifetime == Obs.Persistent
      invariant records == RecoveredAll(SavedMap(saved[..k]))
    {
      var record := saved[k].record;
      if record.definition.lifetime != Obs.Persistent {
        return false, records;
      }
      if record.outcome == Waits.Running {
        var steps := RecoverSteps(record.steps);
        record := record.(outcome := Waits.Outcome.Failed, steps := steps);
      }
      assert record == Recovered(saved[k].record);
      assert saved[..k + 1][..k] == saved[..k];
      records := records[saved[k].id := record];
      assert records == RecoveredAll(SavedMap(saved[..k + 1]));
    }
    assert saved[..|saved|] == saved;
    return true, records;
  }
}
