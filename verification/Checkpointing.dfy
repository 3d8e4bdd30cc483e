/** mesh/recovery/checkpoint.py: the table of last checkpoints, one per task. */
module Checkpointing {
  import opened Models

  type Checkpoints = map<TaskId, Checkpoint>

  function Saved(cps: Checkpoints, t: Task, data: map<string, int>, now: real): Checkpoints {
    cps[t.id := Checkpoint(t.progress, data, now)]
  }

  function Restored(cps: Checkpoints, t: Task): Task {
    if t.id in cps then t.(progress := cps[t.id].progress, stateData := cps[t.id].stateData) else t
  }

  /**
   * What a task that moves has kept: its progress and state are those of its checkpoint if it has one, else its own;
   * apart from them only its node and its task state may differ.
   */
  ghost predicate Resumed(cps: Checkpoints, t: Task, r: Task) {
    && (t.id in cps ==> r.progress == cps[t.id].progress && r.stateData == cps[t.id].stateData)
    && (t.id !in cps ==> r.progress == t.progress && r.stateData == t.stateData)
    && r == t.(progress := r.progress, stateData := r.stateData, state := r.state, node := r.node)
  }

  /** Saves made one after the other: the task, its user state and the time of each. */
  function SavedAll(cps: Checkpoints, saves: seq<(Task, map<string, int>, real)>): Checkpoints
    decreases |saves|
  {
    if |saves| == 0 then cps
    else SavedAll(Saved(cps, saves[0].0, saves[0].1, saves[0].2), saves[1..])
  }

  lemma {:induction false} SavedAllSplit(cps: Checkpoints, a: seq<(Task, map<string, int>, real)>,
                                         b: seq<(Task, map<string, int>, real)>)
    ensures SavedAll(cps, a + b) == SavedAll(SavedAll(cps, a), b)
    decreases |a|
  {
    if |a| == 0 {
      assert a + b == b;
    } else {
      SavedAllSplit(Saved(cps, a[0].0, a[0].1, a[0].2), a[1..], b);
      assert (a + b)[1..] == a[1..] + b;
    }
  }

  lemma {:induction false} OthersKeep(cps: Checkpoints, saves: seq<(Task, map<string, int>, real)>, id: TaskId)
    requires forall k :: 0 <= k < |saves| ==> saves[k].0.id != id
    ensures id in SavedAll(cps, saves) <==> id in cps
    ensures id in cps ==> SavedAll(cps, saves)[id] == cps[id]
    decreases |saves|
  {
    if |saves| > 0 {
      OthersKeep(Saved(cps, saves[0].0, saves[0].1, saves[0].2), saves[1..], id);
    }
  }

  /**
   * Round trip: whatever was saved before, and for other tasks afterwards, restoring a task gives the progress and
   * the user state of the last save under its id, and leaves the rest of the task alone.
   */
  lemma {:induction false} RestoreFindsLastSave(cps: Checkpoints, saves: seq<(Task, map<string, int>, real)>, k: nat,
                                                u: Task)
    requires k < |saves| && saves[k].0.id == u.id
    requires forall j :: k < j < |saves| ==> saves[j].0.id != u.id
    ensures var r := Restored(SavedAll(cps, saves), u);
            && r.progress == saves[k].0.progress && r.stateData == saves[k].1
            && r == u.(progress := r.progress, stateData := r.stateData)
    ensures u.id in SavedAll(cps, saves) && SavedAll(cps, saves)[u.id].timestamp == saves[k].2
  {
    var before, last, later := saves[..k], saves[k], saves[k + 1..];
    assert saves == before + ([last] + later);
    SavedAllSplit(cps, before, [last] + later);
    var mid := SavedAll(cps, before);
    assert ([last] + later)[1..] == later;
    OthersKeep(Saved(mid, last.0, last.1, last.2), later, u.id);
  }

  /** Restoring a task that was never saved changes nothing. */
  lemma {:induction false} NothingToRestore(saves: seq<(Task, map<string, int>, real)>, u: Task)
    requires forall j :: 0 <= j < |saves| ==> saves[j].0.id != u.id
    ensures Restored(SavedAll(map[], saves), u) == u
  {
    OthersKeep(map[], saves, u.id);
  }

  class CheckpointManager {
    var table: Checkpoints

    constructor ()
      ensures table == map[]
    {
      table := map[];
    }

    method Save(task: TaskSpec, data: map<string, int>, now: real)
      modifies this
      ensures table == Saved(old(table), task.View(), data, now)
      ensures task.id in table && table[task.id] == Checkpoint(task.progress, data, now)
      ensures forall id :: id != task.id ==>
        (id in table <==> id in old(table)) && (id in table ==> table[id] == old(table)[id])
    {
      table := table[task.id := Checkpoint(task.progress, data, now)];
    }

    method Restore(task: TaskSpec)
      modifies task
      ensures task.View() == Restored(table, old(task.View()))
      ensures task.id in table ==>
        task.progress == table[task.id].progress && task.stateData == table[task.id].stateData
      ensures task.id !in table ==> task.View() == old(task.View())
    {
      if task.id in table {
        task.progress := table[task.id].progress;
        task.stateData := table[task.id].stateData;
      }
    }
  }
}
