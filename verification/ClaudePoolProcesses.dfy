/** The pool of processes: which handle serves a conversation, and what happens to one that is removed. */
module ClaudePoolProcesses {
  import opened Wrappers
  import opened ClaudePool
  import opened ClaudePoolInvariant
  import opened ClaudePoolCalls

  type ConversationKey = string

  class CliProcessPool {
    var processes: map<ConversationKey, ProcessHandle>

    /** Every conversation has a handle of its own, and no caller is inside `interrupt` while the pool is changed. */
    ghost predicate Valid()
      reads this, processes.Values
    {
      && (forall k <- processes :: processes[k].pooled && processes[k].book.askers == map[])
      && (forall k <- processes, l <- processes :: k != l ==> processes[k] != processes[l])
    }

    constructor ()
      ensures Valid() && processes == map[]
    {
      processes := map[];
    }

    /** The handle of a conversation is removed, which is the `Drop` step, and no other is touched. */
    method Kill(key: ConversationKey)
      requires Valid()
      modifies this, processes.Values
      ensures Valid() && processes == old(processes) - {key}
      ensures key in old(processes) ==>
                var handle := old(processes)[key];
                handle.View() == OwnerStep(old(handle.View()), Drop) && !handle.pooled
      ensures forall k <- processes :: unchanged(processes[k])
    {
      if key in processes {
        var handle := processes[key];
        handle.Release();
        processes := processes - {key};
      }
    }

    /** Whether the conversation has a handle whose tasks have not been told to stop. */
    predicate IsAlive(key: ConversationKey)
      reads this, processes.Values
    {
      key in processes && !processes[key].cancelled
    }

    /** A handle that is not alive is removed, and replaced by a fresh one if a process can be started. */
    method Ensure(key: ConversationKey, spawned: bool) returns (ready: bool)
      requires Valid()
      modifies this, processes.Values
      ensures Valid() && (ready <==> old(IsAlive(key)) || spawned)
      ensures old(IsAlive(key)) ==>
                processes == old(processes) && processes[key].View() == old(processes[key].View())
      ensures !old(IsAlive(key)) && key in old(processes) ==>
                var handle := old(processes)[key];
                handle.View() == OwnerStep(old(handle.View()), Drop)
      ensures !old(IsAlive(key)) && spawned ==>
                && key in processes && processes == old(processes)[key := processes[key]]
                && fresh(processes[key]) && processes[key].View() == INITIAL
      ensures !ready ==> processes == old(processes) - {key}
      ensures forall k <- processes :: k != key ==> k in old(processes) && unchanged(processes[k])
    {
      if !IsAlive(key) {
        Kill(key);
        if !spawned {
          return false;
        }
        var handle := new ProcessHandle();
        processes := processes[key := handle];
      }
      return true;
    }

    /**
     A turn is begun on the conversation's handle if that is alive.  One that is not is removed, and the turn begins
     on a fresh handle, unless no process can be started.
     */
    method BeginTurn(key: ConversationKey, spawned: bool) returns (r: Option<Result<Turn, Refusal>>)
      requires Valid()
      modifies this, processes.Values
      ensures Valid()
      ensures old(IsAlive(key)) ==>
                && processes == old(processes) && processes[key].View() == Begun(old(processes[key].View()))
      ensures !old(IsAlive(key)) && key in old(processes) ==>
                var handle := old(processes)[key];
                handle.View() == OwnerStep(old(handle.View()), Drop)
      ensures !old(IsAlive(key)) && spawned ==>
                && key in processes && processes == old(processes)[key := processes[key]]
                && fresh(processes[key]) && processes[key].View() == Begun(INITIAL)
      ensures r == None <==> !old(IsAlive(key)) && !spawned
      ensures r == None ==> processes == old(processes) - {key}
      ensures r.Some? && r.value.Ok? ==> r.value.value == processes[key].generation
      ensures old(IsAlive(key)) ==>
                && r.Some? && (r.value.Ok? <==> old(processes[key].active) == 0 && old(processes[key].stdinOpen))
                && (r.value == Err(StillActive) <==> old(processes[key].active) != 0)
      ensures !old(IsAlive(key)) && spawned ==> r == Some(Ok(1))
      ensures forall k <- processes :: k != key ==> k in old(processes) && unchanged(processes[k])
    {
      var ready := Ensure(key, spawned);
      if !ready {
        return None;
      }
      var begun := processes[key].BeginTurn();
      return Some(begun);
    }
  }
}
