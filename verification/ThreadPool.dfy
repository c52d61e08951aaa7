/**
 The pool object of vserver/Threadpool.cc. A wait on a condition variable cuts
 `getTask` and `addTask` into sections: each method below is what one thread does
 from taking the lock to releasing it, and refines one step of the monitor.
 */
module ThreadPools {
  import opened Common
  import opened PoolMonitor

  class ThreadPool {
    var running: bool
    const maxWaits: nat
    const numThreads: nat
    var tasks: seq<Task>
    ghost const threads: set<Tid>
    ghost var workers: map<Tid, Worker>
    ghost var producers: map<Tid, Producer>
    ghost var accepted: seq<Task>
    ghost var taken: seq<Task>

    ghost function View(): State
      reads this
    {
      State(running, maxWaits, tasks, workers, producers, accepted, taken)
    }

    ghost predicate Valid()
      reads this
    {
      Inv(View()) && workers.Keys == threads && numThreads == |threads|
    }

    /** A started pool; the bound is fixed from here on. */
    constructor (maxWaits: nat, numThreads: nat, ghost ids: set<Tid>)
      requires |ids| == numThreads
      ensures Valid() && View() == Init(maxWaits, ids)
    {
      running, this.maxWaits, this.numThreads, threads, tasks := true, maxWaits, numThreads, ids, [];
      workers, producers, accepted, taken := Init(maxWaits, ids).workers, map[], [], [];
      new;
      InitInv(maxWaits, ids);
    }

    predicate Full()
      reads this
      ensures Full() == IsFull(View())
    {
      maxWaits > 0 && |tasks| >= maxWaits
    }

    /**
     One pass of worker w through `getTask`, on entry or after a wait. The signal
     to the producers wakes `wake`, which only has to respect what a signal can do.
     */
    method GetTask(ghost w: Tid, ghost wake: Option<Tid>) returns (waits: bool, task: Option<Task>)
      requires Valid() && w in workers && workers[w] in {Entering, Woken}
      requires tasks != [] && maxWaits > 0 ==> Wakes(wake, Stuck(producers))
      modifies this`tasks, this`workers, this`producers, this`taken
      ensures Valid() && Next(View()) == Get(old(View()), w, wake)
      ensures waits <==> old(tasks) == [] && running
      ensures task == if old(tasks) == [] then None else Some(old(tasks)[0])
      ensures tasks == if old(tasks) == [] then [] else old(tasks)[1..]
      ensures workers == old(workers)[w := if waits then Waiting else if task.Some? then Busy(task.value) else Looping]
      ensures forall p | p in producers :: p in old(producers) && producers[p] ==
                if task.Some? && maxWaits > 0 && wake == Some(p) then Roused(old(producers)[p].task) else old(producers)[p]
    {
      GetKeeps(View(), w, wake);
      hide Inv;
      waits, task := false, None;
      if tasks == [] && running {
        waits := true;
        workers := workers[w := Waiting];
        return;
      }
      ghost var now := Looping;
      if tasks != [] {
        task := Some(tasks[0]);
        now := Busy(tasks[0]);
        taken := taken + [tasks[0]];
        tasks := tasks[1..];
        if maxWaits > 0 {
          producers := SignalProducer(View(), wake).producers;
        }
      }
      workers := workers[w := now];
    }

    /**
     One pass of producer p through `addTask`, on entry or after a wait. In a pool without
     threads the caller runs the task itself, whatever the state of the queue.
     */
    method AddTask(ghost p: Tid, task: Task, ghost wake: Option<Tid>) returns (waits: bool, ranHere: Option<Task>)
      requires Valid() && (p in producers ==> producers[p] == Roused(task))
      requires running && !IsFull(View()) ==> Wakes(wake, Sleeping(workers))
      modifies this`tasks, this`workers, this`producers, this`accepted
      ensures Valid()
      ensures if numThreads == 0 then View() == old(View()) && ranHere == Some(task) && !waits
              else Next(View()) == Put(old(View()), p, task, wake) && ranHere == None
      ensures waits <==> numThreads > 0 && old(Full()) && running
      ensures tasks == if numThreads > 0 && running && !waits then old(tasks) + [task] else old(tasks)
      ensures producers == if numThreads == 0 then old(producers)
                           else if waits then old(producers)[p := Blocked(task)]
                           else old(producers) - {p}
      ensures forall w | w in workers :: w in old(workers) && workers[w] ==
                if numThreads > 0 && running && !waits && wake == Some(w) then Woken else old(workers)[w]
    {
      PutKeeps(View(), p, task, wake);
      hide Inv;
      waits, ranHere := false, None;
      if numThreads == 0 {
        ranHere := Some(task);
        return;
      }
      if Full() && running {
        waits := true;
        producers := producers[p := Blocked(task)];
        return;
      }
      producers := producers - {p};
      if running {
        tasks := tasks + [task];
        accepted := accepted + [task];
        workers := SignalWorker(View(), wake).workers;
      }
    }

    /** The test in front of each turn of the loop in `run`: on while the flag is up, out of the loop otherwise. */
    method TestRunning(ghost w: Tid) returns (goesOn: bool)
      requires Valid() && w in workers && workers[w] == Looping
      modifies this`workers
      ensures Valid() && Next(View()) == Step(old(View()), Test(w))
      ensures goesOn == running
      ensures workers == old(workers)[w := if goesOn then Entering else Exited]
    {
      StepKeeps(View(), Test(w));
      goesOn := running;
      workers := workers[w := if running then Entering else Exited];
    }

    /** The locked half of `stop`: drop the flag and broadcast on both conditions. */
    method Stop()
      requires Valid()
      modifies this`running, this`workers, this`producers
      ensures Valid() && Next(View()) == Step(old(View()), PoolMonitor.Stop)
      ensures Sleeping(workers) == {} && Stuck(producers) == {} && !running
      ensures forall w | w in workers :: w in old(workers) && workers[w] == if old(workers)[w] == Waiting then Woken else old(workers)[w]
      ensures forall p | p in producers :: p in old(producers) && producers[p] == Roused(old(producers)[p].task)
    {
      StepKeeps(View(), PoolMonitor.Stop);
      running := false;
      workers := WakeAllWorkers(workers);
      producers := WakeAllProducers(producers);
    }
  }
}
