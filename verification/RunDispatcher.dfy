// The dispatcher in its own form: an object whose maps and flags are updated in place.
// Each method is one region the source executes atomically and is proved to be the
// step of the transition system that the run theorems are about; Serve is the whole
// worker loop.

module RunDispatchers {
  import opened Sums
  import opened Dispatcher

  lemma Regroup(a: seq<Task>, b: seq<Task>, c: seq<Task>)
    ensures (a + b) + c == a + (b + c)
  {
  }

  class RunDispatcher {
    const queueSize: nat
    /** Which queue a run maps to, and the queues themselves, by identity. */
    var queues: map<string, nat>
    var heap: map<nat, Queue>
    var stopped: bool
    var done: bool
    ghost var workers: map<nat, Worker>
    ghost var accepted: map<string, seq<Task>>
    ghost var completed: map<string, seq<Task>>

    ghost function Model(): State
      reads this
    {
      State(queueSize, heap, queues, workers, stopped, done, accepted, completed)
    }

    /** Every queue a run or a worker refers to exists. */
    ghost predicate Valid()
      reads this
    {
      && (forall run :: run in queues ==> queues[run] in heap)
      && (forall w :: w in workers ==> workers[w].queue in heap)
    }

    /** w owns the queue that run maps to. */
    ghost predicate Serves(w: nat, run: string, queue: nat)
      reads this
    {
      w in workers && workers[w].run == run && workers[w].queue == queue && run in queues && queues[run] == queue
    }

    constructor (size: int)
      ensures Valid() && Model() == Init(size)
      ensures queueSize == if size > 0 then size else 256
      ensures queues == map[] && heap == map[] && !stopped && !done
    {
      queueSize := if size <= 0 then DEFAULT_QUEUE_SIZE else size;
      queues, heap, stopped, done := map[], map[], false, false;
      workers, accepted, completed := map[], map[], map[];
    }

    /** The locked region of dispatch.  q is the identity of the queue object and w that
        of the worker this call makes, when it makes them. */
    method TryDispatch(task: Task, q: nat, ghost w: nat) returns (outcome: Outcome, spawn: bool)
      requires Valid() && q !in heap && w !in workers
      modifies this`queues, this`heap, this`workers, this`accepted
      ensures Valid()
      ensures (Model(), outcome) == TrySend(old(Model()), task, q, w)
      ensures spawn <==>
        !old(stopped) && (task.env.runId !in old(queues) || !old(heap)[old(queues)[task.env.runId]].active)
      ensures spawn <==> w in workers
      ensures spawn ==> task.env.runId in queues && Serves(w, task.env.runId, queues[task.env.runId])
    {
      if stopped {
        return Closed, false;
      }
      var run := task.env.runId;
      if run !in queues {
        heap := heap[q := Queue([], false)];
        queues := queues[run := q];
      }
      var id := queues[run];
      spawn := false;
      if !heap[id].active {
        heap := heap[id := heap[id].(active := true)];
        spawn := true;
        workers := workers[w := Worker(run, id, Pc.Receive)];
      }
      if |heap[id].tasks| < queueSize {
        heap := heap[id := heap[id].(tasks := heap[id].tasks + [task])];
        accepted := Push(accepted, run, task);
        outcome := Sent;
      } else {
        outcome := Full;
      }
    }

    /** The receive in serve: takes the oldest task of the worker's queue. */
    method Receive(queue: nat, ghost w: nat) returns (task: Task)
      requires Valid() && w in workers && workers[w].queue == queue
      requires workers[w].pc == Pc.Receive && heap[queue].tasks != []
      modifies this`heap, this`workers
      ensures Valid() && Model() == Take(old(Model()), w)
      ensures old(heap[queue].tasks) == [task] + heap[queue].tasks && workers[w].pc == Running(task)
      ensures heap == old(heap)[queue := heap[queue]] && heap[queue].active == old(heap[queue].active)
    {
      task := heap[queue].tasks[0];
      heap := heap[queue := heap[queue].(tasks := heap[queue].tasks[1..])];
      workers := workers[w := workers[w].(pc := Running(task))];
    }

    /** The return of a task, and the length test that follows it. */
    method Finish(queue: nat, ghost w: nat) returns (empty: bool)
      requires Valid() && w in workers && workers[w].queue == queue && workers[w].pc.Running?
      modifies this`workers, this`completed
      ensures Valid() && Model() == Look(Complete(old(Model()), w), w)
      ensures empty <==> heap[queue].tasks == []
      ensures completed == Push(old(completed), workers[w].run, old(workers[w].pc.task))
      ensures workers == old(workers)[w := old(workers[w]).(pc := if empty then Pc.Retire else Pc.Receive)]
    {
      completed := Push(completed, workers[w].run, workers[w].pc.task);
      empty := |heap[queue].tasks| == 0;
      workers := workers[w := workers[w].(pc := if heap[queue].tasks == [] then Pc.Retire else Pc.Receive)];
    }

    /** Retires the worker of a drained queue; a queue that filled meanwhile keeps it. */
    method ReleaseIfEmpty(run: string, queue: nat, ghost w: nat) returns (idle: bool)
      requires Valid() && w in workers && workers[w].run == run && workers[w].queue == queue
      requires workers[w].pc == Pc.Retire
      modifies this`queues, this`heap, this`workers
      ensures Valid() && Model() == RetireIfEmpty(old(Model()), w)
      ensures idle <==> heap[queue].tasks == [] || stopped
      ensures idle <==> w !in workers
      ensures !idle ==> queues == old(queues) && heap == old(heap) && workers[w].pc == Pc.Receive
      ensures idle ==>
        && queues == (if run in old(queues) && old(queues)[run] == queue then old(queues) - {run} else old(queues))
        && heap == old(heap)[queue := Queue(old(heap[queue].tasks), false)]
    {
      if |heap[queue].tasks| > 0 && !stopped {
        workers := workers[w := workers[w].(pc := Pc.Receive)];
        return false;
      }
      if run in queues && queues[run] == queue {
        queues := queues - {run};
      }
      heap := heap[queue := heap[queue].(active := false)];
      workers := workers - {w};
      idle := true;
    }

    /** Drops an owned queue when the dispatcher shuts down. */
    method Release(run: string, queue: nat, ghost w: nat)
      requires Valid() && w in workers && workers[w].run == run && workers[w].queue == queue
      requires workers[w].pc == Pc.Release
      modifies this`queues, this`heap, this`workers
      ensures Valid() && Model() == Drop(old(Model()), w)
      ensures queues == if run in old(queues) && old(queues)[run] == queue then old(queues) - {run} else old(queues)
      ensures heap == old(heap)[queue := Queue(old(heap[queue].tasks), false)] && w !in workers
    {
      if run in queues && queues[run] == queue {
        queues := queues - {run};
      }
      heap := heap[queue := heap[queue].(active := false)];
      workers := workers - {w};
    }

    method Stop()
      requires Valid()
      modifies this`stopped, this`done
      ensures Valid() && Model() == Apply(Apply(old(Model()), DoStop), DoCloseDone) && stopped && done
    {
      stopped := true;
      done := true;
    }

    /** How many runs have a live queue. */
    method Waiting() returns (n: nat)
      ensures n == |Model().queues|
    {
      n := |queues|;
    }

    /** One round of the worker loop. */
    method Round(run: string, queue: nat, ghost w: nat) returns (task: Task, idle: bool)
      requires Valid() && Serves(w, run, queue) && workers[w].pc == Pc.Receive && heap[queue].tasks != []
      modifies this`queues, this`heap, this`workers, this`completed
      ensures Valid() && queue in heap && old(heap[queue].tasks) == [task] + heap[queue].tasks
      ensures At(completed, run) == At(old(completed), run) + [task]
      ensures idle <==> heap[queue].tasks == []
      ensures idle ==> w !in workers && queues == old(queues) - {run} && !heap[queue].active
      ensures !idle ==> Serves(w, run, queue) && workers[w].pc == Pc.Receive && queues == old(queues)
    {
      task := Receive(queue, w);
      var empty := Finish(queue, w);
      idle := false;
      if empty {
        idle := ReleaseIfEmpty(run, queue, w);
      }
    }

    /** The done branch of the worker loop. */
    method Quit(run: string, queue: nat, ghost w: nat)
      requires Valid() && Serves(w, run, queue) && workers[w].pc == Pc.Receive
      modifies this`queues, this`heap, this`workers
      ensures Valid() && w !in workers && queues == old(queues) - {run}
      ensures queue in heap && !heap[queue].active && heap[queue].tasks == old(heap[queue].tasks)
    {
      workers := workers[w := workers[w].(pc := Pc.Release)];
      Release(run, queue, w);
    }

    /** The worker loop of one run, when no producer interferes: it runs the queued
        tasks in order and leaves the run unmapped and idle; only the done branch may
        cut it short.  ran lists the tasks it ran. */
    method Serve(run: string, queue: nat, ghost w: nat) returns (ran: seq<Task>)
      requires Valid() && Serves(w, run, queue) && workers[w].pc == Pc.Receive && heap[queue].tasks != []
      modifies this`queues, this`heap, this`workers, this`completed
      ensures Valid() && w !in workers && queues == old(queues) - {run} && queue in heap && !heap[queue].active
      ensures old(heap[queue].tasks) == ran + heap[queue].tasks
      ensures !done ==> heap[queue].tasks == []
      ensures At(completed, run) == At(old(completed), run) + ran
    {
      hide At, Push;
      ran := [];
      assert [] + heap[queue].tasks == heap[queue].tasks && At(completed, run) + [] == At(completed, run);
      while true
        invariant Valid() && Serves(w, run, queue) && workers[w].pc == Pc.Receive && heap[queue].tasks != []
        invariant queues == old(queues)
        invariant old(heap[queue].tasks) == ran + heap[queue].tasks
        invariant At(completed, run) == At(old(completed), run) + ran
        decreases |heap[queue].tasks|
      {
        var quit := *;
        if done && quit {
          Quit(run, queue, w);
          return;
        }
        var task, idle := Round(run, queue, w);
        Regroup(ran, [task], heap[queue].tasks);
        Regroup(At(old(completed), run), ran, [task]);
        ran := ran + [task];
        if idle {
          return;
        }
      }
    }
  }
}
