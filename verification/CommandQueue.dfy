/** Commands from many I/O threads to the one logic thread: a list under a lock and a semaphore
    that counts its commands.  Every critical section and every call on the semaphore is one
    step; the threads may be interleaved in any way. */
module CommandQueue {
  type Command = nat
  type ThreadId = nat

  /** The logic thread waits, has passed the semaphore, or has a command in hand. */
  datatype Consumer = Waiting | Woken | Holding(c: Command)

  datatype Queue = Queue(
    list: seq<Command>,          // m_CommandList
    count: nat,                  // the semaphore
    between: set<ThreadId>,      // pushers that have appended and not yet released
    failed: nat,                 // releases that were refused
    consumer: Consumer,
    handled: seq<Command>,       // calls of _OnCommand
    pushed: seq<Command>,        // appended so far, in order
    problem: bool)               // "Semaphore has problem"

  datatype Step =
    | Append(t: ThreadId, c: Command)
    | Release(t: ThreadId, ok: bool)
    | Wait
    | Pop
    | Handle

  function Start(): Queue {
    Queue([], 0, {}, 0, Waiting, [], [], false)
  }

  predicate Enabled(q: Queue, s: Step) {
    match s
    case Append(t, _) => t !in q.between
    case Release(t, _) => t in q.between
    case Wait => q.consumer.Waiting? && q.count > 0
    case Pop => q.consumer.Woken?
    case Handle => q.consumer.Holding?
  }

  /** A time-out of the wait changes nothing and is no step. */
  function Apply(q: Queue, s: Step): Queue
    requires Enabled(q, s)
  {
    match s
    case Append(t, c) => q.(list := q.list + [c], between := q.between + {t}, pushed := q.pushed + [c])
    case Release(t, ok) =>
      if ok then q.(count := q.count + 1, between := q.between - {t})
            else q.(failed := q.failed + 1, between := q.between - {t})
    case Wait => q.(count := q.count - 1, consumer := Woken)
    case Pop =>
      if q.list != [] then q.(consumer := Holding(q.list[0]), list := q.list[1..]) else q.(problem := true)
    case Handle => q.(handled := q.handled + [q.consumer.c], consumer := Waiting)
  }

  function InHand(q: Queue): seq<Command> {
    if q.consumer.Holding? then [q.consumer.c] else []
  }

  /** The list is as long as the semaphore says, but for what is under way; and what was pushed
      has been handled, is in hand or waits in the list, in this order. */
  predicate Inv(q: Queue) {
    && |q.list| == q.count + |q.between| + q.failed + (if q.consumer.Woken? then 1 else 0)
    && q.handled + InHand(q) + q.list == q.pushed && !q.problem
  }

  lemma StepInv(q: Queue, s: Step)
    requires Inv(q) && Enabled(q, s)
    ensures Inv(Apply(q, s))
  {
    var q' := Apply(q, s);
    match s {
      case Append(t, c) =>
        assert q'.handled + InHand(q') + q'.list == q.handled + InHand(q) + q.list + [c];
      case Release(t, ok) =>
      case Wait =>
      case Pop =>
        assert q.list == [q.list[0]] + q.list[1..];
        assert q.handled + [q.list[0]] + q.list[1..] == q.handled + ([q.list[0]] + q.list[1..]);
        assert q.handled + [] + q.list == q.handled + q.list;
      case Handle =>
        assert q'.handled + [] + q'.list == q.handled + InHand(q) + q.list;
    }
  }

  ghost predicate IsRun(states: seq<Queue>, steps: seq<Step>) {
    && |states| == |steps| + 1 && states[0] == Start()
    && forall i :: 0 <= i < |steps| ==> Enabled(states[i], steps[i]) && states[i + 1] == Apply(states[i], steps[i])
  }

  lemma {:induction false} RunInv(states: seq<Queue>, steps: seq<Step>, i: nat)
    requires IsRun(states, steps) && i <= |steps|
    ensures Inv(states[i])
    decreases i
  {
    hide Inv, Enabled, Apply;
    if i == 0 {
      StartInv();
    } else {
      RunInv(states, steps, i - 1);
      assert Enabled(states[i - 1], steps[i - 1]);
      StepInv(states[i - 1], steps[i - 1]);
    }
  }

  lemma StartInv()
    ensures Inv(Start())
  {
  }

  /** The commands that pushers appended, in the order of their critical sections. */
  function Pushes(steps: seq<Step>): seq<Command> {
    if steps == [] then []
    else
      var last := steps[|steps| - 1];
      Pushes(steps[..|steps| - 1]) + (if last.Append? then [last.c] else [])
  }

  lemma {:induction false} PushedIs(states: seq<Queue>, steps: seq<Step>, i: nat)
    requires IsRun(states, steps) && i <= |steps|
    ensures states[i].pushed == Pushes(steps[..i])
    decreases i
  {
    if i > 0 {
      PushedIs(states, steps, i - 1);
      assert steps[..i][..i - 1] == steps[..i - 1];
      assert Enabled(states[i - 1], steps[i - 1]);
    }
  }

  /** In every run the logic thread always finds a command after the semaphore let it through,
      and it handles the commands in the order in which they were pushed, each one once. */
  lemma RunSafe(states: seq<Queue>, steps: seq<Step>, i: nat)
    requires IsRun(states, steps) && i <= |steps|
    ensures !states[i].problem && states[i].handled <= Pushes(steps[..i])
    ensures states[i].consumer.Woken? ==> states[i].list != []
    ensures |states[i].list| == states[i].count + |states[i].between| + states[i].failed
            + (if states[i].consumer.Woken? then 1 else 0)
  {
    RunInv(states, steps, i);
    PushedIs(states, steps, i);
    var q := states[i];
    assert q.pushed == q.handled + (InHand(q) + q.list);
  }

  /** Once no push is under way and nothing was refused, every command still to be handled is
      counted: the logic thread can go on until the list is empty. */
  lemma RunProgress(states: seq<Queue>, steps: seq<Step>, i: nat)
    requires IsRun(states, steps) && i <= |steps| && states[i].between == {} && states[i].failed == 0
    ensures states[i].consumer.Waiting? ==> (states[i].count == 0 <==> states[i].handled == Pushes(steps[..i]))
  {
    RunInv(states, steps, i);
    PushedIs(states, steps, i);
    var q := states[i];
    if q.consumer.Waiting? {
      assert q.handled + [] + q.list == q.handled + q.list;
      if q.handled == q.pushed { assert |q.pushed| == |q.handled| + |q.list|; }
      if q.count == 0 { assert q.list == []; }
    }
  }
}
