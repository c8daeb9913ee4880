/** Two runs from boot in which an event goes wrong: a waiter is dropped between the read
    and the write of event_notify, and 256 interrupts in a row post nothing. */
module EventFailures {
  import opened EventRuns
  import opened QueueSpec
  import opened Scheduler
  import opened SchedulerRuns
  import opened Wrappers

  // ----- following a run

  ghost predicate Goes(s: State, a: Action, n: State)
  {
    Enabled(s, a) && Step(s, a) == n
  }

  /** Every state of the list is the next step of the one before. */
  ghost predicate Follows(states: seq<State>, acts: seq<Action>)
  {
    |states| == |acts| + 1 && forall i :: 0 <= i < |acts| ==> Goes(states[i], acts[i], states[i + 1])
  }

  lemma {:induction false} Followed(states: seq<State>, acts: seq<Action>)
    requires Follows(states, acts)
    ensures CanRun(states[0], acts) && Run(states[0], acts) == states[|acts|]
    decreases |acts|
  {
    if acts != [] {
      assert Goes(states[0], acts[0], states[1]);
      assert Follows(states[1..], acts[1..]) by {
        forall i | 0 <= i < |acts[1..]|
          ensures Goes(states[1..][i], acts[1..][i], states[1..][i + 1])
        {
          assert Goes(states[i + 1], acts[i + 1], states[i + 2]);
        }
      }
      Followed(states[1..], acts[1..]);
    }
  }

  lemma RunCons(s: State, a: Action, m: State, rest: seq<Action>)
    requires Goes(s, a, m) && CanRun(m, rest)
    ensures CanRun(s, [a] + rest) && Run(s, [a] + rest) == Run(m, rest)
  {
    assert ([a] + rest)[1..] == rest;
  }

  lemma RunParts(s: State, acts: seq<Action>) returns (m: State)
    requires CanRun(s, acts) && acts != []
    ensures Goes(s, acts[0], m) && CanRun(m, acts[1..]) && Run(m, acts[1..]) == Run(s, acts)
  {
    m := Step(s, acts[0]);
  }

  lemma {:induction false} RunBoth(s: State, a: seq<Action>, b: seq<Action>)
    requires CanRun(s, a) && CanRun(Run(s, a), b)
    ensures CanRun(s, a + b) && Run(s, a + b) == Run(Run(s, a), b)
    decreases |a|
  {
    hide Step, Enabled;
    if a == [] {
      assert a + b == b;
    } else {
      var m := RunParts(s, a);
      RunBoth(m, a[1..], b);
      RunCons(s, a[0], m, a[1..] + b);
      assert a + b == [a[0]] + (a[1..] + b);
    }
  }

  /** A schedule, without pending events, from a RUNNING thread to the first queued one. */
  lemma SwitchAway(s: State, next: Tid, q: seq<Entry<Tid>>, n: State)
    requires Enabled(s, Schedule) && SignalThreads(s, s.wake) == s && s.current in s.running
    requires s.rq != [] && s.rq[0] == Entry(next, s.rq[0].key, 0) && next in s.running
    requires next != s.current && next != s.idle
    requires Place(s.order, s.rq, Entry(s.current, KeyOf(s, s.current), 0)) == [s.rq[0]] + q
    requires n ==
      s.(need := s.need - {s.current}, slice := s.slice - {s.current}, current := next, switches := s.switches + 1,
         rq := q, onRq := s.onRq + {s.current}, at := s.at[s.current := RunQueue] - {next},
         since := s.since[s.current := s.tick], pc := Ready)
    ensures Goes(s, Schedule, n)
  {
    AwayQueue(Cleared(s, s.current), next, q);
  }

  lemma AwayQueue(s: State, next: Tid, q: seq<Entry<Tid>>)
    requires s.current in s.running && s.rq != [] && s.rq[0] == Entry(next, s.rq[0].key, 0)
    requires Place(s.order, s.rq, Entry(s.current, KeyOf(s, s.current), 0)) == [s.rq[0]] + q
    ensures Switched(s, s.current, next) ==
      s.(current := next, switches := s.switches + 1, rq := q, onRq := s.onRq + {s.current}, at := s.at[s.current := RunQueue] - {next},
         since := s.since[s.current := s.tick])
  {
    assert ([s.rq[0]] + q)[1..] == q;
    assert Remove([s.rq[0]] + q, next) == Some(q);
  }

  /** The same from a thread that has stopped. */
  lemma SwitchOff(s: State, next: Tid, n: State)
    requires Enabled(s, Schedule) && SignalThreads(s, s.wake) == s && s.current !in s.running && s.current in s.need
    requires s.rq != [] && s.rq[0] == Entry(next, s.rq[0].key, 0) && next in s.running && next != s.current
    requires n ==
      s.(need := s.need - {s.current}, slice := s.slice - {s.current}, current := next, switches := s.switches + 1,
         rq := s.rq[1..], num := s.num - 1, onRq := s.onRq - {s.current}, at := s.at - {next}, pc := Ready)
    ensures Goes(s, Schedule, n)
  {
    OffQueue(Cleared(s, s.current), next);
  }

  lemma OffQueue(s: State, next: Tid)
    requires s.current !in s.running && s.rq != [] && s.rq[0] == Entry(next, s.rq[0].key, 0)
    ensures Switched(s, s.current, next) ==
      s.(current := next, switches := s.switches + 1, rq := s.rq[1..], num := s.num - 1,
         onRq := s.onRq - {s.current}, at := s.at - {next})
  {
    assert Remove(s.rq, next) == Some(s.rq[1..]);
  }

  // ----- a waiter dropped

  /** Thread 1 calls event_notify and is preempted after reading NULL; thread 2 starts to
      wait; thread 1 goes on. */
  const READING: seq<Action> := [Start(1, 5), Start(2, 5), Open(9), Schedule, Discard(9), NotifyRead(9)]
  const WRITING: seq<Action> := [Schedule, Check(9), List, Enqueue, Schedule, NotifyCommit]

  const ONE: Entry<Tid> := Entry(1, 5, 0)
  const TWO: Entry<Tid> := Entry(2, 5, 0)
  const IDLE: Entry<Tid> := Entry(0, 255, 0)

  /** Thread 1 is started. */
  function Started1(): State
  {
    Init(Rr, 0).(rq := [ONE], num := 1, running := {0, 1}, onRq := {1}, at := map[1 := RunQueue], prio := map[0 := 255, 1 := 5],
                     since := map[1 := 0])
  }

  /** So is thread 2. */
  function Started2(): State
  {
    Started1().(rq := [ONE, TWO], num := 2, running := {0, 1, 2}, onRq := {1, 2},
                at := map[1 := RunQueue, 2 := RunQueue], prio := map[0 := 255, 1 := 5, 2 := 5],
                since := map[1 := 0, 2 := 0])
  }

  function Opened(): State
  {
    Started2().(waits := map[9 := Signaled])
  }

  /** Thread 1 runs. */
  function Running1(): State
  {
    Opened().(rq := [TWO, IDLE], current := 1, switches := 1, onRq := {0, 1, 2}, at := map[0 := RunQueue, 2 := RunQueue],
              since := map[0 := 0, 1 := 0, 2 := 0])
  }

  function Emptied1(): State
  {
    Running1().(waits := map[9 := Threads([])])
  }

  /** Thread 1 has read the head. */
  function HasRead(): State
  {
    Emptied1().(seen := map[1 := Reading(9, Nobody)])
  }

  /** Thread 2 runs. */
  function Running2(): State
  {
    HasRead().(rq := [ONE, IDLE], current := 2, switches := 2, at := map[0 := RunQueue, 1 := RunQueue])
  }

  function HasChecked(): State
  {
    Running2().(pc := Checked(9))
  }

  function HasListed(): State
  {
    HasChecked().(wake := [2], pc := Listed(9))
  }

  /** Thread 2 waits and has not left the CPU yet. */
  function HasQueued(): State
  {
    HasListed().(running := {0, 1}, need := {2}, at := map[0 := RunQueue, 1 := RunQueue, 2 := WaitQueue(9)],
                 waits := map[9 := Threads([Entry(2, 0, 0)])], pc := Enqueued(9))
  }

  /** Thread 1 runs again. */
  function Resumed(): State
  {
    HasQueued().(rq := [IDLE], num := 1, current := 1, switches := 3, need := {}, onRq := {0, 1},
                 at := map[0 := RunQueue, 2 := WaitQueue(9)], pc := Ready)
  }

  /** Thread 1 has written the head. */
  function HasWritten(): State
  {
    Resumed().(waits := map[9 := Signaled], seen := map[])
  }

  lemma Start1()
    ensures Goes(Init(Rr, 0), Start(1, 5), Started1())
  {
  }

  lemma Start2()
    ensures Goes(Started1(), Start(2, 5), Started2())
  {
    assert Place(Rr, [ONE], TWO) == [ONE, TWO];
  }

  lemma Run1()
    ensures Goes(Opened(), Schedule, Running1())
  {
    assert [ONE, TWO][1..] == [TWO] && [TWO][1..] == [];
    assert Place(Rr, [TWO], IDLE) == [TWO, IDLE];
    assert Place(Rr, [ONE, TWO], IDLE) == [ONE] + [TWO, IDLE];
    hide Step, Place, Goes, SignalOne, Running1;
    Fields1();
    SwitchAway(Opened(), 1, [TWO, IDLE], Running1());
  }

  lemma Fields1()
    ensures var s := Opened();
            Running1() == s.(need := s.need - {s.current}, slice := s.slice - {s.current}, current := 1, switches := s.switches + 1,
                             rq := [TWO, IDLE], onRq := s.onRq + {s.current}, at := s.at[s.current := RunQueue] - {1},
                             since := s.since[s.current := s.tick], pc := Ready)
  {
  }

  lemma Read1()
    ensures Goes(Running1(), Discard(9), Emptied1()) && Goes(Emptied1(), NotifyRead(9), HasRead())
  {
  }

  lemma Run2()
    ensures Goes(HasRead(), Schedule, Running2())
  {
    assert [TWO, IDLE][1..] == [IDLE] && [IDLE][1..] == [];
    assert Place(Rr, [IDLE], ONE) == [ONE, IDLE];
    assert Place(Rr, [TWO, IDLE], ONE) == [TWO] + [ONE, IDLE];
    hide Step, Place, Goes, SignalOne;
    SwitchAway(HasRead(), 2, [ONE, IDLE], Running2());
  }

  lemma Check2()
    ensures Goes(Running2(), Check(9), HasChecked()) && Goes(HasChecked(), List, HasListed())
  {
  }

  lemma Queue2()
    ensures Goes(HasListed(), Enqueue, HasQueued())
  {
  }

  /** Nothing is to be signaled for a waiter without events. */
  lemma NoSignal(s: State, t: Tid, q: Qid)
    requires s.wake == [t] && q in s.waits && s.waits[q] == Threads([Entry(t, 0, 0)]) && t in s.at && s.at[t] == WaitQueue(q)
    ensures SignalThreads(s, s.wake) == s
  {
    assert SignalOne(s, t) == s && s.wake[1..] == [];
  }

  lemma Resume1()
    ensures Goes(HasQueued(), Schedule, Resumed())
  {
    NoSignal(HasQueued(), 2, 9);
    assert [ONE, IDLE][1..] == [IDLE];
    SwitchOff(HasQueued(), 1, Resumed());
  }

  lemma Write1()
    ensures Goes(Resumed(), NotifyCommit, HasWritten())
  {
  }

  lemma Reads()
    ensures CanRun(Init(Rr, 0), READING) && Run(Init(Rr, 0), READING) == HasRead()
  {
    Start1();
    Start2();
    assert Goes(Started2(), Open(9), Opened());
    Run1();
    Read1();
    Followed([Init(Rr, 0), Started1(), Started2(), Opened(), Running1(), Emptied1(), HasRead()], READING);
  }

  lemma Writes()
    ensures CanRun(HasRead(), WRITING) && Run(HasRead(), WRITING) == HasWritten()
  {
    Run2();
    Check2();
    Queue2();
    Resume1();
    Write1();
    Followed([HasRead(), Running2(), HasChecked(), HasListed(), HasQueued(), Resumed(), HasWritten()], WRITING);
  }

  /** A started thread that nobody will ever run again. */
  ghost predicate Lost(s: State, t: Tid)
  {
    t in s.prio && t != s.current && !Member(s.rq, t) && forall q :: !InList(s, q, t)
  }

  lemma WrittenLost()
    ensures Lost(HasWritten(), 2)
  {
    assert [IDLE][1..] == [];
  }

  /** In the end thread 2 is started and neither current nor queued to run nor waiting. */
  lemma DroppedWaiter() returns (s: State)
    ensures CanRun(Init(Rr, 0), READING + WRITING) && Run(Init(Rr, 0), READING + WRITING) == s && Lost(s, 2)
  {
    Reads();
    Writes();
    RunBoth(Init(Rr, 0), READING, WRITING);
    WrittenLost();
    s := HasWritten();
  }

  // ----- a counter that wraps

  function Posts(q: Qid, k: nat): seq<Action>
  {
    if k == 0 then [] else [NotifyIrq(q)] + Posts(q, k - 1)
  }

  function WithEvents(s: State, q: Qid, ec: int): State
    requires FoundWaiters(s, q)
  {
    s.(waits := s.waits[q := Threads(Recounted(s.waits[q].q, ec))])
  }

  predicate FoundWaiters(s: State, q: Qid)
  {
    q in s.waits && FoundAt(s.waits[q]) == Waiters
  }

  lemma Recounting(list: seq<Entry<Tid>>, a: int, b: int)
    requires list != []
    ensures Recounted(Recounted(list, a), b) == Recounted(list, b) && Recounted(list, list[0].ec) == list
  {
  }

  lemma NextCount(ec: int, k: nat)
    requires 0 <= ec < 256
    ensures ((ec + 1) % 256 + k) % 256 == (ec + 1 + k) % 256
  {
  }

  /** Interrupts that post to a queue with waiters count their events modulo 256. */
  lemma {:induction false} PostsCount(s: State, q: Qid, k: nat)
    requires !s.fault && FoundWaiters(s, q) && 0 <= s.waits[q].q[0].ec < 256
    ensures CanRun(s, Posts(q, k)) && Run(s, Posts(q, k)) == WithEvents(s, q, (s.waits[q].q[0].ec + k) % 256)
    decreases k
  {
    var list := s.waits[q].q;
    if k == 0 {
      Recounting(list, 0, 0);
      assert s.waits[q := Threads(list)] == s.waits;
    } else {
      var next := (list[0].ec + 1) % 256;
      var n := WithEvents(s, q, next);
      PostsCount(n, q, k - 1);
      RunCons(s, NotifyIrq(q), n, Posts(q, k - 1));
      NextCount(list[0].ec, k - 1);
      Recounting(list, next, (list[0].ec + k) % 256);
    }
  }

  /** Thread 1 starts to wait on queue 9. */
  const WAITING: seq<Action> := [Start(1, 5), Open(9), Schedule, Discard(9), Check(9), List, Enqueue]

  function Alone1(): State
  {
    Started1().(waits := map[9 := Signaled])
  }

  function AloneRuns(): State
  {
    Alone1().(rq := [IDLE], current := 1, switches := 1, onRq := {0, 1}, at := map[0 := RunQueue], since := map[0 := 0, 1 := 0])
  }

  function AloneLists(): State
  {
    AloneRuns().(waits := map[9 := Threads([])], wake := [1], pc := Listed(9))
  }

  function Blocked(): State
  {
    AloneLists().(running := {0}, need := {1}, waits := map[9 := Threads([Entry(1, 0, 0)])],
                  at := map[0 := RunQueue, 1 := WaitQueue(9)], pc := Enqueued(9))
  }

  lemma AloneRun()
    ensures Goes(Started1(), Open(9), Alone1()) && Goes(Alone1(), Schedule, AloneRuns())
  {
    assert [ONE][1..] == [] && Place(Rr, [], IDLE) == [IDLE];
    assert Place(Rr, [ONE], IDLE) == [ONE] + [IDLE];
    SwitchAway(Alone1(), 1, [IDLE], AloneRuns());
  }

  lemma AloneWait()
    ensures var empty := AloneRuns().(waits := map[9 := Threads([])]);
            && Goes(AloneRuns(), Discard(9), empty) && Goes(empty, Check(9), empty.(pc := Checked(9)))
            && Goes(empty.(pc := Checked(9)), List, AloneLists())
  {
  }

  lemma AloneQueue()
    ensures Goes(AloneLists(), Enqueue, Blocked())
  {
  }

  lemma Block()
    ensures CanRun(Init(Rr, 0), WAITING) && Run(Init(Rr, 0), WAITING) == Blocked()
  {
    Start1();
    AloneRun();
    AloneWait();
    AloneQueue();
    var empty := AloneRuns().(waits := map[9 := Threads([])]);
    Followed([Init(Rr, 0), Started1(), Alone1(), AloneRuns(), empty, empty.(pc := Checked(9)), AloneLists(), Blocked()], WAITING);
  }

  lemma Overrun()
    ensures CanRun(Init(Rr, 0), WAITING + Posts(9, 256)) && Run(Init(Rr, 0), WAITING + Posts(9, 256)) == Blocked()
  {
    Block();
    PostsCount(Blocked(), 9, 256);
    NoneCounted();
    RunBoth(Init(Rr, 0), WAITING, Posts(9, 256));
  }

  lemma NoneCounted()
    ensures FoundWaiters(Blocked(), 9) && WithEvents(Blocked(), 9, 0) == Blocked() && Blocked().waits[9].q[0].ec == 0
  {
    assert Recounted([Entry(1 as Tid, 0, 0)], 0) == [Entry(1, 0, 0)];
  }

  /** After 256 posts nothing is on record, and the waiter stays blocked over the next
      schedule. */
  lemma FullCounter() returns (s: State)
    ensures CanRun(Init(Rr, 0), WAITING + Posts(9, 256)) && Run(Init(Rr, 0), WAITING + Posts(9, 256)) == s
    ensures Inv(s) && InList(s, 9, 1) && !Recorded(s.waits[9])
    ensures Enabled(s, Schedule) && 1 !in Step(s, Schedule).running
  {
    Overrun();
    BlockedOk();
    StaysBlocked();
    s := Blocked();
  }

  lemma BlockedOk()
    ensures Inv(Blocked())
  {
    var s := Blocked();
    assert InList(s, 9, 1) && [IDLE][1..] == [] && [Entry(1 as Tid, 0, 0)][1..] == [];
  }

  lemma StaysBlocked()
    ensures Enabled(Blocked(), Schedule) && 1 !in Step(Blocked(), Schedule).running
  {
    NoSignal(Blocked(), 1, 9);
    OffQueue(Cleared(Blocked(), 1), 0);
  }
}
