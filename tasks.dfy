/**
 * The cooperative task table shared by both firmwares: a fixed array of 32
 * slots filled by registration calls and serviced in registration order.
 * Each slot is either signal-triggered (it points at a flag cell that an
 * interrupt sets) or time-triggered (it fires when TimeOut ticks have passed
 * since TimeCnt on the wrapping microsecond counter).
 *
 * The counter `micros` is a scripted sequence of readings (`clock`), each read
 * consuming the next one. A callable is an opaque identifier; running it is
 * recorded in `ran`, and `raises` scripts which flag cells the interrupt sets
 * while the n-th callable runs.
 */
module Tasks {
  import opened Common
  import opened Ticks

  const NUMBER_OF_TASKS: nat := 32

  /** Return codes of the two registration calls, as `unsigned char`. */
  const TASK_OK: u8 := 0
  const TASK_ERROR_NULL_TASK: u8 := 254              // (unsigned char)-2
  const TASK_ERROR_MAX_NUMBER_OF_TASK_REACHED: u8 := 255  // (unsigned char)-1

  /** FindTaskPID's answer when nothing matches: (uint16_t)-1. */
  const PID_NOT_FOUND: u16 := 0xFFFF

  /** A callable; 0 plays the role of the NULL function pointer. */
  type TaskFn = nat
  const NULL_TASK: TaskFn := 0

  /** Where a slot's `pTrigger` points: nowhere (NULL) or at one flag cell. */
  datatype Trigger = NoTrigger | Flag(cell: nat)

  /** One `task_t` slot. */
  datatype Slot = Slot(
    pTrigger: Trigger,
    suspend: bool,
    runTimeCnt: u32,
    timeOut: u32,
    timeCnt: u32,
    percent: u32,
    useTimer: bool,
    pTask: TaskFn)

  /** A slot after the table has been cleared with zero bytes. */
  const EmptySlot: Slot := Slot(NoTrigger, false, 0, 0, 0, 0, false, NULL_TASK)

  /** The fields that scheduling never writes. */
  predicate SameConfig(a: Slot, b: Slot)
  {
    a.pTrigger == b.pTrigger && a.suspend == b.suspend && a.timeOut == b.timeOut
    && a.percent == b.percent && a.useTimer == b.useTimer && a.pTask == b.pTask
  }

  /** The callables of the first n slots, in registration order. */
  function Pids(tasks: seq<Slot>, n: nat): (p: seq<TaskFn>)
    requires n <= |tasks|
    ensures |p| == n && forall k :: 0 <= k < n ==> p[k] == tasks[k].pTask
  {
    seq(n, k requires 0 <= k < n => tasks[k].pTask)
  }

  /** `a` can be obtained from `b` by deleting elements. */
  predicate Subseq<T(==)>(a: seq<T>, b: seq<T>)
    decreases |b|
  {
    |a| <= |b| &&
    (|a| == 0
     || (a[|a| - 1] == b[|b| - 1] && Subseq(a[..|a| - 1], b[..|b| - 1]))
     || Subseq(a, b[..|b| - 1]))
  }

  // ---------------------------------------------------------------------
  // The scheduling step as a function of the state it touches.

  /** What scheduling reads and writes: the slots, the flag cells, how many
      counter readings were consumed and which callables ran. */
  datatype Sched = Sched(tasks: seq<Slot>, flags: seq<u8>, readings: nat, ran: seq<TaskFn>)

  /** Slot i can be serviced without dereferencing a NULL or stray trigger. */
  predicate Serviceable(s: Sched, i: nat)
    requires i < |s.tasks|
  {
    var t := s.tasks[i];
    !t.suspend && !t.useTimer ==> t.pTrigger.Flag? && t.pTrigger.cell < |s.flags|
  }

  predicate ServiceableUpTo(s: Sched, n: nat)
    requires n <= |s.tasks|
  {
    forall j :: 0 <= j < n ==> Serviceable(s, j)
  }

  /** The cells in `cells` set to true (1), the others as they were. */
  function Raise(flags: seq<u8>, cells: set<nat>): (r: seq<u8>)
    ensures |r| == |flags|
    ensures forall k :: 0 <= k < |flags| ==> r[k] == if k in cells then 1 else flags[k]
  {
    seq(|flags|, k requires 0 <= k < |flags| => if k in cells then 1 else flags[k])
  }

  /** Running callable f: it is recorded, and the interrupt raises the cells
      scripted for this run. */
  function RunCallable(s: Sched, f: TaskFn, raises: nat -> set<nat>): Sched
  {
    s.(ran := s.ran + [f], flags := Raise(s.flags, raises(|s.ran|)))
  }

  /** Whether slot i runs when serviced in state s. */
  predicate Fires(s: Sched, i: nat, clock: nat -> u32)
    requires i < |s.tasks| && Serviceable(s, i)
  {
    var t := s.tasks[i];
    !t.suspend &&
    if t.useTimer then Timeout(clock(s.readings), t.timeCnt, t.timeOut)
    else s.flags[t.pTrigger.cell] != 0
  }

  /** Servicing slot i: the body of the scheduling loop (and of SwitchContents). */
  function Service(s: Sched, i: nat, clock: nat -> u32, raises: nat -> set<nat>): (r: Sched)
    requires i < |s.tasks| && Serviceable(s, i)
    ensures |r.tasks| == |s.tasks| && |r.flags| == |s.flags|
    ensures forall j :: 0 <= j < |s.tasks| && j != i ==> r.tasks[j] == s.tasks[j]
    ensures SameConfig(r.tasks[i], s.tasks[i])
    ensures r.ran == s.ran || r.ran == s.ran + [s.tasks[i].pTask]
  {
    var t := s.tasks[i];
    if t.suspend then s
    else if !t.useTimer then
      if s.flags[t.pTrigger.cell] == 0 then s
      else
        var before := clock(s.readings);
        var s1 := RunCallable(s.(readings := s.readings + 1), t.pTask, raises);
        var after := clock(s1.readings);
        s1.(readings := s1.readings + 1,
            tasks := s1.tasks[i := t.(runTimeCnt := Add32(t.runTimeCnt, Sub32(after, before)))],
            flags := s1.flags[t.pTrigger.cell := 0])
    else if !Timeout(clock(s.readings), t.timeCnt, t.timeOut) then s.(readings := s.readings + 1)
    else
      var before := clock(s.readings + 1);
      var s1 := RunCallable(s.(readings := s.readings + 2), t.pTask, raises);
      var after := clock(s1.readings);
      s1.(readings := s1.readings + 2,
          tasks := s1.tasks[i := t.(runTimeCnt := Add32(t.runTimeCnt, Sub32(after, before)),
                                    timeCnt := clock(s1.readings + 1))])
  }

  /**
   * What servicing slot i does: a suspended slot is skipped, a slot that does
   * not fire costs at most one reading, and a slot that fires runs its
   * callable once and accounts for the time around the run.
   */
  lemma ServiceEffect(s: Sched, i: nat, clock: nat -> u32, raises: nat -> set<nat>, r: Sched)
    requires i < |s.tasks| && Serviceable(s, i)
    requires r == Service(s, i, clock, raises)
    // a suspended slot is skipped entirely
    ensures s.tasks[i].suspend ==> r == s
    // a slot that does not fire changes nothing but the readings taken to decide
    ensures !Fires(s, i, clock) ==>
      r.tasks == s.tasks && r.flags == s.flags && r.ran == s.ran
      && r.readings == s.readings + (if !s.tasks[i].suspend && s.tasks[i].useTimer then 1 else 0)
    // a slot that fires runs its callable once
    ensures Fires(s, i, clock) ==> r.ran == s.ran + [s.tasks[i].pTask]
    // a fired signal slot: RunTimeCnt grows by the time between the readings
    // around the run; its flag is cleared after the run, so a set made during
    // the run is lost; other cells raised during the run stay raised
    ensures Fires(s, i, clock) && !s.tasks[i].useTimer ==>
      var c := s.tasks[i].pTrigger.cell;
      r.readings == s.readings + 2 && r.flags[c] == 0
      && r.tasks[i].runTimeCnt == Add32(s.tasks[i].runTimeCnt, Sub32(clock(s.readings + 1), clock(s.readings)))
      && forall k :: 0 <= k < |s.flags| && k != c ==>
           r.flags[k] == if k in raises(|s.ran|) then 1 else s.flags[k]
    // a fired time slot: the same accounting, and TimeCnt is the reading taken
    // after the run
    ensures Fires(s, i, clock) && s.tasks[i].useTimer ==>
      r.readings == s.readings + 4 && r.tasks[i].timeCnt == clock(s.readings + 3)
      && r.tasks[i].runTimeCnt == Add32(s.tasks[i].runTimeCnt, Sub32(clock(s.readings + 2), clock(s.readings + 1)))
      && r.flags == Raise(s.flags, raises(|s.ran|))
  {
  }

  /** The first n iterations of one scheduling pass. */
  function PassUpTo(s: Sched, n: nat, clock: nat -> u32, raises: nat -> set<nat>): (r: Sched)
    requires n <= |s.tasks| && ServiceableUpTo(s, n)
    ensures |r.tasks| == |s.tasks| && |r.flags| == |s.flags|
    ensures forall j :: 0 <= j < |s.tasks| ==> SameConfig(r.tasks[j], s.tasks[j])
    ensures forall j :: n <= j < |s.tasks| ==> r.tasks[j] == s.tasks[j]
    ensures ServiceableUpTo(r, n)
    ensures s.ran <= r.ran && |r.ran| <= |s.ran| + n
    decreases n
  {
    if n == 0 then s
    else
      var p := PassUpTo(s, n - 1, clock, raises);
      assert Serviceable(p, n - 1) by {
        assert SameConfig(p.tasks[n - 1], s.tasks[n - 1]);
        assert Serviceable(s, n - 1);
      }
      var r := Service(p, n - 1, clock, raises);
      ServiceableTransfer(s, r, n);
      r
  }

  /** Serviceability depends only on the fields scheduling never writes. */
  lemma ServiceableTransfer(s: Sched, r: Sched, n: nat)
    requires n <= |s.tasks| == |r.tasks| && |s.flags| == |r.flags|
    requires forall j :: 0 <= j < |s.tasks| ==> SameConfig(r.tasks[j], s.tasks[j])
    requires ServiceableUpTo(s, n)
    ensures ServiceableUpTo(r, n)
  {
    forall j | 0 <= j < n ensures Serviceable(r, j) {
      assert SameConfig(r.tasks[j], s.tasks[j]);
      assert Serviceable(s, j);
    }
  }

  /** Appending x to the longer sequence keeps a subsequence one, whether or
      not x is appended to the shorter one as well. */
  lemma SubseqExtend<T>(a: seq<T>, b: seq<T>, x: T, c: seq<T>)
    requires Subseq(a, b)
    requires c == a || c == a + [x]
    ensures Subseq(c, b + [x])
  {
    assert (b + [x])[..|b|] == b;
    if c == a + [x] {
      assert c[..|a|] == a;
    }
  }

  /** The new part of a history that grew by at most x. */
  lemma SuffixStep<T>(s: seq<T>, p: seq<T>, r: seq<T>, x: T)
    requires s <= p
    requires r == p || r == p + [x]
    ensures s <= r
    ensures r[|s|..] == p[|s|..] || r[|s|..] == p[|s|..] + [x]
  {
    if r == p + [x] {
      assert r[|s|..] == p[|s|..] + [x];
    }
  }

  /**
   * One pass runs callables in registration order, each slot at most once:
   * what it runs is a subsequence of the callables of slots 0..n-1.
   */
  lemma {:induction false} PassRunsInOrder(s: Sched, n: nat, clock: nat -> u32, raises: nat -> set<nat>)
    requires n <= |s.tasks| && ServiceableUpTo(s, n)
    ensures var r := PassUpTo(s, n, clock, raises);
      Subseq(r.ran[|s.ran|..], Pids(s.tasks, n))
  {
    var r := PassUpTo(s, n, clock, raises);
    if n == 0 {
      assert r.ran[|s.ran|..] == [];
    } else {
      var p := PassUpTo(s, n - 1, clock, raises);
      PassRunsInOrder(s, n - 1, clock, raises);
      var x := s.tasks[n - 1].pTask;
      PassStepRan(s, n, clock, raises);
      SuffixStep(s.ran, p.ran, r.ran, x);
      var pids := Pids(s.tasks, n - 1);
      PidsSnoc(s.tasks, n);
      var done, now := p.ran[|s.ran|..], r.ran[|s.ran|..];
      SubseqExtend(done, pids, x, now);
    }
  }

  lemma PidsSnoc(tasks: seq<Slot>, n: nat)
    requires 0 < n <= |tasks|
    ensures Pids(tasks, n) == Pids(tasks, n - 1) + [tasks[n - 1].pTask]
  {
  }

  /** The last step of a pass runs slot n-1's callable or nothing. */
  lemma PassStepRan(s: Sched, n: nat, clock: nat -> u32, raises: nat -> set<nat>)
    requires 0 < n <= |s.tasks| && ServiceableUpTo(s, n)
    ensures var p, r := PassUpTo(s, n - 1, clock, raises), PassUpTo(s, n, clock, raises);
      s.ran <= p.ran &&
      (r.ran == p.ran || r.ran == p.ran + [s.tasks[n - 1].pTask])
  {
    var p := PassUpTo(s, n - 1, clock, raises);
    assert Serviceable(p, n - 1) by {
      assert SameConfig(p.tasks[n - 1], s.tasks[n - 1]);
      assert Serviceable(s, n - 1);
    }
    assert PassUpTo(s, n, clock, raises) == Service(p, n - 1, clock, raises);
  }

  /** A slot that is suspended when the pass starts comes out of it unchanged. */
  lemma {:induction false} PassSkipsSuspended(s: Sched, n: nat, j: nat, clock: nat -> u32, raises: nat -> set<nat>)
    requires n <= |s.tasks| && ServiceableUpTo(s, n)
    requires j < |s.tasks| && s.tasks[j].suspend
    ensures PassUpTo(s, n, clock, raises).tasks[j] == s.tasks[j]
  {
    if n > 0 {
      PassSkipsSuspended(s, n - 1, j, clock, raises);
      var p := PassUpTo(s, n - 1, clock, raises);
      assert Serviceable(p, n - 1) by {
        assert SameConfig(p.tasks[n - 1], s.tasks[n - 1]);
        assert Serviceable(s, n - 1);
      }
      if j == n - 1 {
        assert p.tasks[j].suspend;
      }
    }
  }

  /** SwitchContents' static index: one step of the round robin. */
  function NextIndex(i: u8, count: nat): (r: u8)
    requires count <= NUMBER_OF_TASKS
    ensures count >= 1 ==> r < count
    ensures i + 1 < count ==> r == i + 1
    ensures i + 1 >= count ==> r == 0
  {
    if i < count - 1 then i + 1 else 0
  }

  /** Starting from the stored index, `count` steps of the round robin visit
      every registered slot exactly once and return to the start. */
  lemma {:induction false} RoundRobinVisitsAll(i: u8, count: nat, k: nat)
    requires 1 <= count <= NUMBER_OF_TASKS && i < count && k <= count
    ensures Iterate(i, count, k) == if i + k < count then i + k else i + k - count
  {
    if k > 0 {
      RoundRobinVisitsAll(i, count, k - 1);
    }
  }

  function Iterate(i: u8, count: nat, k: nat): u8
    requires count <= NUMBER_OF_TASKS
  {
    if k == 0 then i else NextIndex(Iterate(i, count, k - 1), count)
  }

  // ---------------------------------------------------------------------
  // Registration as a function of the state it touches.

  /** The slots and currentNumberOfTasks. */
  datatype Registry = Registry(slots: seq<Slot>, count: nat)

  /** The code AddTaskSignal and AddTaskTime return when `count` slots are taken. */
  function AddStatus(count: nat, aTask: TaskFn): (r: u8)
    ensures r == TASK_OK <==> count < NUMBER_OF_TASKS && aTask != NULL_TASK
    ensures r == TASK_ERROR_MAX_NUMBER_OF_TASK_REACHED <==> count >= NUMBER_OF_TASKS
  {
    if count >= NUMBER_OF_TASKS then TASK_ERROR_MAX_NUMBER_OF_TASK_REACHED
    else if aTask == NULL_TASK then TASK_ERROR_NULL_TASK
    else TASK_OK
  }

  /** AddTaskSignal: the next free slot gets the callable and the trigger, with the timer off. */
  function AddSignal(g: Registry, aTask: TaskFn, aTrigger: Trigger, aEnable: u8): Registry
    requires |g.slots| == NUMBER_OF_TASKS
  {
    if AddStatus(g.count, aTask) != TASK_OK then g
    else
      var t := g.slots[g.count];
      Registry(g.slots[g.count := t.(pTask := aTask, pTrigger := aTrigger, useTimer := false, suspend := aEnable == 0)],
               g.count + 1)
  }

  /**
   * AddTaskTime: the next free slot gets the callable, the period and the
   * n-th reading of the clock, with no trigger.
   */
  function AddTime(g: Registry, aTask: TaskFn, aTime: u32, aEnable: u8, clock: nat -> u32, n: nat): Registry
    requires |g.slots| == NUMBER_OF_TASKS
  {
    if AddStatus(g.count, aTask) != TASK_OK then g
    else
      var t := g.slots[g.count];
      Registry(g.slots[g.count := t.(pTask := aTask, timeOut := aTime, timeCnt := clock(n), useTimer := true,
                                     pTrigger := NoTrigger, suspend := aEnable == 0)],
               g.count + 1)
  }

  /**
   * A registration either fails and changes nothing, or fills exactly the
   * first free slot: the slots before it and after it are kept, and the
   * table never holds more than NUMBER_OF_TASKS.
   */
  lemma AddKeepsOthers(g: Registry, aTask: TaskFn, aTrigger: Trigger, aTime: u32, aEnable: u8, clock: nat -> u32, n: nat)
    requires |g.slots| == NUMBER_OF_TASKS && g.count <= NUMBER_OF_TASKS
    ensures var s, t := AddSignal(g, aTask, aTrigger, aEnable), AddTime(g, aTask, aTime, aEnable, clock, n);
      |s.slots| == |t.slots| == NUMBER_OF_TASKS && s.count <= NUMBER_OF_TASKS && t.count <= NUMBER_OF_TASKS
      && (AddStatus(g.count, aTask) != TASK_OK ==> s == g && t == g)
      && (AddStatus(g.count, aTask) == TASK_OK ==>
            s.count == t.count == g.count + 1
            && s.slots[g.count].pTask == t.slots[g.count].pTask == aTask
            && (forall k :: 0 <= k < NUMBER_OF_TASKS && k != g.count ==>
                  s.slots[k] == g.slots[k] && t.slots[k] == g.slots[k]))
  {
  }

  // ---------------------------------------------------------------------
  // The table itself.

  class TaskTable {
    /** task[NUMBER_OF_TASKS] and currentNumberOfTasks. */
    const task: array<Slot>
    var currentNumberOfTasks: nat
    /** The flag cells that signal slots point at. */
    const flags: array<u8>
    /** How many readings of `micros` have been taken. */
    var readings: nat
    /** The callables run so far, in order. */
    var ran: seq<TaskFn>
    /** The static index of SwitchContents. */
    var switchIndex: u8
    /** The readings of `micros`, in order. */
    const clock: nat -> u32
    /** The flag cells the interrupt raises while the n-th callable runs. */
    const raises: nat -> set<nat>

    ghost predicate Valid()
      reads this
    {
      task.Length == NUMBER_OF_TASKS && currentNumberOfTasks <= NUMBER_OF_TASKS
    }

    ghost function State(): Sched
      reads this, task, flags
    {
      Sched(task[..], flags[..], readings, ran)
    }

    ghost function Registered(): Registry
      reads this, task
    {
      Registry(task[..], currentNumberOfTasks)
    }

    /** The zero-initialised static storage, with `cells` flag cells. */
    constructor (clock: nat -> u32, raises: nat -> set<nat>, cells: nat)
      ensures Valid() && fresh(task) && fresh(flags)
      ensures this.clock == clock && this.raises == raises
      ensures currentNumberOfTasks == 0 && readings == 0 && ran == [] && switchIndex == 0
      ensures forall k :: 0 <= k < task.Length ==> task[k] == EmptySlot
      ensures flags.Length == cells && forall k :: 0 <= k < cells ==> flags[k] == 0
    {
      task := new Slot[NUMBER_OF_TASKS](_ => EmptySlot);
      flags := new u8[cells](_ => 0);
      currentNumberOfTasks := 0;
      readings := 0;
      ran := [];
      switchIndex := 0;
      this.clock := clock;
      this.raises := raises;
    }

    /** Reads `micros`. */
    method Micros() returns (now: u32)
      modifies this`readings
      ensures now == clock(old(readings)) && readings == old(readings) + 1
    {
      now := clock(readings);
      readings := readings + 1;
    }

    /** Calls the callable f. */
    method RunTask(f: TaskFn)
      modifies this`ran, flags
      ensures ran == old(ran) + [f]
      ensures flags[..] == Raise(old(flags[..]), raises(|old(ran)|))
    {
      var cells := raises(|ran|);
      forall k | 0 <= k < flags.Length && k in cells {
        flags[k] := 1;
      }
      ran := ran + [f];
    }

    /** InitTasks: clears all 32 slots and the count. */
    method InitTasks()
      requires Valid()
      modifies this`currentNumberOfTasks, task
      ensures Valid() && currentNumberOfTasks == 0
      ensures forall k :: 0 <= k < task.Length ==> task[k] == EmptySlot
    {
      var k := 0;
      while k < task.Length
        invariant 0 <= k <= task.Length
        invariant forall m :: 0 <= m < k ==> task[m] == EmptySlot
      {
        task[k] := EmptySlot;
        k := k + 1;
      }
      currentNumberOfTasks := 0;
    }

    /** AddTaskSignal: registers a signal-triggered slot. */
    method AddTaskSignal(aTask: TaskFn, aTrigger: Trigger, aEnable: u8) returns (r: u8)
      requires Valid()
      modifies this`currentNumberOfTasks, task
      ensures Valid() && r == AddStatus(old(currentNumberOfTasks), aTask)
      ensures Registered() == AddSignal(old(Registered()), aTask, aTrigger, aEnable)
    {
      if currentNumberOfTasks < NUMBER_OF_TASKS {
        if aTask != NULL_TASK {
          var n := currentNumberOfTasks;
          task[n] := task[n].(pTask := aTask, pTrigger := aTrigger, useTimer := false, suspend := aEnable == 0);
          currentNumberOfTasks := n + 1;
          return TASK_OK;
        } else {
          return TASK_ERROR_NULL_TASK;
        }
      } else {
        return TASK_ERROR_MAX_NUMBER_OF_TASK_REACHED;
      }
    }

    /** AddTaskTime: registers a time-triggered slot, stamped with the current reading. */
    method AddTaskTime(aTask: TaskFn, aTime: u32, aEnable: u8) returns (r: u8)
      requires Valid()
      modifies this`currentNumberOfTasks, this`readings, task
      ensures Valid() && r == AddStatus(old(currentNumberOfTasks), aTask)
      ensures Registered() == AddTime(old(Registered()), aTask, aTime, aEnable, clock, old(readings))
      ensures readings == old(readings) + (if r == TASK_OK then 1 else 0)
    {
      if currentNumberOfTasks < NUMBER_OF_TASKS {
        if aTask != NULL_TASK {
          var n := currentNumberOfTasks;
          var now := Micros();
          task[n] := task[n].(pTask := aTask, timeOut := aTime, timeCnt := now,
                              useTimer := true, pTrigger := NoTrigger, suspend := aEnable == 0);
          currentNumberOfTasks := n + 1;
          return TASK_OK;
        } else {
          return TASK_ERROR_NULL_TASK;
        }
      } else {
        return TASK_ERROR_MAX_NUMBER_OF_TASK_REACHED;
      }
    }

    /** FindTaskPID: the lowest registered slot running aTask, else 0xFFFF. */
    method FindTaskPID(aTask: TaskFn) returns (pid: u16)
      requires Valid()
      ensures pid == PID_NOT_FOUND <==>
        forall k :: 0 <= k < currentNumberOfTasks ==> task[k].pTask != aTask
      ensures pid != PID_NOT_FOUND ==>
        pid < currentNumberOfTasks && task[pid].pTask == aTask
        && forall k :: 0 <= k < pid ==> task[k].pTask != aTask
    {
      var i := 0;
      while i < currentNumberOfTasks
        invariant 0 <= i <= currentNumberOfTasks
        invariant forall k :: 0 <= k < i ==> task[k].pTask != aTask
      {
        if task[i].pTask == aTask {
          return i;
        }
        i := i + 1;
      }
      return PID_NOT_FOUND;
    }

    /** SetTaskEnabled: the slot's suspend bit becomes !aEnable. */
    method SetTaskEnabled(pid: nat, aEnable: u8)
      requires Valid() && pid < task.Length
      modifies task
      ensures task[..] == old(task[..])[pid := old(task[pid]).(suspend := aEnable == 0)]
    {
      task[pid] := task[pid].(suspend := aEnable == 0);
    }

    /**
     * SetTaskEnabled_Func: enables or suspends the first slot running aFunc.
     * The source indexes the table with FindTaskPID's answer unchecked, so the
     * callable must be registered.
     */
    method SetTaskEnabled_Func(aFunc: TaskFn, aEnable: u8)
      requires Valid()
      requires exists k :: 0 <= k < currentNumberOfTasks && task[k].pTask == aFunc
      modifies task
      ensures exists pid :: (0 <= pid < currentNumberOfTasks && task[pid].pTask == aFunc
        && (forall k :: 0 <= k < pid ==> task[k].pTask != aFunc)
        && task[..] == old(task[..])[pid := old(task[pid]).(suspend := aEnable == 0)])
    {
      var pid := FindTaskPID(aFunc);
      SetTaskEnabled(pid, aEnable);
    }

    /** TaskManager: Percent := RunTimeCnt and RunTimeCnt := 0 on every registered slot. */
    method TaskManager()
      requires Valid()
      modifies task
      ensures forall k :: 0 <= k < currentNumberOfTasks ==>
        task[k] == old(task[k]).(percent := old(task[k].runTimeCnt), runTimeCnt := 0)
      ensures forall k :: currentNumberOfTasks <= k < task.Length ==> task[k] == old(task[k])
    {
      var i := 0;
      while i < currentNumberOfTasks
        invariant 0 <= i <= currentNumberOfTasks
        invariant forall k :: 0 <= k < i ==>
          task[k] == old(task[k]).(percent := old(task[k].runTimeCnt), runTimeCnt := 0)
        invariant forall k :: i <= k < task.Length ==> task[k] == old(task[k])
      {
        task[i] := task[i].(percent := task[i].runTimeCnt, runTimeCnt := 0);
        i := i + 1;
      }
    }

    /** The body shared by the scheduling loop and SwitchContents. */
    method ServiceSlot(i: nat)
      requires Valid() && i < task.Length && Serviceable(State(), i)
      modifies this`readings, this`ran, task, flags
      ensures State() == Service(old(State()), i, clock, raises)
    {
      var t := task[i];
      if !t.suspend {
        if !t.useTimer {
          var c := t.pTrigger.cell;
          if flags[c] != 0 {
            ghost var s0 := State();
            var before := Micros();
            RunTask(t.pTask);
            ghost var s1 := RunCallable(s0.(readings := s0.readings + 1), t.pTask, raises);
            assert State() == s1;
            var after := Micros();
            task[i] := t.(runTimeCnt := Add32(t.runTimeCnt, Sub32(after, before)));
            flags[c] := 0;
            assert State() == Service(s0, i, clock, raises);
          }
        } else {
          var now := Micros();
          if Timeout(now, t.timeCnt, t.timeOut) {
            ghost var s0 := old(State());
            var before := Micros();
            RunTask(t.pTask);
            ghost var s1 := RunCallable(s0.(readings := s0.readings + 2), t.pTask, raises);
            assert State() == s1;
            var after := Micros();
            var stamp := Micros();
            task[i] := t.(runTimeCnt := Add32(t.runTimeCnt, Sub32(after, before)), timeCnt := stamp);
            assert State() == Service(s0, i, clock, raises);
          }
        }
      }
    }

    /** One pass of TasksScheduler's endless loop: slots 0..count-1 in order. */
    method TasksSchedulerPass()
      requires Valid() && ServiceableUpTo(State(), currentNumberOfTasks)
      modifies this`readings, this`ran, task, flags
      ensures State() == PassUpTo(old(State()), currentNumberOfTasks, clock, raises)
    {
      var i := 0;
      while i < currentNumberOfTasks
        invariant 0 <= i <= currentNumberOfTasks
        invariant |old(State()).tasks| == task.Length
        invariant State() == PassUpTo(old(State()), i, clock, raises)
      {
        ghost var p := State();
        assert Serviceable(p, i) by {
          assert SameConfig(p.tasks[i], old(State()).tasks[i]);
          assert Serviceable(old(State()), i);
        }
        ServiceSlot(i);
        i := i + 1;
      }
    }

    /** SwitchContents: advances the round-robin index, then services that one slot. */
    method SwitchContents()
      requires Valid()
      requires Serviceable(State(), NextIndex(switchIndex, currentNumberOfTasks))
      modifies this`switchIndex, this`readings, this`ran, task, flags
      ensures switchIndex == NextIndex(old(switchIndex), currentNumberOfTasks)
      ensures State() == Service(old(State()), switchIndex, clock, raises)
    {
      if switchIndex < currentNumberOfTasks - 1 {
        switchIndex := switchIndex + 1;
      } else {
        switchIndex := 0;
      }
      ServiceSlot(switchIndex);
    }
  }
}
