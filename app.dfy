/**
 * The solar water-heater base application: the display cycle, the duty table
 * registered at start-up and the two-pump hysteresis controller.
 */
module App {
  import opened Common
  import opened Tasks
  import Ds1820

  // The callables DefineTasks registers (any distinct non-NULL identifiers).
  const CheckConsoleRx: TaskFn := 1
  const MeasureTemperatures: TaskFn := 2
  const UpdateDisplay: TaskFn := 3
  const PrintTasks: TaskFn := 4
  const TaskManager: TaskFn := 5
  const nRF24_Receive: TaskFn := 6
  const WaterPumpController: TaskFn := 7

  /** The flag cell of m_DebugMsgReceived. */
  const DebugMsgReceived: nat := 0

  /** TIME(x) = x * 1000000 microseconds, for the three periods used. */
  const TIME_HALF_SECOND: u32 := 500000
  const TIME_ONE_SECOND: u32 := 1000000
  const TIME_ONE_MILLISECOND: u32 := 1000

  // ---------------------------------------------------------------------
  // UpdateDisplay

  datatype Screen = TimeScreen | TemperatureScreen

  /** What UpdateDisplay shows for counter c, and the counter it leaves. */
  function DisplayStep(c: u8): (r: (Screen, u8))
    ensures r.0 == TimeScreen <==> c < 3
    ensures r.1 < 6
    ensures c < 5 ==> r.1 == c + 1
    ensures c >= 5 ==> r.1 == 0
  {
    var shown := if c < 3 then TimeScreen else TemperatureScreen;
    var next := (c + 1) % 256;
    (shown, if next >= 6 then 0 else next)
  }

  /** The counter after n calls starting from c. */
  function CounterAfter(c: u8, n: nat): u8
  {
    if n == 0 then c else DisplayStep(CounterAfter(c, n - 1)).1
  }

  /**
   * From the zero-initialised counter, call n (counting from 0) shows the time
   * for n mod 6 in 0..2 and the temperatures for 3..5: time, time, time,
   * temperatures, temperatures, temperatures, repeated.
   */
  lemma {:induction false} DisplayCycle(n: nat)
    ensures CounterAfter(0, n) == n % 6
    ensures DisplayStep(CounterAfter(0, n)).0 == if n % 6 < 3 then TimeScreen else TemperatureScreen
  {
    if n > 0 {
      DisplayCycle(n - 1);
      ModSixStep(n);
    }
  }

  lemma ModSixStep(n: nat)
    requires n > 0
    ensures n % 6 == if (n - 1) % 6 == 5 then 0 else (n - 1) % 6 + 1
  {
    var q, m := (n - 1) / 6, (n - 1) % 6;
    assert n == 6 * q + m + 1;
    if m == 5 {
      assert n == 6 * (q + 1);
    }
  }

  class Display {
    var m_displayCounter: u8

    constructor ()
      ensures m_displayCounter == 0
    {
      m_displayCounter := 0;
    }

    /** UpdateDisplay: shows one screen and advances the counter. */
    method UpdateDisplay() returns (shown: Screen)
      modifies this
      ensures (shown, m_displayCounter) == DisplayStep(old(m_displayCounter))
    {
      if m_displayCounter < 3 {
        shown := TimeScreen;
      } else {
        shown := TemperatureScreen;
      }
      m_displayCounter := (m_displayCounter + 1) % 256;
      if m_displayCounter >= 6 {
        m_displayCounter := 0;
      }
    }
  }

  // ---------------------------------------------------------------------
  // DefineTasks

  /** A slot as a successful AddTaskTime leaves a cleared slot. */
  function TimedSlot(f: TaskFn, period: u32, stamp: u32, enable: bool): Slot
  {
    EmptySlot.(pTask := f, timeOut := period, timeCnt := stamp, useTimer := true,
               pTrigger := NoTrigger, suspend := !enable)
  }

  /** The seven duties, given the counter readings taken while registering. */
  function DutyTable(clock: nat -> u32, r0: nat): (t: seq<Slot>)
    ensures |t| == 7
  {
    [ EmptySlot.(pTask := CheckConsoleRx, pTrigger := Flag(DebugMsgReceived), useTimer := false, suspend := false),
      TimedSlot(MeasureTemperatures, TIME_HALF_SECOND, clock(r0), true),
      TimedSlot(UpdateDisplay, TIME_ONE_SECOND, clock(r0 + 1), true),
      TimedSlot(PrintTasks, TIME_ONE_SECOND, clock(r0 + 2), false),
      TimedSlot(TaskManager, TIME_ONE_SECOND, clock(r0 + 3), false),
      TimedSlot(nRF24_Receive, TIME_ONE_MILLISECOND, clock(r0 + 4), true),
      TimedSlot(WaterPumpController, TIME_ONE_SECOND, clock(r0 + 5), true) ]
  }

  /** Only PrintTasks and TaskManager start suspended; the console duty is the
      only signal slot; every callable is registered exactly once. */
  lemma DutyTableShape(clock: nat -> u32, r0: nat)
    ensures var t := DutyTable(clock, r0);
      (forall k :: 0 <= k < 7 ==> (t[k].suspend <==> t[k].pTask == PrintTasks || t[k].pTask == TaskManager))
      && (forall k :: 0 <= k < 7 ==> (!t[k].useTimer <==> k == 0))
      && (forall k, m :: 0 <= k < m < 7 ==> t[k].pTask != t[m].pTask)
  {
  }

  /** The registered table can be scheduled: its one signal slot points at an
      existing flag cell, so every pass over it is defined. */
  lemma DutyTableServiceable(clock: nat -> u32, r0: nat, s: Sched)
    requires |s.tasks| == NUMBER_OF_TASKS && s.tasks[..7] == DutyTable(clock, r0)
    requires |s.flags| > DebugMsgReceived
    ensures ServiceableUpTo(s, 7)
  {
    forall j | 0 <= j < 7 ensures Serviceable(s, j) {
      assert s.tasks[j] == s.tasks[..7][j];
    }
  }

  /** The registrations DefineTasks makes, from a table holding `g`, with the counter at reading r0. */
  function DutyRegistrations(g: Registry, clock: nat -> u32, r0: nat): Registry
    requires |g.slots| == NUMBER_OF_TASKS
  {
    LastDuties(FirstDuties(g, clock, r0), clock, r0 + 3)
  }

  /** DefineTasks' first four registrations: the console signal, then three timed duties stamped r0..r0+2. */
  function FirstDuties(g: Registry, clock: nat -> u32, r0: nat): (r: Registry)
    requires |g.slots| == NUMBER_OF_TASKS
    ensures |r.slots| == NUMBER_OF_TASKS
  {
    var g1 := AddSignal(g, CheckConsoleRx, Flag(DebugMsgReceived), 1);
    var g2 := AddTime(g1, MeasureTemperatures, TIME_HALF_SECOND, 1, clock, r0);
    var g3 := AddTime(g2, UpdateDisplay, TIME_ONE_SECOND, 1, clock, r0 + 1);
    AddTime(g3, PrintTasks, TIME_ONE_SECOND, 0, clock, r0 + 2)
  }

  /** DefineTasks' last three registrations, timed duties stamped r3..r3+2. */
  function LastDuties(g: Registry, clock: nat -> u32, r3: nat): Registry
    requires |g.slots| == NUMBER_OF_TASKS
  {
    var g5 := AddTime(g, TaskManager, TIME_ONE_SECOND, 0, clock, r3);
    var g6 := AddTime(g5, nRF24_Receive, TIME_ONE_MILLISECOND, 1, clock, r3 + 1);
    AddTime(g6, WaterPumpController, TIME_ONE_SECOND, 1, clock, r3 + 2)
  }

  /** From a cleared table the seven registrations all succeed and fill slots 0..6 with the duty table. */
  lemma DutiesRegistered(g: Registry, clock: nat -> u32, r0: nat)
    requires |g.slots| == NUMBER_OF_TASKS && g.count == 0
    requires forall k :: 0 <= k < NUMBER_OF_TASKS ==> g.slots[k] == EmptySlot
    ensures var r := DutyRegistrations(g, clock, r0);
      r.count == 7 && r.slots[..7] == DutyTable(clock, r0)
      && forall k :: 7 <= k < NUMBER_OF_TASKS ==> r.slots[k] == EmptySlot
  {
    var r := DutyRegistrations(g, clock, r0);
    var want := DutyTable(clock, r0);
    assert r.slots == g.slots[0 := want[0]][1 := want[1]][2 := want[2]][3 := want[3]]
      [4 := want[4]][5 := want[5]][6 := want[6]];
    assert r.slots[..7] == want;
  }

  /** The first four registrations of DefineTasks, into a cleared table. */
  method RegisterFirstDuties(t: TaskTable)
    requires t.Valid() && t.currentNumberOfTasks == 0
    modifies t`currentNumberOfTasks, t`readings, t.task
    ensures t.Valid() && t.currentNumberOfTasks == 4 && t.readings == old(t.readings) + 3
    ensures t.Registered() == FirstDuties(old(t.Registered()), t.clock, old(t.readings))
  {
    var r: u8;
    r := t.AddTaskSignal(CheckConsoleRx, Flag(DebugMsgReceived), 1);
    assert r == TASK_OK;
    r := t.AddTaskTime(MeasureTemperatures, TIME_HALF_SECOND, 1);
    assert r == TASK_OK;
    r := t.AddTaskTime(UpdateDisplay, TIME_ONE_SECOND, 1);
    assert r == TASK_OK;
    r := t.AddTaskTime(PrintTasks, TIME_ONE_SECOND, 0);
    assert r == TASK_OK;
  }

  /** The last three registrations of DefineTasks, after the first four. */
  method RegisterLastDuties(t: TaskTable)
    requires t.Valid() && t.currentNumberOfTasks == 4
    modifies t`currentNumberOfTasks, t`readings, t.task
    ensures t.Valid() && t.currentNumberOfTasks == 7 && t.readings == old(t.readings) + 3
    ensures t.Registered() == LastDuties(old(t.Registered()), t.clock, old(t.readings))
  {
    var r: u8;
    r := t.AddTaskTime(TaskManager, TIME_ONE_SECOND, 0);
    assert r == TASK_OK;
    r := t.AddTaskTime(nRF24_Receive, TIME_ONE_MILLISECOND, 1);
    assert r == TASK_OK;
    r := t.AddTaskTime(WaterPumpController, TIME_ONE_SECOND, 1);
    assert r == TASK_OK;
  }

  /** DefineTasks: clears the table and registers the seven duties in order. */
  method DefineTasks(t: TaskTable)
    requires t.Valid() && t.flags.Length > DebugMsgReceived
    modifies t`currentNumberOfTasks, t`readings, t.task
    ensures t.Valid() && t.readings == old(t.readings) + 6
    ensures t.ran == old(t.ran) && t.switchIndex == old(t.switchIndex)
    ensures var g := t.Registered();
      g.count == 7 && g.slots[..7] == DutyTable(t.clock, old(t.readings))
      && forall k :: 7 <= k < NUMBER_OF_TASKS ==> g.slots[k] == EmptySlot
  {
    var r0 := t.readings;
    t.InitTasks();
    ghost var g0 := t.Registered();
    RegisterFirstDuties(t);
    RegisterLastDuties(t);
    DutiesRegistered(g0, t.clock, r0);
  }

  // ---------------------------------------------------------------------
  // WaterPumpController

  /**
   * One pump's decision: an idle pump starts when the source is at least 3
   * degrees-units above the water heater, a running pump stops when it is at
   * most 1 above, and in between the pump keeps its state.
   */
  function PumpNext(on: bool, source: int, heater: int): (r: bool)
    ensures !on ==> (r <==> source >= heater + 3)
    ensures on ==> (r <==> source > heater + 1)
    // after the decision a running pump has source > heater + 1 and a stopped
    // one has source < heater + 3
    ensures r ==> source > heater + 1
    ensures !r ==> source < heater + 3
  {
    if source >= heater + 3 && !on then true
    else if source <= heater + 1 && on then false
    else on
  }

  /** Inside the hysteresis band the pump keeps its state, whatever it is. */
  lemma PumpBandHolds(on: bool, source: int, heater: int)
    requires heater + 1 < source < heater + 3
    ensures PumpNext(on, source, heater) == on
  {
  }

  class PumpController {
    var m_boilerPump: bool
    var m_collectorPump: bool

    constructor ()
      ensures !m_boilerPump && !m_collectorPump
    {
      m_boilerPump := false;
      m_collectorPump := false;
    }

    /** WaterPumpController: decides both pumps independently; reads only the
        temperatures (`tCollector` is the signed view of m_tCollector). */
    method WaterPumpController(m_temperature: array<i16>, tCollector: i16)
      requires m_temperature.Length == 2
      modifies this
      ensures m_boilerPump ==
        PumpNext(old(m_boilerPump), m_temperature[Ds1820.T_BOILER], m_temperature[Ds1820.T_WATER_HEATER])
      ensures m_collectorPump ==
        PumpNext(old(m_collectorPump), tCollector, m_temperature[Ds1820.T_WATER_HEATER])
    {
      var boiler, heater := m_temperature[Ds1820.T_BOILER] as int, m_temperature[Ds1820.T_WATER_HEATER] as int;
      if boiler >= heater + 3 && !m_boilerPump {
        m_boilerPump := true;
      } else if boiler <= heater + 1 && m_boilerPump {
        m_boilerPump := false;
      }
      if tCollector >= heater + 3 && !m_collectorPump {
        m_collectorPump := true;
      } else if tCollector <= heater + 1 && m_collectorPump {
        m_collectorPump := false;
      }
    }
  }
}
