/** Threads at a callback: notifiers, waiters and whoever sets the hook take turns under
    one lock. */
module Notifications {
  import opened Options

  datatype Stage = Entered | Stored | Called

  datatype Holder = NoOne | Notifier(stage: Stage) | Waiter

  // `accepted` says that a hook has been set, `finishes` how often it has been called and
  // `passed` how many waiters have gone on.
  datatype Callback = Callback(holder: Holder, notified: bool, hook: bool, accepted: bool, finishes: nat, passed: nat)

  const INITIAL := Callback(NoOne, false, false, false, 0, 0)

  datatype Step = SetOnFinish | NotifierLocks | NotifierStores | NotifierFinishes | NotifierUnlocks | WaiterLocks | WaiterChecks

  function Next(c: Callback, step: Step): Option<Callback> {
    match step
    case SetOnFinish =>
      if c.holder != NoOne then None
      else if c.hook || c.notified then Some(c)
      else Some(c.(hook := true, accepted := true))
    case NotifierLocks =>
      if c.holder != NoOne then None else Some(c.(holder := Notifier(Entered)))
    case NotifierStores =>
      if c.holder != Notifier(Entered) then None
      else if c.notified then Some(c.(holder := NoOne))
      else Some(c.(holder := Notifier(Stored), notified := true))
    case NotifierFinishes =>
      if c.holder != Notifier(Stored) then None
      else if c.hook then Some(c.(holder := Notifier(Called), hook := false, finishes := c.finishes + 1))
      else Some(c.(holder := Notifier(Called)))
    case NotifierUnlocks =>
      if c.holder != Notifier(Called) then None else Some(c.(holder := NoOne))
    case WaiterLocks =>
      if c.holder != NoOne then None else Some(c.(holder := Waiter))
    case WaiterChecks =>
      if c.holder != Waiter then None
      else if c.notified then Some(c.(holder := NoOne, passed := c.passed + 1))
      else Some(c.(holder := NoOne))
  }

  function Run(c: Callback, steps: seq<Step>): Option<Callback>
    decreases |steps|
  {
    if steps == [] then Some(c)
    else
      match Next(c, steps[0])
      case None => None
      case Some(c') => Run(c', steps[1..])
  }

  ghost predicate Inv(c: Callback) {
    && (c.finishes == if c.accepted && !c.hook then 1 else 0)
    && (c.hook ==> c.accepted && (c.notified ==> c.holder == Notifier(Stored)))
    && (c.holder == Notifier(Stored) || c.holder == Notifier(Called) ==> c.notified)
    && (c.accepted && !c.hook ==> c.notified)
    && (c.passed > 0 ==> c.notified && !c.hook)
  }

  lemma {:induction false} RunKeeps(c: Callback, steps: seq<Step>)
    requires Inv(c) && Run(c, steps).Some?
    ensures Inv(Run(c, steps).value)
    decreases |steps|
  {
    if steps != [] { RunKeeps(Next(c, steps[0]).value, steps[1..]); }
  }

  /** However the threads take turns: the hook is called at most once, and once a waiter
      has gone on, a hook that was accepted has been called exactly once. */
  lemma FinishComesFirst(steps: seq<Step>)
    requires Run(INITIAL, steps).Some?
    ensures var c := Run(INITIAL, steps).value;
            && c.finishes <= 1 && (c.passed > 0 ==> c.notified && c.finishes == if c.accepted then 1 else 0)
  {
    RunKeeps(INITIAL, steps);
  }

  /** With nobody at the lock, a hook is taken if and only if none has been taken before and
      nobody has notified. */
  lemma HookIsTaken(steps: seq<Step>)
    requires Run(INITIAL, steps).Some? && Run(INITIAL, steps).value.holder == NoOne
    ensures var c := Run(INITIAL, steps).value;
            && Next(c, SetOnFinish).Some?
            && Next(c, SetOnFinish).value.accepted == (c.accepted || !c.notified)
            && Next(c, SetOnFinish).value.hook == (c.hook || (!c.accepted && !c.notified))
  {
    RunKeeps(INITIAL, steps);
  }

  /** Whoever holds the lock is alone: nobody else can set the hook, notify or wait. */
  lemma HolderIsAlone(steps: seq<Step>)
    requires Run(INITIAL, steps).Some? && Run(INITIAL, steps).value.holder != NoOne
    ensures var c := Run(INITIAL, steps).value;
            Next(c, SetOnFinish).None? && Next(c, NotifierLocks).None? && Next(c, WaiterLocks).None?
    ensures var c := Run(INITIAL, steps).value;
            (c.holder.Notifier? <==> Next(c, WaiterChecks).None?)
            && (c.holder.Waiter? ==> Next(c, NotifierStores).None? && Next(c, NotifierFinishes).None? && Next(c, NotifierUnlocks).None?)
  {
    RunKeeps(INITIAL, steps);
  }

  /** With nobody at the lock, the first notifier calls the hook that was taken, and after
      that whoever waits goes on. Before that nobody does. */
  lemma WaitersGoOn(steps: seq<Step>)
    requires Run(INITIAL, steps).Some? && Run(INITIAL, steps).value.holder == NoOne
    ensures var c := Run(INITIAL, steps).value;
            && Run(c, [WaiterLocks, WaiterChecks]) == Some(if c.notified then c.(passed := c.passed + 1) else c)
            && (!c.notified ==>
                  Run(c, [NotifierLocks, NotifierStores, NotifierFinishes, NotifierUnlocks]) ==
                  Some(c.(notified := true, hook := false, finishes := if c.accepted then 1 else 0)))
            && (c.notified ==> Run(c, [NotifierLocks, NotifierStores]) == Some(c))
  {
    RunKeeps(INITIAL, steps);
    var c := Run(INITIAL, steps).value;
    TwoSteps(c, WaiterLocks, WaiterChecks);
    TwoSteps(c, NotifierLocks, NotifierStores);
    if !c.notified {
      var c' := Run(c, [NotifierLocks, NotifierStores]).value;
      TwoSteps(c', NotifierFinishes, NotifierUnlocks);
      assert [NotifierLocks, NotifierStores, NotifierFinishes, NotifierUnlocks][1..][1..] == [NotifierFinishes, NotifierUnlocks];
    }
  }

  lemma TwoSteps(c: Callback, first: Step, second: Step)
    ensures Run(c, [first, second]) == if Next(c, first).None? then None else Next(Next(c, first).value, second)
  {
    assert [first, second][1..] == [second];
    if Next(c, first).Some? {
      var c' := Next(c, first).value;
      assert [second][1..] == [];
      if Next(c', second).Some? { assert Run(Next(c', second).value, []) == Next(c', second); }
    }
  }
}
