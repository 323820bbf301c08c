/**
 The bounded queue between reader and loader: the object with its wake list, and the tasks that wait
 on it, under any interleaving of pushes, pops, close and aborts.
 */
module BoundedQueue {
  import opened Wrappers

  // ----- one turn of push, pop and close -----

  /** The queue's own variables. `wake` lists the waits registered since the last notify. */
  datatype Buffer<T> = Buffer(items: seq<T>, closed: bool, wake: seq<nat>)

  /** What one turn of `push` or `pop` does to its caller. */
  datatype Outcome<T> = Pushed | Popped(value: Option<T>) | Waits | Rejected

  datatype Turn<T> = Turn(buffer: Buffer<T>, outcome: Outcome<T>, woken: seq<nat>)

  function Limit(capacity: int): (limit: nat)
    ensures limit >= 1
  {
    if capacity < 1 then 1 else capacity
  }

  /** `notify`: everything registered is resolved, and the list starts anew. */
  function Notified<T>(b: Buffer<T>, outcome: Outcome<T>): Turn<T> {
    Turn(b.(wake := []), outcome, b.wake)
  }

  function PushTurn<T>(b: Buffer<T>, limit: nat, id: nat, item: T, aborted: bool): Turn<T> {
    if aborted then Turn(b, Rejected, [])
    else if |b.items| >= limit then Turn(b.(wake := b.wake + [id]), Waits, [])
    else Notified(b.(items := b.items + [item]), Pushed)
  }

  function PopTurn<T>(b: Buffer<T>, id: nat, aborted: bool): Turn<T> {
    if b.items != [] then Notified(b.(items := b.items[1..]), Popped(Some(b.items[0])))
    else if b.closed then Turn(b, Popped(None), [])
    else if aborted then Turn(b, Rejected, [])
    else Turn(b.(wake := b.wake + [id]), Waits, [])
  }

  function CloseTurn<T>(b: Buffer<T>): Turn<T> {
    Notified(b.(closed := true), Pushed)
  }

  class Queue<T> {
    const limit: nat
    var items: seq<T>
    var closed: bool
    var wake: seq<nat>

    ghost function Contents(): Buffer<T>
      reads this
    {
      Buffer(items, closed, wake)
    }

    constructor (capacity: int)
      ensures limit == Limit(capacity) && Contents() == Buffer([], false, [])
      ensures limit == (if capacity >= 1 then capacity else 1) && items == [] && !closed && wake == []
    {
      limit := Limit(capacity);
      items, closed, wake := [], false, [];
    }

    method Notify() returns (woken: seq<nat>)
      modifies this`wake
      ensures woken == old(wake) && wake == []
    {
      woken := wake;
      wake := [];
    }

    /** One turn of the loop in `push`; `Waits` means the caller sleeps until its id is woken. */
    method Push(id: nat, item: T, aborted: bool) returns (outcome: Outcome<T>, woken: seq<nat>)
      modifies this
      ensures Turn(Contents(), outcome, woken) == PushTurn(old(Contents()), limit, id, item, aborted)
      ensures aborted ==> outcome == Rejected && items == old(items) && wake == old(wake) && woken == []
      ensures !aborted && |old(items)| < limit ==> outcome == Pushed && items == old(items) + [item] && woken == old(wake) && wake == []
      ensures !aborted && |old(items)| >= limit ==> outcome == Waits && items == old(items) && wake == old(wake) + [id] && woken == []
      ensures closed == old(closed)
    {
      woken := [];
      if |items| >= limit {
        if aborted {
          outcome := Rejected;
        } else {
          wake := wake + [id];
          outcome := Waits;
        }
      } else if aborted {
        outcome := Rejected;
      } else {
        items := items + [item];
        woken := Notify();
        outcome := Pushed;
      }
    }

    /** One turn of the loop in `pop`; an item is handed out even to an aborted caller. */
    method Pop(id: nat, aborted: bool) returns (outcome: Outcome<T>, woken: seq<nat>)
      modifies this
      ensures Turn(Contents(), outcome, woken) == PopTurn(old(Contents()), id, aborted)
      ensures old(items) != [] ==> outcome == Popped(Some(old(items)[0])) && items == old(items)[1..] && woken == old(wake) && wake == []
      ensures old(items) == [] ==> items == [] && woken == []
      ensures old(items) == [] && closed ==> outcome == Popped(None) && wake == old(wake)
      ensures old(items) == [] && !closed && aborted ==> outcome == Rejected && wake == old(wake)
      ensures old(items) == [] && !closed && !aborted ==> outcome == Waits && wake == old(wake) + [id]
      ensures closed == old(closed)
    {
      woken := [];
      if |items| == 0 {
        if closed {
          outcome := Popped(None);
        } else if aborted {
          outcome := Rejected;
        } else {
          wake := wake + [id];
          outcome := Waits;
        }
      } else {
        outcome := Popped(Some(items[0]));
        items := items[1..];
        woken := Notify();
      }
    }

    method Close() returns (woken: seq<nat>)
      modifies this
      ensures Turn(Contents(), Pushed, woken) == CloseTurn(old(Contents()))
      ensures closed && items == old(items) && woken == old(wake) && wake == []
    {
      closed := true;
      woken := Notify();
    }
  }

  // ----- the tasks around it -----

  datatype Task<T> = Pusher(item: T) | Popper

  /** The queue and its callers: asleep in a wait, or about to run their next turn. */
  datatype Sys<T> = Sys(buffer: Buffer<T>, asleep: map<nat, Task<T>>, ready: map<nat, Task<T>>, pushed: seq<T>, popped: seq<T>)

  datatype Step<T> = Call(id: nat, task: Task<T>) | Run(id: nat, aborted: bool) | AbortWait(id: nat) | Close

  function Fresh<T>(): Sys<T> {
    Sys(Buffer([], false, []), map[], map[], [], [])
  }

  function TurnOf<T>(s: Sys<T>, limit: nat, id: nat, aborted: bool): Turn<T>
    requires id in s.ready
  {
    match s.ready[id]
    case Pusher(item) => PushTurn(s.buffer, limit, id, item, aborted)
    case Popper => PopTurn(s.buffer, id, aborted)
  }

  predicate Enabled<T>(s: Sys<T>, step: Step<T>) {
    match step
    case Call(id, _) => id !in s.asleep && id !in s.ready
    case Run(id, _) => id in s.ready
    case AbortWait(id) => id in s.asleep
    case Close => true
  }

  /** Woken callers get another turn; ids whose wait was aborted are stale and wake nobody. */
  function Wake<T>(s: Sys<T>, woken: seq<nat>): Sys<T> {
    s.(asleep := map id | id in s.asleep && id !in woken :: s.asleep[id],
       ready := s.ready + map id | id in s.asleep && id in woken :: s.asleep[id])
  }

  /** A turn takes effect: the caller returns or sleeps, and the woken run again. */
  function Ran<T>(s: Sys<T>, id: nat, turn: Turn<T>): Sys<T>
    requires id in s.ready
  {
    var task := s.ready[id];
    var left := s.(buffer := turn.buffer, ready := s.ready - {id},
                   asleep := if turn.outcome.Waits? then s.asleep[id := task] else s.asleep,
                   pushed := if turn.outcome.Pushed? && task.Pusher? then s.pushed + [task.item] else s.pushed,
                   popped := if turn.outcome.Popped? && turn.outcome.value.Some? then s.popped + [turn.outcome.value.value] else s.popped);
    Wake(left, turn.woken)
  }

  function Next<T>(s: Sys<T>, limit: nat, step: Step<T>): Sys<T>
    requires Enabled(s, step)
  {
    match step
    case Call(id, task) => s.(ready := s.ready[id := task])
    case Run(id, aborted) => Ran(s, id, TurnOf(s, limit, id, aborted))
    case AbortWait(id) => s.(asleep := s.asleep - {id})
    case Close =>
      var turn := CloseTurn(s.buffer);
      Wake(s.(buffer := turn.buffer), turn.woken)
  }

  // ----- what every interleaving keeps -----

  /** A sleeper is registered, and sleeps for a reason that still holds. */
  predicate SleepsRightly<T>(b: Buffer<T>, limit: nat, id: nat, task: Task<T>) {
    && id in b.wake
    && (task.Pusher? ==> |b.items| >= limit)
    && (task.Popper? ==> b.items == [] && !b.closed)
  }

  ghost predicate Inv<T>(s: Sys<T>, limit: nat) {
    && |s.buffer.items| <= limit
    && s.popped + s.buffer.items == s.pushed
    && forall id :: id in s.asleep ==> SleepsRightly(s.buffer, limit, id, s.asleep[id])
  }

  lemma PushKeepsOrder<T>(a: seq<T>, b: seq<T>, item: T)
    ensures a + (b + [item]) == (a + b) + [item]
  {
  }

  lemma PopKeepsOrder<T>(a: seq<T>, b: seq<T>)
    requires b != []
    ensures (a + [b[0]]) + b[1..] == a + b
  {
  }

  lemma RunKeepsInv<T>(s: Sys<T>, limit: nat, id: nat, aborted: bool)
    requires limit >= 1 && Inv(s, limit) && id in s.ready && id !in s.asleep
    ensures Inv(Next(s, limit, Run(id, aborted)), limit)
  {
    var t := Next(s, limit, Run(id, aborted));
    match s.ready[id]
    case Pusher(item) => PushKeepsOrder(s.popped, s.buffer.items, item);
    case Popper =>
      if s.buffer.items != [] {
        PopKeepsOrder(s.popped, s.buffer.items);
      }
  }

  /** No caller is asleep and about to run at once. */
  predicate Apart<T>(s: Sys<T>) {
    forall id :: id in s.asleep ==> id !in s.ready
  }

  lemma StepKeepsInv<T>(s: Sys<T>, limit: nat, step: Step<T>)
    requires limit >= 1 && Inv(s, limit) && Apart(s) && Enabled(s, step)
    ensures Inv(Next(s, limit, step), limit) && Apart(Next(s, limit, step))
  {
    if step.Run? {
      RunKeepsInv(s, limit, step.id, step.aborted);
    }
  }

  ghost predicate IsRun<T(!new)>(limit: nat, states: seq<Sys<T>>, steps: seq<Step<T>>) {
    && |states| == |steps| + 1
    && states[0] == Fresh()
    && forall i :: 0 <= i < |steps| ==> Enabled(states[i], steps[i]) && states[i + 1] == Next(states[i], limit, steps[i])
  }

  lemma {:induction false} RunsKeepInv<T(!new)>(capacity: int, states: seq<Sys<T>>, steps: seq<Step<T>>)
    requires IsRun(Limit(capacity), states, steps)
    ensures Inv(states[|steps|], Limit(capacity)) && Apart(states[|steps|])
  {
    if steps != [] {
      var n := |steps| - 1;
      RunsKeepInv(capacity, states[..n + 1], steps[..n]);
      StepKeepsInv(states[n], Limit(capacity), steps[n]);
    }
  }

  /** What was popped is a prefix of what was pushed, and the rest fits the capacity. */
  lemma FirstInFirstOut<T(!new)>(capacity: int, states: seq<Sys<T>>, steps: seq<Step<T>>)
    requires IsRun(Limit(capacity), states, steps)
    ensures states[|steps|].popped <= states[|steps|].pushed
    ensures |states[|steps|].pushed| - |states[|steps|].popped| <= Limit(capacity)
  {
    RunsKeepInv(capacity, states, steps);
  }

  /**
   No wake-up is lost: a sleeping pusher means a full queue, a sleeping popper an empty, open one, so
   the two never sleep at the same time.
   */
  lemma NoLostWakeUp<T(!new)>(capacity: int, states: seq<Sys<T>>, steps: seq<Step<T>>, id: nat, other: nat)
    requires IsRun(Limit(capacity), states, steps) && id in states[|steps|].asleep
    ensures var s := states[|steps|];
      && id in s.buffer.wake
      && (s.asleep[id].Pusher? ==> |s.buffer.items| == Limit(capacity))
      && (s.asleep[id].Popper? ==> s.buffer.items == [] && !s.buffer.closed)
      && (other in s.asleep ==> s.asleep[id].Pusher? == s.asleep[other].Pusher?)
  {
    RunsKeepInv(capacity, states, steps);
  }

  // ----- behind the end -----

  /** Step `i` is a `pop` that reports the end: the queue is closed and drained. */
  predicate EndsAt<T(==)>(limit: nat, states: seq<Sys<T>>, steps: seq<Step<T>>, i: nat) {
    && i < |steps| && i < |states| && steps[i].Run? && steps[i].id in states[i].ready
    && TurnOf(states[i], limit, steps[i].id, steps[i].aborted).outcome == Popped(None)
  }

  lemma {:induction false} OnlyGrow<T(!new)>(limit: nat, states: seq<Sys<T>>, steps: seq<Step<T>>, i: nat, j: nat)
    requires IsRun(limit, states, steps) && i <= j <= |steps|
    ensures states[i].pushed <= states[j].pushed && states[i].popped <= states[j].popped
  {
    if i < j {
      OnlyGrow(limit, states, steps, i, j - 1);
      assert Enabled(states[j - 1], steps[j - 1]) && states[j] == Next(states[j - 1], limit, steps[j - 1]);
    }
  }

  lemma RunPrefix<T(!new)>(limit: nat, states: seq<Sys<T>>, steps: seq<Step<T>>, i: nat)
    requires IsRun(limit, states, steps) && i <= |steps|
    ensures IsRun(limit, states[..i + 1], steps[..i])
  {
  }

  /**
   When a `pop` reports the end, everything pushed so far was handed out. Whatever is handed out later
   was pushed behind that end, so the end is final exactly as long as nothing is pushed behind it.
   */
  lemma EndMeansDrained<T(!new)>(capacity: int, states: seq<Sys<T>>, steps: seq<Step<T>>, i: nat, j: nat)
    requires IsRun(Limit(capacity), states, steps) && EndsAt(Limit(capacity), states, steps, i) && i <= j <= |steps|
    ensures states[i].popped == states[i].pushed <= states[j].popped <= states[j].pushed
    ensures states[j].buffer.items == states[j].pushed[|states[j].popped|..]
    ensures states[j].pushed == states[i].pushed ==> states[j].buffer.items == [] && states[j].popped == states[i].popped
  {
    RunPrefix(Limit(capacity), states, steps, i);
    RunsKeepInv(capacity, states[..i + 1], steps[..i]);
    RunPrefix(Limit(capacity), states, steps, j);
    RunsKeepInv(capacity, states[..j + 1], steps[..j]);
    OnlyGrow(Limit(capacity), states, steps, i, j);
    assert states[..i + 1][i] == states[i] && states[..j + 1][j] == states[j];
    assert states[i].popped + [] == states[i].popped;
  }

  lemma OneStepMore<T(!new)>(limit: nat, states: seq<Sys<T>>, steps: seq<Step<T>>, step: Step<T>, t: Sys<T>)
    requires IsRun(limit, states, steps) && Enabled(states[|steps|], step) && t == Next(states[|steps|], limit, step)
    ensures IsRun(limit, states + [t], steps + [step])
  {
    hide Enabled, Next;
  }

  /** `n` items wait in an open queue that nobody waits for. */
  function Filled<T>(items: seq<T>): Sys<T> {
    Sys(Buffer(items, false, []), map[], map[], items, [])
  }

  lemma {:induction false} Fill<T(!new)>(limit: nat, items: seq<T>) returns (states: seq<Sys<T>>, steps: seq<Step<T>>)
    requires |items| <= limit
    ensures IsRun(limit, states, steps) && states[|steps|] == Filled(items)
  {
    if items == [] {
      states, steps := [Fresh()], [];
    } else {
      var front, last := items[..|items| - 1], items[|items| - 1];
      states, steps := Fill(limit, front);
      var called := Filled(front).(ready := map[0 := Pusher(last)]);
      OneStepMore(limit, states, steps, Call(0, Pusher(last)), called);
      states, steps := states + [called], steps + [Call(0, Pusher(last))];
      assert front + [last] == items;
      OneStepMore(limit, states, steps, Run(0, false), Filled(items));
      states, steps := states + [Filled(items)], steps + [Run(0, false)];
    }
  }

  /** The queue was closed, and `k` of its items were handed out. */
  function Closed<T>(items: seq<T>, k: nat): Sys<T>
    requires k <= |items|
  {
    Sys(Buffer(items[k..], true, []), map[], map[], items, items[..k])
  }

  function CallPopper<T>(items: seq<T>, k: nat): Sys<T>
    requires k <= |items|
  {
    Closed(items, k).(ready := map[1 := Popper])
  }

  lemma Takes<T>(limit: nat, items: seq<T>, k: nat)
    requires k < |items|
    ensures Enabled(CallPopper(items, k), Run(1, false))
    ensures Next(CallPopper(items, k), limit, Run(1, false)) == Closed(items, k + 1)
  {
    assert items[k..][1..] == items[k + 1..] && items[..k] + [items[k]] == items[..k + 1];
  }

  lemma {:induction false} TakeAll<T(!new)>(limit: nat, items: seq<T>, k: nat) returns (states: seq<Sys<T>>, steps: seq<Step<T>>)
    requires k <= |items| <= limit
    ensures IsRun(limit, states, steps) && states[|steps|] == Closed(items, k)
  {
    if k == 0 {
      states, steps := Fill(limit, items);
      assert items[0..] == items && items[..0] == [];
      OneStepMore(limit, states, steps, Close, Closed(items, 0));
      states, steps := states + [Closed(items, 0)], steps + [Close];
    } else {
      states, steps := TakeAll(limit, items, k - 1);
      var called := CallPopper(items, k - 1);
      OneStepMore(limit, states, steps, Call(1, Popper), called);
      states, steps := states + [called], steps + [Call(1, Popper)];
      Takes(limit, items, k - 1);
      OneStepMore(limit, states, steps, Run(1, false), Closed(items, k));
      states, steps := states + [Closed(items, k)], steps + [Run(1, false)];
    }
  }

  /** Everything was handed out, and a `pop` is told the end. */
  lemma TellEnd<T(!new)>(limit: nat, items: seq<T>) returns (states: seq<Sys<T>>, steps: seq<Step<T>>, i: nat)
    requires |items| <= limit
    ensures IsRun(limit, states, steps) && EndsAt(limit, states, steps, i) && states[|steps|] == Closed(items, |items|)
  {
    states, steps := TakeAll(limit, items, |items|);
    var called := CallPopper(items, |items|);
    OneStepMore(limit, states, steps, Call(1, Popper), called);
    states, steps := states + [called], steps + [Call(1, Popper)];
    i := |steps|;
    OneStepMore(limit, states, steps, Run(1, false), Closed(items, |items|));
    states, steps := states + [Closed(items, |items|)], steps + [Run(1, false)];
  }

  /**
   The end need not be final: a push behind `close` is accepted. For every capacity and all items there
   is a run in which the popper takes everything and is told the end, then an item pushed late waits with
   nobody there to take it, and only a further `pop` hands it out.
   */
  lemma LatePushOutlivesTheEnd<T(!new)>(capacity: int, items: seq<T>, late: T)
    returns (states: seq<Sys<T>>, steps: seq<Step<T>>, i: nat, j: nat)
    requires |items| <= Limit(capacity)
    ensures IsRun(Limit(capacity), states, steps) && EndsAt(Limit(capacity), states, steps, i) && i < j < |steps|
    ensures states[j] == Sys(Buffer([late], true, []), map[], map[], items + [late], items)
    ensures states[|steps|] == Sys(Buffer([], true, []), map[], map[], items + [late], items + [late])
  {
    var limit := Limit(capacity);
    states, steps, i := TellEnd(limit, items);
    assert items[|items|..] == [] && items[..|items|] == items;
    var called := Closed(items, |items|).(ready := map[0 := Pusher(late)]);
    OneStepMore(limit, states, steps, Call(0, Pusher(late)), called);
    states, steps := states + [called], steps + [Call(0, Pusher(late))];
    var waits := Sys(Buffer([late], true, []), map[], map[], items + [late], items);
    assert [] + [late] == [late];
    OneStepMore(limit, states, steps, Run(0, false), waits);
    states, steps := states + [waits], steps + [Run(0, false)];
    j := |steps|;
    HandOutLate(limit, items, late);
    OneStepMore(limit, states, steps, Call(1, Popper), waits.(ready := map[1 := Popper]));
    states, steps := states + [waits.(ready := map[1 := Popper])], steps + [Call(1, Popper)];
    var last := Sys(Buffer([], true, []), map[], map[], items + [late], items + [late]);
    OneStepMore(limit, states, steps, Run(1, false), last);
    states, steps := states + [last], steps + [Run(1, false)];
  }

  lemma HandOutLate<T>(limit: nat, items: seq<T>, late: T)
    ensures var waits := Sys(Buffer([late], true, []), map[], map[1 := Popper], items + [late], items);
      Next(waits, limit, Run(1, false)) == Sys(Buffer([], true, []), map[], map[], items + [late], items + [late])
  {
    assert [late][1..] == [];
  }
}
