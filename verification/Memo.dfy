/**
 The run's memo for never-stored steps, shared by the worker threads.

 A thread that asks for a key either starts the producer, waits for the thread that did, or
 takes the recorded result.  A producer first asks for the keys of its parents, on the same
 thread.  Every critical section is one step; steps of different threads interleave freely.
 */
module Memo {
  import opened Model

  /** A (step, coordinate) pair, numbered so that parents come before children. */
  type CellKey = nat
  type Thread = nat

  datatype Result = Value(v: Json) | Error(message: string)

  /** Which keys a key's producer asks for, in order. */
  type Graph = CellKey -> seq<CellKey>

  ghost predicate Acyclic(deps: Graph) {
    forall k: CellKey, d: CellKey :: d in deps(k) ==> d < k
  }

  datatype Entry = Computing(owner: Thread) | Done(result: Result)

  /** One activation of `compute` on a thread's stack. */
  datatype Frame =
    | Asking(key: CellKey)
    | Waiting(key: CellKey)
    | Producing(key: CellKey, next: nat)
    | Raising(key: CellKey, error: Result)

  datatype Return = Return(thread: Thread, key: CellKey, result: Result)

  /**
   The memo table, the threads' stacks (innermost call last), how often each producer has been
   started, and every value or exception a call of `compute` has returned.
   */
  datatype State = State(table: map<CellKey, Entry>, stacks: map<Thread, seq<Frame>>, starts: map<CellKey, nat>, answers: seq<Return>)

  datatype Event =
    | Call(thread: Thread, key: CellKey)
    | Enter(thread: Thread)
    | Wake(thread: Thread)
    | AskParent(thread: Thread)
    | Finish(thread: Thread, result: Result)
    | Raise(thread: Thread, message: string)
    | Record(thread: Thread)

  const INITIAL := State(map[], map[], map[], [])

  function Stack(s: State, t: Thread): seq<Frame> {
    if t in s.stacks then s.stacks[t] else []
  }

  function Starts(s: State, k: CellKey): nat {
    if k in s.starts then s.starts[k] else 0
  }

  function Top(s: State, t: Thread): Option<Frame> {
    var stack := Stack(s, t);
    if stack == [] then None else Some(stack[|stack| - 1])
  }

  function WithTop(s: State, t: Thread, frame: Frame): State
    requires Top(s, t).Some?
  {
    var stack := Stack(s, t);
    s.(stacks := s.stacks[t := stack[..|stack| - 1] + [frame]])
  }

  /** The innermost call returns: to the producer that made it, or to the worker itself. */
  function Returned(s: State, t: Thread, result: Result): State
    requires Top(s, t).Some?
  {
    var stack := Stack(s, t);
    var rest := stack[..|stack| - 1];
    var logged := s.(answers := s.answers + [Return(t, stack[|stack| - 1].key, result)]);
    if rest == [] then logged.(stacks := s.stacks[t := []])
    else
      var caller := rest[|rest| - 1];
      var next := if result.Error? then Raising(caller.key, result)
                  else if caller.Producing? then Producing(caller.key, caller.next + 1) else caller;
      logged.(stacks := s.stacks[t := rest[..|rest| - 1] + [next]])
  }

  /** One step; an event that is not enabled changes nothing. */
  function Next(deps: Graph, s: State, e: Event): State {
    var t, top := e.thread, Top(s, e.thread);
    match e
    case Call(_, k) => if Stack(s, t) == [] then s.(stacks := s.stacks[t := [Asking(k)]]) else s
    case Enter(_) =>
      if top.None? || !top.value.Asking? then s
      else
        var k := top.value.key;
        if k !in s.table then
          WithTop(s, t, Producing(k, 0)).(table := s.table[k := Computing(t)], starts := s.starts[k := Starts(s, k) + 1])
        else if s.table[k].Done? then Returned(s, t, s.table[k].result)
        else WithTop(s, t, Waiting(k))
    case Wake(_) =>
      if top.None? || !top.value.Waiting? then s
      else
        var k := top.value.key;
        if k in s.table && s.table[k].Done? then Returned(s, t, s.table[k].result) else s
    case AskParent(_) =>
      if top.None? || !top.value.Producing? || top.value.next >= |deps(top.value.key)| then s
      else s.(stacks := s.stacks[t := Stack(s, t) + [Asking(deps(top.value.key)[top.value.next])]])
    case Finish(_, result) =>
      if top.None? || !top.value.Producing? || top.value.next < |deps(top.value.key)| || result.Error? then s
      else Returned(s.(table := s.table[top.value.key := Done(result)]), t, result)
    case Raise(_, message) =>
      if top.None? || !top.value.Producing? then s
      else WithTop(s, t, Raising(top.value.key, Error(message)))
    case Record(_) =>
      if top.None? || !top.value.Raising? then s
      else Returned(s.(table := s.table[top.value.key := Done(top.value.error)]), t, top.value.error)
  }

  function After(deps: Graph, h: seq<Event>): State {
    if h == [] then INITIAL else Next(deps, After(deps, h[..|h| - 1]), h[|h| - 1])
  }

  // ---------------------------------------------------------------------------
  // the invariant
  // ---------------------------------------------------------------------------

  predicate AtWork(frame: Frame) {
    frame.Producing? || frame.Raising?
  }

  /** Only the innermost call can be asking, waiting or raising; inner calls have smaller keys. */
  predicate StackOk(deps: Graph, stack: seq<Frame>) {
    && (forall i :: 0 <= i < |stack| - 1 ==> stack[i].Producing?)
    && (forall i :: 0 <= i < |stack| && stack[i].Raising? ==> stack[i].error.Error?)
    && (forall i, j :: 0 <= i < j < |stack| ==> stack[j].key < stack[i].key)
  }

  /** A producer on a stack owns its key. */
  predicate Owned(s: State, t: Thread) {
    forall i :: 0 <= i < |Stack(s, t)| && AtWork(Stack(s, t)[i]) ==>
      Stack(s, t)[i].key in s.table && s.table[Stack(s, t)[i].key] == Computing(t)
  }

  /** What a thread waits for has been started. */
  predicate WaitsForStarted(s: State, t: Thread) {
    Top(s, t).Some? && Top(s, t).value.Waiting? ==> Top(s, t).value.key in s.table
  }

  ghost predicate StacksOk(deps: Graph, s: State) {
    forall t :: StackOk(deps, Stack(s, t)) && Owned(s, t) && WaitsForStarted(s, t)
  }

  ghost predicate OnStack(s: State, t: Thread, k: CellKey) {
    exists i :: 0 <= i < |Stack(s, t)| && AtWork(Stack(s, t)[i]) && Stack(s, t)[i].key == k
  }

  /** Every unfinished key is being produced by its owner. */
  ghost predicate Worked(s: State) {
    forall k :: k in s.table && s.table[k].Computing? ==> OnStack(s, s.table[k].owner, k)
  }

  ghost predicate Counted(s: State) {
    forall k :: Starts(s, k) == if k in s.table then 1 else 0
  }

  ghost predicate Logged(s: State) {
    forall i :: 0 <= i < |s.answers| ==>
      s.answers[i].key in s.table && s.table[s.answers[i].key] == Done(s.answers[i].result)
  }

  ghost predicate Inv(deps: Graph, s: State) {
    StacksOk(deps, s) && Worked(s) && Counted(s) && Logged(s)
  }

  lemma CountedStep(deps: Graph, s: State, e: Event)
    requires Inv(deps, s)
    ensures Counted(Next(deps, s, e))
  {
    hide Worked, Logged;
    var t := e.thread;
    assert Owned(s, t);
    if Top(s, t).Some? {
      assert Stack(s, t)[|Stack(s, t)| - 1] == Top(s, t).value;
    }
  }

  lemma LoggedStep(deps: Graph, s: State, e: Event)
    requires Inv(deps, s)
    ensures Logged(Next(deps, s, e))
  {
    hide Worked, Counted;
    var t := e.thread;
    assert Owned(s, t);
    if Top(s, t).Some? {
      assert Stack(s, t)[|Stack(s, t)| - 1] == Top(s, t).value;
    }
  }

  /** What the innermost call leaves on its thread's stack when it returns. */
  lemma ReturnedStack(s: State, t: Thread, result: Result)
    requires Top(s, t).Some?
    ensures var stack, after := Stack(s, t), Stack(Returned(s, t, result), t);
            |after| == |stack| - 1
            && (forall i :: 0 <= i < |after| ==> after[i].key == stack[i].key)
            && (forall i :: 0 <= i < |after| - 1 ==> after[i] == stack[i])
            && (|after| > 0 && stack[|after| - 1].Producing? ==>
                  if result.Error? then after[|after| - 1] == Raising(stack[|after| - 1].key, result)
                  else after[|after| - 1].Producing?)
    ensures forall u :: u != t ==> Stack(Returned(s, t, result), u) == Stack(s, u)
    ensures Returned(s, t, result).table == s.table && Returned(s, t, result).starts == s.starts
  {
  }

  /** Returning keeps the thread's stack in shape. */
  lemma ReturnedOk(deps: Graph, s: State, t: Thread, result: Result)
    requires Top(s, t).Some? && StackOk(deps, Stack(s, t))
    ensures var s' := Returned(s, t, result);
            StackOk(deps, Stack(s', t)) && (Top(s', t).Some? ==> AtWork(Top(s', t).value))
            && (forall i :: 0 <= i < |Stack(s', t)| ==> AtWork(Stack(s', t)[i]) && AtWork(Stack(s, t)[i]))
  {
    hide Returned;
    ReturnedStack(s, t, result);
  }

  /** The table after a producer ended: other stacks own other keys. */
  predicate Settles(s: State, s': State, t: Thread, k: CellKey) {
    s'.table == s.table || (k in s.table && s.table[k] == Computing(t) && s'.table.Keys == s.table.Keys
                            && s'.table[k].Done? && forall j :: j in s.table && j != k ==> s'.table[j] == s.table[j])
  }

  /** The thread that returned still owns what it is producing. */
  lemma ReturnOwned(deps: Graph, s: State, settled: State, t: Thread, result: Result)
    requires StackOk(deps, Stack(s, t)) && Owned(s, t) && Top(s, t).Some?
    requires settled.stacks == s.stacks && Settles(s, settled, t, Top(s, t).value.key)
    ensures Owned(Returned(settled, t, result), t)
  {
    hide Returned;
    ReturnedStack(settled, t, result);
    ReturnedOk(deps, settled, t, result);
    var stack, after := Stack(s, t), Stack(Returned(settled, t, result), t);
    forall i | 0 <= i < |after|
      ensures after[i].key in settled.table && settled.table[after[i].key] == Computing(t)
    {
      assert AtWork(stack[i]) && after[i].key == stack[i].key;
      assert stack[|stack| - 1].key < stack[i].key;
    }
  }

  lemma ReturnOthers(s: State, settled: State, t: Thread, result: Result, u: Thread)
    requires Owned(s, u) && WaitsForStarted(s, u) && u != t && Top(s, t).Some?
    requires settled.stacks == s.stacks && Settles(s, settled, t, Top(s, t).value.key)
    ensures Owned(Returned(settled, t, result), u) && WaitsForStarted(Returned(settled, t, result), u)
  {
    hide Returned;
    ReturnedStack(settled, t, result);
    assert Stack(Returned(settled, t, result), u) == Stack(s, u);
  }

  lemma ReturnWorked(s: State, settled: State, t: Thread, result: Result, owner: Thread, j: CellKey)
    requires OnStack(s, owner, j) && Top(s, t).Some? && settled.stacks == s.stacks
    requires owner == t && AtWork(Top(s, t).value) ==> j != Top(s, t).value.key
    requires forall i :: 0 <= i < |Stack(s, t)| - 1 ==> Stack(s, t)[i].Producing?
    ensures OnStack(Returned(settled, t, result), owner, j)
  {
    hide Returned;
    ReturnedStack(settled, t, result);
    var s' := Returned(settled, t, result);
    var i :| 0 <= i < |Stack(s, owner)| && AtWork(Stack(s, owner)[i]) && Stack(s, owner)[i].key == j;
    if owner == t {
      assert i < |Stack(s', t)|;
      assert AtWork(Stack(s', t)[i]) && Stack(s', t)[i].key == j;
    } else {
      assert Stack(s', owner)[i] == Stack(s, owner)[i];
    }
  }

  lemma ReturnStep(deps: Graph, s: State, settled: State, t: Thread, result: Result)
    requires Inv(deps, s) && Top(s, t).Some?
    requires settled.stacks == s.stacks && Settles(s, settled, t, Top(s, t).value.key)
    requires AtWork(Top(s, t).value) <==> settled.table != s.table
    ensures StacksOk(deps, Returned(settled, t, result)) && Worked(Returned(settled, t, result))
  {
    hide Returned, Counted, Logged, StackOk, Owned, WaitsForStarted, OnStack;
    var s' := Returned(settled, t, result);
    assert s'.table == settled.table by { ReturnedStack(settled, t, result); }
    assert StackOk(deps, Stack(s, t)) && Owned(s, t);
    forall u ensures StackOk(deps, Stack(s', u)) && Owned(s', u) && WaitsForStarted(s', u) {
      assert StackOk(deps, Stack(s, u)) && Owned(s, u) && WaitsForStarted(s, u);
      ReturnedStack(settled, t, result);
      if u == t {
        ReturnOwned(deps, s, settled, t, result);
        ReturnedOk(deps, settled, t, result);
        AtWorkWaitsForNothing(s', t);
      } else {
        ReturnOthers(s, settled, t, result, u);
      }
    }
    InnerProduce(deps, Stack(s, t));
    forall j | j in s'.table && s'.table[j].Computing? ensures OnStack(s', s'.table[j].owner, j) {
      ReturnWorked(s, settled, t, result, s.table[j].owner, j);
    }
  }

  lemma AtWorkWaitsForNothing(s: State, t: Thread)
    requires Top(s, t).Some? ==> AtWork(Top(s, t).value)
    ensures WaitsForStarted(s, t)
  {
  }

  lemma InnerProduce(deps: Graph, stack: seq<Frame>)
    requires StackOk(deps, stack)
    ensures forall i :: 0 <= i < |stack| - 1 ==> stack[i].Producing?
  {
  }

  /** Replacing or pushing the innermost frame. */
  lemma FrameStep(deps: Graph, s: State, s': State, t: Thread)
    requires Inv(deps, s)
    requires forall u :: u != t ==> Stack(s', u) == Stack(s, u)
    requires forall k :: k in s.table ==> k in s'.table && s'.table[k] == s.table[k]
    requires forall k :: k in s'.table && k !in s.table ==> s'.table[k] == Computing(t) && OnStack(s', t, k)
    requires forall k :: OnStack(s, t, k) ==> OnStack(s', t, k)
    requires StackOk(deps, Stack(s', t)) && Owned(s', t) && WaitsForStarted(s', t)
    ensures StacksOk(deps, s') && Worked(s')
  {
    hide Counted, Logged;
    forall u ensures StackOk(deps, Stack(s', u)) && Owned(s', u) && WaitsForStarted(s', u) {
      assert StackOk(deps, Stack(s, u)) && Owned(s, u) && WaitsForStarted(s, u);
    }
    forall j | j in s'.table && s'.table[j].Computing? ensures OnStack(s', s'.table[j].owner, j) {
      if j in s.table {
        var owner := s.table[j].owner;
        assert OnStack(s, owner, j);
        if owner != t {
          var i :| 0 <= i < |Stack(s, owner)| && AtWork(Stack(s, owner)[i]) && Stack(s, owner)[i].key == j;
          assert Stack(s', owner)[i] == Stack(s, owner)[i];
        }
      }
    }
  }

  /** The innermost frame changes its state, or a call is pushed on top of it. */
  predicate Pushes(s: State, s': State, t: Thread) {
    var stack, after := Stack(s, t), Stack(s', t);
    || (|after| == |stack| + 1 && after[..|stack|] == stack)
    || (|after| == |stack| > 0 && after[..|stack| - 1] == stack[..|stack| - 1]
        && after[|stack| - 1].key == stack[|stack| - 1].key
        && (AtWork(stack[|stack| - 1]) ==> AtWork(after[|stack| - 1])))
  }

  lemma PushKeeps(s: State, s': State, t: Thread, k: CellKey)
    requires Pushes(s, s', t) && OnStack(s, t, k)
    ensures OnStack(s', t, k)
  {
    var stack, after := Stack(s, t), Stack(s', t);
    var i :| 0 <= i < |stack| && AtWork(stack[i]) && stack[i].key == k;
    if |after| == |stack| + 1 {
      assert after[..|stack|][i] == after[i];
    } else if i < |stack| - 1 {
      assert after[..|stack| - 1][i] == stack[..|stack| - 1][i];
    }
    assert AtWork(after[i]) && after[i].key == k;
  }

  lemma CallStep(deps: Graph, s: State, e: Event)
    requires Inv(deps, s) && e.Call?
    ensures StacksOk(deps, Next(deps, s, e)) && Worked(Next(deps, s, e))
  {
    hide Counted, Logged;
    if Stack(s, e.thread) == [] {
      FrameStep(deps, s, Next(deps, s, e), e.thread);
    }
  }

  /** A frame that keeps its key keeps the stack in shape; so does a call for a smaller key. */
  lemma PushOk(deps: Graph, stack: seq<Frame>, frame: Frame)
    requires StackOk(deps, stack) && stack != [] && !frame.Raising?
    ensures frame.key == stack[|stack| - 1].key ==> StackOk(deps, stack[..|stack| - 1] + [frame])
    ensures stack[|stack| - 1].Producing? && frame.key < stack[|stack| - 1].key ==> StackOk(deps, stack + [frame])
  {
  }

  lemma EnterNew(deps: Graph, s: State, t: Thread)
    requires Inv(deps, s) && Top(s, t).Some? && Top(s, t).value.Asking? && Top(s, t).value.key !in s.table
    ensures StacksOk(deps, Next(deps, s, Enter(t))) && Worked(Next(deps, s, Enter(t)))
  {
    hide Counted, Logged, Returned, OnStack;
    var k, s' := Top(s, t).value.key, Next(deps, s, Enter(t));
    assert StackOk(deps, Stack(s, t)) && Owned(s, t);
    PushOk(deps, Stack(s, t), Producing(k, 0));
    forall j | OnStack(s, t, j) ensures OnStack(s', t, j) {
      PushKeeps(s, s', t, j);
    }
    var n := |Stack(s, t)| - 1;
    assert Stack(s', t) == Stack(s, t)[..n] + [Producing(k, 0)];
    TopOnStack(s', t);
    FrameStep(deps, s, s', t);
  }

  lemma TopOnStack(s: State, t: Thread)
    requires Top(s, t).Some? && AtWork(Top(s, t).value)
    ensures OnStack(s, t, Top(s, t).value.key)
  {
    var n := |Stack(s, t)| - 1;
    assert AtWork(Stack(s, t)[n]);
  }

  lemma EnterWaiting(deps: Graph, s: State, t: Thread)
    requires Inv(deps, s) && Top(s, t).Some? && Top(s, t).value.Asking?
    requires Top(s, t).value.key in s.table && s.table[Top(s, t).value.key].Computing?
    ensures StacksOk(deps, Next(deps, s, Enter(t))) && Worked(Next(deps, s, Enter(t)))
  {
    hide Counted, Logged, Returned, OnStack;
    var k, s' := Top(s, t).value.key, Next(deps, s, Enter(t));
    assert StackOk(deps, Stack(s, t)) && Owned(s, t);
    PushOk(deps, Stack(s, t), Waiting(k));
    forall j | OnStack(s, t, j) ensures OnStack(s', t, j) {
      PushKeeps(s, s', t, j);
    }
    var n := |Stack(s, t)| - 1;
    assert Stack(s', t) == Stack(s, t)[..n] + [Waiting(k)];
    FrameStep(deps, s, s', t);
  }

  lemma EnterStep(deps: Graph, s: State, t: Thread)
    requires Inv(deps, s)
    ensures StacksOk(deps, Next(deps, s, Enter(t))) && Worked(Next(deps, s, Enter(t)))
  {
    hide Counted, Logged, Returned, StackOk, Owned, WaitsForStarted, OnStack;
    var top := Top(s, t);
    if top.Some? && top.value.Asking? {
      var k := top.value.key;
      if k !in s.table {
        EnterNew(deps, s, t);
      } else if s.table[k].Done? {
        ReturnStep(deps, s, s, t, s.table[k].result);
      } else {
        EnterWaiting(deps, s, t);
      }
    }
  }

  lemma AskStep(deps: Graph, s: State, t: Thread)
    requires Inv(deps, s) && Acyclic(deps)
    ensures StacksOk(deps, Next(deps, s, AskParent(t))) && Worked(Next(deps, s, AskParent(t)))
  {
    hide Counted, Logged, Returned, OnStack;
    var top, s' := Top(s, t), Next(deps, s, AskParent(t));
    if top.Some? && top.value.Producing? && top.value.next < |deps(top.value.key)| {
      var parent := deps(top.value.key)[top.value.next];
      assert parent in deps(top.value.key);
      assert StackOk(deps, Stack(s, t)) && Owned(s, t);
      PushOk(deps, Stack(s, t), Asking(parent));
      assert Stack(s', t) == Stack(s, t) + [Asking(parent)];
      forall j | OnStack(s, t, j) ensures OnStack(s', t, j) {
        PushKeeps(s, s', t, j);
      }
      FrameStep(deps, s, s', t);
    }
  }

  /** The innermost producing call may turn into one that has failed. */
  lemma RaiseOk(deps: Graph, stack: seq<Frame>, frame: Frame)
    requires StackOk(deps, stack) && stack != [] && stack[|stack| - 1].Producing? && frame.key == stack[|stack| - 1].key
    requires frame.Raising? ==> frame.error.Error?
    ensures StackOk(deps, stack[..|stack| - 1] + [frame])
  {
  }

  lemma RaiseStep(deps: Graph, s: State, t: Thread, message: string)
    requires Inv(deps, s)
    ensures StacksOk(deps, Next(deps, s, Raise(t, message))) && Worked(Next(deps, s, Raise(t, message)))
  {
    hide Counted, Logged, Returned, OnStack;
    var top, s' := Top(s, t), Next(deps, s, Raise(t, message));
    if top.Some? && top.value.Producing? {
      assert StackOk(deps, Stack(s, t)) && Owned(s, t);
      var frame := Raising(top.value.key, Error(message));
      RaiseOk(deps, Stack(s, t), frame);
      var n := |Stack(s, t)| - 1;
      assert Stack(s', t) == Stack(s, t)[..n] + [frame];
      forall j | OnStack(s, t, j) ensures OnStack(s', t, j) {
        PushKeeps(s, s', t, j);
      }
      FrameStep(deps, s, s', t);
    }
  }

  lemma EndStep(deps: Graph, s: State, e: Event)
    requires Inv(deps, s) && (e.Wake? || e.Finish? || e.Record?)
    ensures StacksOk(deps, Next(deps, s, e)) && Worked(Next(deps, s, e))
  {
    hide Counted, Logged, Returned;
    var t, top := e.thread, Top(s, e.thread);
    if top.Some? {
      assert Owned(s, t);
      assert Stack(s, t)[|Stack(s, t)| - 1] == top.value;
      var k := top.value.key;
      if e.Wake? && top.value.Waiting? && k in s.table && s.table[k].Done? {
        ReturnStep(deps, s, s, t, s.table[k].result);
      } else if e.Finish? && top.value.Producing? && top.value.next >= |deps(k)| && !e.result.Error? {
        ReturnStep(deps, s, s.(table := s.table[k := Done(e.result)]), t, e.result);
      } else if e.Record? && top.value.Raising? {
        ReturnStep(deps, s, s.(table := s.table[k := Done(top.value.error)]), t, top.value.error);
      }
    }
  }

  lemma InvStep(deps: Graph, s: State, e: Event)
    requires Inv(deps, s) && Acyclic(deps)
    ensures Inv(deps, Next(deps, s, e))
  {
    hide Next, Counted, Logged, StacksOk, Worked;
    CountedStep(deps, s, e);
    LoggedStep(deps, s, e);
    match e
    case Call(_, _) => CallStep(deps, s, e);
    case Enter(t) => EnterStep(deps, s, t);
    case AskParent(t) => AskStep(deps, s, t);
    case Raise(t, message) => RaiseStep(deps, s, t, message);
    case _ => EndStep(deps, s, e);
  }

  lemma {:induction false} Reachable(deps: Graph, h: seq<Event>)
    requires Acyclic(deps)
    ensures Inv(deps, After(deps, h))
  {
    hide Next, Acyclic;
    if h != [] {
      Reachable(deps, h[..|h| - 1]);
      InvStep(deps, After(deps, h[..|h| - 1]), h[|h| - 1]);
    }
  }

  // ---------------------------------------------------------------------------
  // the promises
  // ---------------------------------------------------------------------------

  /** In every interleaving each producer is started at most once. */
  lemma ProducedAtMostOnce(deps: Graph, h: seq<Event>, k: CellKey)
    requires Acyclic(deps)
    ensures Starts(After(deps, h), k) <= 1
  {
    Reachable(deps, h);
  }

  /** All calls for a key return the one recorded value, or raise the one recorded exception. */
  lemma OneResultForAll(deps: Graph, h: seq<Event>, i: nat, j: nat)
    requires Acyclic(deps)
    requires i < |After(deps, h).answers| && j < |After(deps, h).answers|
    requires After(deps, h).answers[i].key == After(deps, h).answers[j].key
    ensures After(deps, h).answers[i].result == After(deps, h).answers[j].result
  {
    Reachable(deps, h);
    hide Next;
    assert Logged(After(deps, h));
  }

  // ---------------------------------------------------------------------------
  // where results come from
  // ---------------------------------------------------------------------------

  type Table = map<CellKey, Entry>

  /** The producer has had the values of the parents it has asked for. */
  predicate FrameFed(deps: Graph, table: Table, frame: Frame) {
    frame.Producing? ==>
      && frame.next <= |deps(frame.key)|
      && forall i :: 0 <= i < frame.next ==> HasValue(table, deps(frame.key)[i])
  }

  predicate HasValue(table: Table, k: CellKey) {
    k in table && table[k].Done? && table[k].result.Value?
  }

  /** This frame is in the middle of asking for the key. */
  predicate AsksFor(deps: Graph, frame: Frame, k: CellKey) {
    frame.Producing? && frame.next < |deps(frame.key)| && deps(frame.key)[frame.next] == k
  }

  predicate StackFed(deps: Graph, table: Table, stack: seq<Frame>) {
    && (forall i :: 0 <= i < |stack| ==> FrameFed(deps, table, stack[i]))
    && (forall i :: 0 <= i < |stack| - 1 ==> AsksFor(deps, stack[i], stack[i + 1].key))
  }

  /** A key has a value only if all its parents have. */
  ghost predicate ValuesFed(deps: Graph, table: Table) {
    forall k, d :: HasValue(table, k) && d in deps(k) ==> HasValue(table, d)
  }

  ghost predicate Fed(deps: Graph, s: State) {
    (forall t :: StackFed(deps, s.table, Stack(s, t))) && ValuesFed(deps, s.table)
  }

  /** What is done stays as it is. */
  ghost predicate Later(table: Table, next: Table) {
    forall k :: k in table && table[k].Done? ==> k in next && next[k] == table[k]
  }

  lemma DoneStays(deps: Graph, s: State, e: Event)
    requires Inv(deps, s)
    ensures Later(s.table, Next(deps, s, e).table)
  {
    hide Worked, Counted, Logged;
    assert Owned(s, e.thread);
    if Top(s, e.thread).Some? {
      assert Stack(s, e.thread)[|Stack(s, e.thread)| - 1] == Top(s, e.thread).value;
    }
  }

  lemma StackFedLater(deps: Graph, table: Table, next: Table, stack: seq<Frame>)
    requires StackFed(deps, table, stack) && Later(table, next)
    ensures StackFed(deps, next, stack)
  {
    hide AsksFor;
    forall i | 0 <= i < |stack| ensures FrameFed(deps, next, stack[i]) {
      assert FrameFed(deps, table, stack[i]);
    }
  }

  lemma TopFed(deps: Graph, table: Table, stack: seq<Frame>, frame: Frame)
    requires StackFed(deps, table, stack) && stack != [] && frame.key == stack[|stack| - 1].key && FrameFed(deps, table, frame)
    ensures StackFed(deps, table, stack[..|stack| - 1] + [frame])
  {
    hide AsksFor, FrameFed;
    var n := |stack| - 1;
    var after := stack[..n] + [frame];
    forall i | 0 <= i < n ensures AsksFor(deps, after[i], after[i + 1].key) {
      assert AsksFor(deps, stack[i], stack[i + 1].key) && after[i + 1].key == stack[i + 1].key;
    }
  }

  lemma PushFed(deps: Graph, table: Table, stack: seq<Frame>, k: CellKey)
    requires StackFed(deps, table, stack) && stack != [] && AsksFor(deps, stack[|stack| - 1], k)
    ensures StackFed(deps, table, stack + [Asking(k)])
  {
    hide AsksFor;
  }

  lemma ReturnFed(deps: Graph, s: State, t: Thread, result: Result)
    requires Top(s, t).Some? && StackFed(deps, s.table, Stack(s, t))
    requires Top(s, t).value.key in s.table && s.table[Top(s, t).value.key] == Done(result)
    ensures StackFed(deps, s.table, Stack(Returned(s, t, result), t))
  {
    var stack := Stack(s, t);
    var rest := stack[..|stack| - 1];
    assert StackFed(deps, s.table, rest);
    if rest != [] {
      var caller := rest[|rest| - 1];
      assert AsksFor(deps, caller, stack[|stack| - 1].key);
      var next := if result.Error? then Raising(caller.key, result) else Producing(caller.key, caller.next + 1);
      assert FrameFed(deps, s.table, caller);
      TopFed(deps, s.table, rest, next);
    }
  }

  lemma OthersStack(deps: Graph, s: State, e: Event, u: Thread)
    requires u != e.thread
    ensures Stack(Next(deps, s, e), u) == Stack(s, u)
  {
  }

  lemma EndFed(deps: Graph, s: State, e: Event)
    requires Inv(deps, s) && Fed(deps, s) && (e.Enter? || e.Wake? || e.Finish? || e.Record?)
    ensures StackFed(deps, Next(deps, s, e).table, Stack(Next(deps, s, e), e.thread))
    ensures ValuesFed(deps, Next(deps, s, e).table)
  {
    hide StackFed, StacksOk, Worked, Counted, Logged;
    var t, s' := e.thread, Next(deps, s, e);
    DoneStays(deps, s, e);
    assert StackFed(deps, s.table, Stack(s, t));
    StackFedLater(deps, s.table, s'.table, Stack(s, t));
    if Top(s, t).Some? {
      var k := Top(s, t).value.key;
      if e.Enter? && Top(s, t).value.Asking? && !(k in s.table && s.table[k].Done?) {
        TopFed(deps, s'.table, Stack(s, t), if k in s.table then Waiting(k) else Producing(k, 0));
      } else if s'.answers != s.answers {
        var result := s'.table[k].result;
        ReturnFed(deps, s.(table := s'.table), t, result);
      }
      ValuesStep(deps, s, e);
    }
  }

  lemma ValuesStep(deps: Graph, s: State, e: Event)
    requires Inv(deps, s) && Fed(deps, s) && Later(s.table, Next(deps, s, e).table)
    ensures ValuesFed(deps, Next(deps, s, e).table)
  {
    hide StackFed, Owned, WaitsForStarted, Worked, Counted, Logged;
    var t, s' := e.thread, Next(deps, s, e);
    assert StackFed(deps, s.table, Stack(s, t)) && StackOk(deps, Stack(s, t));
    forall k, d | HasValue(s'.table, k) && d in deps(k) ensures HasValue(s'.table, d) {
      if HasValue(s.table, k) {
        assert HasValue(s.table, d);
      } else if Top(s, t).Some? {
        LastFrameFed(deps, s, t);
        FromFrame(deps, s.table, Top(s, t).value, d);
      }
    }
  }

  lemma FromFrame(deps: Graph, table: Table, frame: Frame, d: CellKey)
    requires FrameFed(deps, table, frame) && d in deps(frame.key)
    ensures frame.Producing? && frame.next >= |deps(frame.key)| ==> HasValue(table, d)
  {
    if frame.Producing? && frame.next >= |deps(frame.key)| {
      var i :| 0 <= i < |deps(frame.key)| && deps(frame.key)[i] == d;
      assert HasValue(table, deps(frame.key)[i]);
    }
  }

  lemma LastFrameFed(deps: Graph, s: State, t: Thread)
    requires StackFed(deps, s.table, Stack(s, t)) && Top(s, t).Some?
    ensures FrameFed(deps, s.table, Top(s, t).value)
  {
  }

  lemma FedStep(deps: Graph, s: State, e: Event)
    requires Inv(deps, s) && Fed(deps, s)
    ensures Fed(deps, Next(deps, s, e))
  {
    hide StackFed, StacksOk, Worked, Counted, Logged, ValuesFed;
    var t, s' := e.thread, Next(deps, s, e);
    DoneStays(deps, s, e);
    forall u ensures StackFed(deps, s'.table, Stack(s', u)) {
      assert StackFed(deps, s.table, Stack(s, u));
      StackFedLater(deps, s.table, s'.table, Stack(s, u));
      if u != t {
        OthersStack(deps, s, e, u);
      } else {
        OwnFed(deps, s, e);
      }
    }
    OwnFed(deps, s, e);
  }

  lemma OwnFed(deps: Graph, s: State, e: Event)
    requires Inv(deps, s) && Fed(deps, s)
    ensures StackFed(deps, Next(deps, s, e).table, Stack(Next(deps, s, e), e.thread))
    ensures ValuesFed(deps, Next(deps, s, e).table)
  {
    hide StackFed, StacksOk, Worked, Counted, Logged;
    var t, s' := e.thread, Next(deps, s, e);
    assert StackFed(deps, s.table, Stack(s, t));
    match e
    case Call(_, k) => AskingFed(deps, s.table, k);
    case AskParent(_) =>
      if s' != s {
        var top := Top(s, t).value;
        PushFed(deps, s.table, Stack(s, t), deps(top.key)[top.next]);
      }
    case Raise(_, message) =>
      if s' != s {
        TopFed(deps, s.table, Stack(s, t), Raising(Top(s, t).value.key, Error(message)));
      }
    case _ => EndFed(deps, s, e);
  }

  lemma AskingFed(deps: Graph, table: Table, k: CellKey)
    ensures StackFed(deps, table, [Asking(k)]) && StackFed(deps, table, [])
  {
  }

  /** A producer got as far as its value, after all its parents. */
  ghost predicate Finished(deps: Graph, h: seq<Event>, k: CellKey, result: Result) {
    exists m :: 0 <= m < |h| && FinishesAt(deps, h, m, k, result)
  }

  ghost predicate FinishesAt(deps: Graph, h: seq<Event>, m: nat, k: CellKey, result: Result)
    requires m < |h|
  {
    h[m].Finish? && h[m].result == result && Top(After(deps, h[..m]), h[m].thread) == Some(Producing(k, |deps(k)|))
  }

  /** A producer raised this. */
  ghost predicate Raised(deps: Graph, h: seq<Event>, k: CellKey, result: Result) {
    exists m :: 0 <= m < |h| && RaisesAt(deps, h, m, k, result)
  }

  ghost predicate RaisesAt(deps: Graph, h: seq<Event>, m: nat, k: CellKey, result: Result)
    requires m < |h|
  {
    var top := Top(After(deps, h[..m]), h[m].thread);
    h[m].Raise? && result == Error(h[m].message) && top.Some? && top.value.Producing? && top.value.key == k
  }

  /** An exception is the producer's own, or that of a parent. */
  ghost predicate ErrorFrom(deps: Graph, h: seq<Event>, table: Table, k: CellKey, result: Result) {
    Raised(deps, h, k, result) || exists d :: d in deps(k) && d in table && table[d] == Done(result)
  }

  ghost predicate EntrySourced(deps: Graph, h: seq<Event>, table: Table, k: CellKey) {
    k in table && table[k].Done? ==>
      if table[k].result.Value? then Finished(deps, h, k, table[k].result)
      else ErrorFrom(deps, h, table, k, table[k].result)
  }

  ghost predicate RaisingSourced(deps: Graph, h: seq<Event>, s: State, t: Thread) {
    var top := Top(s, t);
    top.Some? && top.value.Raising? ==> ErrorFrom(deps, h, s.table, top.value.key, top.value.error)
  }

  ghost predicate Sourced(deps: Graph, h: seq<Event>, s: State) {
    (forall k :: EntrySourced(deps, h, s.table, k)) && (forall t :: RaisingSourced(deps, h, s, t))
  }

  lemma EventsBefore(deps: Graph, h: seq<Event>, k: CellKey, result: Result)
    requires h != []
    ensures var g, n := h[..|h| - 1], |h| - 1;
            && (Finished(deps, g, k, result) || FinishesAt(deps, h, n, k, result) ==> Finished(deps, h, k, result))
            && (Raised(deps, g, k, result) || RaisesAt(deps, h, n, k, result) ==> Raised(deps, h, k, result))
  {
    hide After, Top;
    var g := h[..|h| - 1];
    assert forall m :: 0 <= m < |g| ==> g[m] == h[m] && g[..m] == h[..m];
    if m :| 0 <= m < |g| && FinishesAt(deps, g, m, k, result) {
      assert FinishesAt(deps, h, m, k, result);
    }
    if m :| 0 <= m < |g| && RaisesAt(deps, g, m, k, result) {
      assert RaisesAt(deps, h, m, k, result);
    }
  }

  lemma ErrorStays(deps: Graph, h: seq<Event>, table: Table, next: Table, k: CellKey, result: Result)
    requires h != [] && Later(table, next) && ErrorFrom(deps, h[..|h| - 1], table, k, result)
    ensures ErrorFrom(deps, h, next, k, result)
  {
    hide Finished, Raised;
    EventsBefore(deps, h, k, result);
  }

  /** A new entry is what its producer finished with, or the exception it is raising. */
  lemma NewEntry(deps: Graph, s: State, e: Event, k: CellKey)
    requires Inv(deps, s) && Fed(deps, s)
    ensures var table := Next(deps, s, e).table;
            k in table && table[k].Done? && !(k in s.table && s.table[k] == table[k]) ==>
              if e.Finish? then e.result == table[k].result && !e.result.Error? && Top(s, e.thread) == Some(Producing(k, |deps(k)|))
              else e.Record? && Top(s, e.thread) == Some(Raising(k, table[k].result)) && table[k].result.Error?
  {
    hide Worked, Counted, Logged, Owned, WaitsForStarted, ValuesFed;
    assert StackFed(deps, s.table, Stack(s, e.thread)) && StackOk(deps, Stack(s, e.thread));
    if Top(s, e.thread).Some? {
      assert Stack(s, e.thread)[|Stack(s, e.thread)| - 1] == Top(s, e.thread).value;
    }
  }

  /** A frame starts raising because its producer does, or because the call it made did. */
  lemma NewRaising(deps: Graph, s: State, e: Event)
    requires Inv(deps, s) && Fed(deps, s)
    ensures var s', t := Next(deps, s, e), e.thread;
            Top(s', t).Some? && Top(s', t).value.Raising? && Top(s', t) != Top(s, t) ==>
              var top := Top(s', t).value;
              || (e.Raise? && top.error == Error(e.message) && Top(s, t).Some? && Top(s, t).value.Producing? && Top(s, t).value.key == top.key)
              || exists d :: d in deps(top.key) && d in s'.table && s'.table[d] == Done(top.error)
  {
    hide Worked, Counted, Logged, Owned, WaitsForStarted, ValuesFed, FrameFed;
    var s', t := Next(deps, s, e), e.thread;
    var stack := Stack(s, t);
    assert StackFed(deps, s.table, stack) && StackOk(deps, stack);
    if s'.answers != s.answers && |stack| > 1 {
      var k := stack[|stack| - 1].key;
      assert AsksFor(deps, stack[|stack| - 2], stack[|stack| - 2 + 1].key);
      assert k in deps(stack[|stack| - 2].key);
    }
  }

  lemma SourcedStep(deps: Graph, h: seq<Event>)
    requires h != []
    requires var g := h[..|h| - 1]; Inv(deps, After(deps, g)) && Fed(deps, After(deps, g)) && Sourced(deps, g, After(deps, g))
    ensures Sourced(deps, h, After(deps, h))
  {
    hide Inv, Fed, Next, ErrorFrom, Finished, Raised, Top;
    var n := |h| - 1;
    var g, e := h[..n], h[n];
    var s, s' := After(deps, g), After(deps, h);
    assert s' == Next(deps, s, e);
    DoneStays(deps, s, e);
    forall k ensures EntrySourced(deps, h, s'.table, k) {
      if k in s'.table && s'.table[k].Done? {
        var result := s'.table[k].result;
        NewEntry(deps, s, e, k);
        EventsBefore(deps, h, k, result);
        assert EntrySourced(deps, g, s.table, k) && RaisingSourced(deps, g, s, e.thread);
        if result.Error? {
          ErrorStays(deps, h, s.table, s'.table, k, result);
        }
      }
    }
    forall t ensures RaisingSourced(deps, h, s', t) {
      assert RaisingSourced(deps, g, s, t);
      RaisingStep(deps, h, t);
    }
  }

  lemma RaisingStep(deps: Graph, h: seq<Event>, t: Thread)
    requires h != []
    requires var g := h[..|h| - 1]; Inv(deps, After(deps, g)) && Fed(deps, After(deps, g)) && RaisingSourced(deps, g, After(deps, g), t)
    ensures RaisingSourced(deps, h, After(deps, h), t)
  {
    hide Inv, Fed, Next, Finished, Raised;
    var n := |h| - 1;
    var g, e := h[..n], h[n];
    var s, s' := After(deps, g), After(deps, h);
    assert s' == Next(deps, s, e);
    DoneStays(deps, s, e);
    if Top(s', t).Some? && Top(s', t).value.Raising? {
      var top := Top(s', t).value;
      if t == e.thread {
        NewRaising(deps, s, e);
        EventsBefore(deps, h, top.key, top.error);
      } else {
        OthersStack(deps, s, e, t);
      }
      if Top(s', t) == Top(s, t) {
        ErrorStays(deps, h, s.table, s'.table, top.key, top.error);
      }
    }
  }

  lemma {:induction false} ReachableFed(deps: Graph, h: seq<Event>)
    requires Acyclic(deps)
    ensures Fed(deps, After(deps, h)) && Sourced(deps, h, After(deps, h))
  {
    hide Next, Acyclic, Inv;
    if h == [] {
      NothingFed(deps);
    } else {
      var g := h[..|h| - 1];
      Reachable(deps, g);
      ReachableFed(deps, g);
      FedStep(deps, After(deps, g), h[|h| - 1]);
      SourcedStep(deps, h);
    }
  }

  lemma NothingFed(deps: Graph)
    ensures Fed(deps, INITIAL) && Sourced(deps, [], INITIAL)
  {
  }

  /**
   What a call returns is what the key's producer came to: a value it finished with after it had been
   given the values of all its parents, or an exception, its own or one a parent's call returned.
   */
  lemma AnswersAreProduced(deps: Graph, h: seq<Event>, i: nat)
    requires Acyclic(deps) && i < |After(deps, h).answers|
    ensures var k, result, table := After(deps, h).answers[i].key, After(deps, h).answers[i].result, After(deps, h).table;
            if result.Value? then Finished(deps, h, k, result) && forall d :: d in deps(k) ==> HasValue(table, d)
            else ErrorFrom(deps, h, table, k, result)
  {
    hide Next, Acyclic, After, StacksOk, Worked, Counted, Finished, ErrorFrom;
    Reachable(deps, h);
    ReachableFed(deps, h);
    var s := After(deps, h);
    var k := s.answers[i].key;
    assert EntrySourced(deps, h, s.table, k);
  }

  /** The thread is in the middle of a call. */
  predicate Busy(s: State, t: Thread) {
    Stack(s, t) != []
  }

  /** Some step is enabled for the thread, and it is not a new call. */
  ghost predicate CanStep(deps: Graph, s: State, t: Thread) {
    exists e: Event :: e.thread == t && !e.Call? && Next(deps, s, e) != s
  }

  /** The thread that owns the smallest key anybody waits for can move. */
  lemma {:induction false} SomebodyCanStep(deps: Graph, s: State, t: Thread, bound: nat)
    requires Inv(deps, s) && Busy(s, t)
    requires Top(s, t).value.Waiting? ==> Top(s, t).value.key < bound
    ensures exists u :: Busy(s, u) && CanStep(deps, s, u)
    decreases bound
  {
    hide Counted, Logged;
    var top := Top(s, t).value;
    assert StackOk(deps, Stack(s, t)) && WaitsForStarted(s, t);
    if top.Waiting? && s.table[top.key].Computing? {
      var owner := s.table[top.key].owner;
      assert OnStack(s, owner, top.key);
      var i :| 0 <= i < |Stack(s, owner)| && AtWork(Stack(s, owner)[i]) && Stack(s, owner)[i].key == top.key;
      assert StackOk(deps, Stack(s, owner));
      OwnerIsBelow(deps, s, owner, i);
      SomebodyCanStep(deps, s, owner, top.key);
    } else {
      UnblockedCanStep(deps, s, t);
    }
  }

  /** If the owner itself waits, it waits for a smaller key. */
  lemma OwnerIsBelow(deps: Graph, s: State, owner: Thread, i: nat)
    requires StackOk(deps, Stack(s, owner)) && i < |Stack(s, owner)| && AtWork(Stack(s, owner)[i])
    ensures Top(s, owner).value.Waiting? ==> Top(s, owner).value.key < Stack(s, owner)[i].key
  {
    var n := |Stack(s, owner)| - 1;
    if i == n {
    } else {
      assert Stack(s, owner)[n].key < Stack(s, owner)[i].key;
    }
  }

  lemma UnblockedCanStep(deps: Graph, s: State, t: Thread)
    requires Inv(deps, s) && Busy(s, t)
    requires var top := Top(s, t).value; top.Waiting? ==> top.key in s.table && s.table[top.key].Done?
    ensures CanStep(deps, s, t)
  {
    hide Counted, Logged, Worked;
    var top := Top(s, t).value;
    var e := match top
      case Asking(_) => Enter(t)
      case Waiting(_) => Wake(t)
      case Producing(k, n) => if n < |deps(k)| then AskParent(t) else Finish(t, Value(Null))
      case Raising(_, _) => Record(t);
    StepMoves(deps, s, t);
    assert e.thread == t && !e.Call? && Next(deps, s, e) != s;
  }

  /** Every enabled step changes the thread's stack or the log. */
  lemma StepMoves(deps: Graph, s: State, t: Thread)
    requires Busy(s, t)
    ensures forall result :: Returned(s, t, result).answers != s.answers
    ensures forall settled: State, result :: settled.stacks == s.stacks && settled.answers == s.answers ==>
              Returned(settled, t, result).answers != s.answers
  {
    assert forall r: Return :: |s.answers + [r]| == |s.answers| + 1;
  }

  /** No deadlock: whenever some thread is in the middle of a call, some such thread can move. */
  lemma NoDeadlock(deps: Graph, h: seq<Event>, t: Thread)
    requires Acyclic(deps) && Busy(After(deps, h), t)
    ensures exists u :: Busy(After(deps, h), u) && CanStep(deps, After(deps, h), u)
  {
    hide Next, After;
    Reachable(deps, h);
    SomebodyCanStep(deps, After(deps, h), t, Top(After(deps, h), t).value.key + 1);
  }
}
