/**
 merge_async_iterators (spexis/utils.py): several asynchronous iterators are
 merged into one. One task per live iterator is outstanding; each wait returns
 an arbitrary nonempty set of completed tasks, which are then handled in an
 arbitrary order.
 */
module AsyncMerge {
  type Item = int
  type Task = nat
  type Yield = (nat, Item)

  /** `rest` is what each iterator has not handed out yet, `awaits` the dict from
      outstanding tasks to iterators. */
  datatype State = State(rest: seq<seq<Item>>, awaits: map<Task, nat>, nextTask: Task, yielded: seq<Yield>) {
    ghost predicate Live(i: nat) {
      exists t :: t in awaits && awaits[t] == i
    }
  }

  function Start(iterators: seq<seq<Item>>): State {
    State(iterators, FirstTasks(|iterators|), |iterators|, [])
  }

  /** One task for each of the first `n` iterators. */
  function FirstTasks(n: nat): (m: map<Task, nat>)
    ensures forall t: Task :: t in m <==> t < n
    ensures forall t | t in m :: m[t] == t
  {
    if n == 0 then map[] else FirstTasks(n - 1)[n - 1 := n - 1]
  }

  predicate CanHandle(s: State, d: Task) {
    d in s.awaits && s.awaits[d] < |s.rest|
  }

  /** The body of the for loop: the completed task `d` brought the next item of
      its iterator, or found its end. */
  function Handle(s: State, d: Task): State
    requires CanHandle(s, d)
  {
    var i := s.awaits[d];
    var awaits := s.awaits - {d};
    if s.rest[i] == [] then s.(awaits := awaits)
    else State(s.rest[i := s.rest[i][1..]], awaits[s.nextTask := i], s.nextTask + 1, s.yielded + [(i, s.rest[i][0])])
  }

  /** The items of the i-th iterator among what was yielded, in order. */
  function Project(out: seq<Yield>, i: nat): seq<Item> {
    if out == [] then []
    else Project(out[..|out| - 1], i) + (if out[|out| - 1].0 == i then [out[|out| - 1].1] else [])
  }

  function TotalLength(s: seq<seq<Item>>): nat {
    if s == [] then 0 else |s[0]| + TotalLength(s[1..])
  }

  /** Every live iterator has exactly one task; an iterator that is not live has
      nothing left; what was yielded of each iterator, followed by what it has
      left, is the iterator; and nothing else was yielded. */
  ghost predicate Inv(iterators: seq<seq<Item>>, s: State) {
    && |s.rest| == |iterators|
    && (forall t | t in s.awaits :: t < s.nextTask && s.awaits[t] < |iterators|)
    && (forall t, t' | t in s.awaits && t' in s.awaits && t != t' :: s.awaits[t] != s.awaits[t'])
    && (forall i | 0 <= i < |iterators| :: s.Live(i) || s.rest[i] == [])
    && (forall i | 0 <= i < |iterators| :: Project(s.yielded, i) + s.rest[i] == iterators[i])
    && |s.yielded| + TotalLength(s.rest) == TotalLength(iterators)
    && (forall k | 0 <= k < |s.yielded| :: s.yielded[k].0 < |iterators|)
  }

  lemma ProjectSnoc(out: seq<Yield>, y: Yield, i: nat)
    ensures Project(out + [y], i) == Project(out, i) + (if y.0 == i then [y.1] else [])
  {
    assert (out + [y])[..|out|] == out;
  }

  lemma {:induction false} TotalLengthUpdate(s: seq<seq<Item>>, i: nat, x: seq<Item>)
    requires i < |s|
    ensures TotalLength(s[i := x]) == TotalLength(s) - |s[i]| + |x|
  {
    if i > 0 {
      assert s[i := x][1..] == s[1..][i - 1 := x];
      TotalLengthUpdate(s[1..], i - 1, x);
    } else {
      assert s[i := x][1..] == s[1..];
    }
  }

  lemma StartInvariant(iterators: seq<seq<Item>>)
    ensures Inv(iterators, Start(iterators))
    ensures forall i | 0 <= i < |iterators| :: Start(iterators).Live(i)
  {
    var s := Start(iterators);
    forall i | 0 <= i < |iterators| ensures s.Live(i) && Project(s.yielded, i) + s.rest[i] == iterators[i] {
      assert i in s.awaits && s.awaits[i] == i;
      assert [] + s.rest[i] == iterators[i];
    }
  }

  lemma LiveAfterItem(s: State, d: Task, i: nat)
    requires CanHandle(s, d) && s.rest[s.awaits[d]] != [] && s.Live(i) && s.nextTask !in s.awaits
    ensures Handle(s, d).Live(i)
  {
    var s' := Handle(s, d);
    var t :| t in s.awaits && s.awaits[t] == i;
    if t == d {
      assert s.nextTask in s'.awaits && s'.awaits[s.nextTask] == i;
    } else {
      assert t in s'.awaits && s'.awaits[t] == i;
    }
  }

  lemma EndKeepsInvariant(iterators: seq<seq<Item>>, s: State, d: Task)
    requires Inv(iterators, s) && d in s.awaits && s.rest[s.awaits[d]] == []
    ensures Inv(iterators, Handle(s, d))
  {
    var s' := Handle(s, d);
    forall k | 0 <= k < |iterators| ensures s'.Live(k) || s'.rest[k] == [] {
      if k != s.awaits[d] && s.Live(k) {
        var t :| t in s.awaits && s.awaits[t] == k;
        assert t in s'.awaits && s'.awaits[t] == k;
      }
    }
  }

  lemma ItemKeepsProjections(iterators: seq<seq<Item>>, s: State, d: Task)
    requires Inv(iterators, s) && d in s.awaits && s.rest[s.awaits[d]] != []
    ensures var s' := Handle(s, d);
            forall k | 0 <= k < |iterators| :: Project(s'.yielded, k) + s'.rest[k] == iterators[k]
  {
    var s' := Handle(s, d);
    var i := s.awaits[d];
    forall k | 0 <= k < |iterators| ensures Project(s'.yielded, k) + s'.rest[k] == iterators[k] {
      ProjectSnoc(s.yielded, (i, s.rest[i][0]), k);
      if k == i {
        assert Project(s.yielded, k) + [s.rest[i][0]] + s.rest[i][1..] == Project(s.yielded, k) + s.rest[i];
      }
    }
  }

  lemma ItemKeepsInvariant(iterators: seq<seq<Item>>, s: State, d: Task)
    requires Inv(iterators, s) && d in s.awaits && s.rest[s.awaits[d]] != []
    ensures Inv(iterators, Handle(s, d))
  {
    var s' := Handle(s, d);
    var i := s.awaits[d];
    assert s.nextTask !in s.awaits;
    TotalLengthUpdate(s.rest, i, s.rest[i][1..]);
    ItemKeepsProjections(iterators, s, d);
    forall k | 0 <= k < |iterators| ensures s'.Live(k) || s'.rest[k] == [] {
      if s.Live(k) {
        LiveAfterItem(s, d, k);
      }
    }
  }

  lemma HandleMakesProgress(iterators: seq<seq<Item>>, s: State, d: Task)
    requires Inv(iterators, s) && d in s.awaits
    ensures Remaining(Handle(s, d)) + 1 == Remaining(s)
    ensures forall t | t in s.awaits && t != d :: t in Handle(s, d).awaits
  {
    var s' := Handle(s, d);
    var i := s.awaits[d];
    assert (s.awaits - {d}).Keys == s.awaits.Keys - {d};
    if s.rest[i] != [] {
      assert s.nextTask !in s.awaits;
      TotalLengthUpdate(s.rest, i, s.rest[i][1..]);
      assert s'.awaits.Keys == s.awaits.Keys - {d} + {s.nextTask};
    }
  }

  /** Handling one completed task keeps the invariant. */
  lemma HandleKeepsInvariant(iterators: seq<seq<Item>>, s: State, d: Task)
    requires Inv(iterators, s) && d in s.awaits
    ensures Inv(iterators, Handle(s, d))
  {
    if s.rest[s.awaits[d]] == [] {
      EndKeepsInvariant(iterators, s, d);
    } else {
      ItemKeepsInvariant(iterators, s, d);
    }
  }

  /** Items to hand out and ends to find. */
  function Remaining(s: State): nat {
    TotalLength(s.rest) + |s.awaits|
  }

  // ------------------------------------------------------------------ whole runs

  /** Handle the tasks of one wait, in this order. */
  function HandleAll(s: State, done: seq<Task>): State
    requires CanHandleAll(s, done)
    decreases |done|
  {
    if done == [] then s else HandleAll(Handle(s, done[0]), done[1..])
  }

  predicate CanHandleAll(s: State, done: seq<Task>)
    decreases |done|
  {
    done == [] || (CanHandle(s, done[0]) && CanHandleAll(Handle(s, done[0]), done[1..]))
  }

  /** What a wait may return: some outstanding tasks, each once, in any order. */
  ghost predicate Completed(s: State, done: seq<Task>) {
    && done != []
    && (forall k | 0 <= k < |done| :: done[k] in s.awaits)
    && (forall j, k | 0 <= j < k < |done| :: done[j] != done[k])
  }

  /** While one wait is handled, the tasks not handled yet stay outstanding. */
  lemma {:induction false} HandleAllKeepsInvariant(iterators: seq<seq<Item>>, s: State, done: seq<Task>)
    requires Inv(iterators, s) && (done == [] || Completed(s, done))
    ensures CanHandleAll(s, done)
    ensures Inv(iterators, HandleAll(s, done))
    ensures Remaining(HandleAll(s, done)) + |done| == Remaining(s)
    decreases |done|
  {
    if done != [] {
      HandleKeepsInvariant(iterators, s, done[0]);
      HandleMakesProgress(iterators, s, done[0]);
      CompletedTail(iterators, s, done);
      HandleAllKeepsInvariant(iterators, Handle(s, done[0]), done[1..]);
    }
  }

  lemma CompletedTail(iterators: seq<seq<Item>>, s: State, done: seq<Task>)
    requires Inv(iterators, s) && Completed(s, done)
    ensures CanHandle(s, done[0])
    ensures done[1..] == [] || Completed(Handle(s, done[0]), done[1..])
  {
    HandleMakesProgress(iterators, s, done[0]);
  }

  /** Every wait of the run returns some completed tasks, and the run goes on
      for as long as tasks are outstanding. */
  ghost predicate IsRun(s: State, waits: seq<seq<Task>>)
    decreases |waits|
  {
    if waits == [] then true
    else Completed(s, waits[0]) && CanHandleAll(s, waits[0]) && IsRun(HandleAll(s, waits[0]), waits[1..])
  }

  function RunAll(s: State, waits: seq<seq<Task>>): State
    requires IsRun(s, waits)
    decreases |waits|
  {
    if waits == [] then s else RunAll(HandleAll(s, waits[0]), waits[1..])
  }

  lemma {:induction false} RunKeepsInvariant(iterators: seq<seq<Item>>, s: State, waits: seq<seq<Task>>)
    requires Inv(iterators, s) && IsRun(s, waits)
    ensures Inv(iterators, RunAll(s, waits))
    ensures Remaining(RunAll(s, waits)) + |waits| <= Remaining(s)
    decreases |waits|
  {
    if waits != [] {
      HandleAllKeepsInvariant(iterators, s, waits[0]);
      RunKeepsInvariant(iterators, HandleAll(s, waits[0]), waits[1..]);
    }
  }

  /** Whatever the waits return: of every iterator, the items yielded so far are
      its first items in order; there are at most as many waits as items and
      iterators; and when no task is outstanding any more, every item of every
      iterator was yielded, and nothing else. */
  lemma MergeIsFaithful(iterators: seq<seq<Item>>, waits: seq<seq<Task>>)
    requires IsRun(Start(iterators), waits)
    ensures var s := RunAll(Start(iterators), waits);
            && (forall i | 0 <= i < |iterators| :: Project(s.yielded, i) <= iterators[i])
            && (forall t, t' | t in s.awaits && t' in s.awaits && s.awaits[t] == s.awaits[t'] :: t == t')
            && |waits| <= TotalLength(iterators) + |iterators|
            && (s.awaits == map[] ==> |s.yielded| == TotalLength(iterators)
                                      && forall i | 0 <= i < |iterators| :: Project(s.yielded, i) == iterators[i])
  {
    StartInvariant(iterators);
    RunKeepsInvariant(iterators, Start(iterators), waits);
    FirstTasksSize(|iterators|);
    var s := RunAll(Start(iterators), waits);
    if s.awaits == map[] {
      forall i | 0 <= i < |iterators| ensures s.rest[i] == [] && Project(s.yielded, i) == iterators[i] {
        assert !s.Live(i);
      }
      NothingLeft(s.rest);
    }
  }

  lemma {:induction false} FirstTasksSize(n: nat)
    ensures |FirstTasks(n)| == n
  {
    if n > 0 {
      FirstTasksSize(n - 1);
      assert FirstTasks(n).Keys == FirstTasks(n - 1).Keys + {n - 1};
    }
  }

  lemma {:induction false} NothingLeft(rest: seq<seq<Item>>)
    requires forall i | 0 <= i < |rest| :: rest[i] == []
    ensures TotalLength(rest) == 0
  {
    if rest != [] {
      NothingLeft(rest[1..]);
    }
  }

  // --------------------------------------------------------------- the fast path

  /** The one-iterator path: every item, under index 0. */
  function FastPath(items: seq<Item>): seq<Yield> {
    seq(|items|, k requires 0 <= k < |items| => (0, items[k]))
  }

  lemma {:induction false} OnlyIndexZero(out: seq<Yield>)
    requires forall k | 0 <= k < |out| :: out[k].0 == 0
    ensures out == FastPath(Project(out, 0))
    decreases |out|
  {
    if out != [] {
      OnlyIndexZero(out[..|out| - 1]);
    }
  }

  /** With one iterator the general path yields, when it is through, exactly what
      the fast path yields. */
  lemma FastPathAgrees(items: seq<Item>, waits: seq<seq<Task>>)
    requires IsRun(Start([items]), waits) && RunAll(Start([items]), waits).awaits == map[]
    ensures RunAll(Start([items]), waits).yielded == FastPath(items)
  {
    StartInvariant([items]);
    RunKeepsInvariant([items], Start([items]), waits);
    MergeIsFaithful([items], waits);
    OnlyIndexZero(RunAll(Start([items]), waits).yielded);
  }

  // ------------------------------------------------------------------ the loop itself

  class Merger {
    var rest: seq<seq<Item>>
    var awaits: map<Task, nat>
    var nextTask: Task
    var yielded: seq<Yield>

    ghost function Value(): State
      reads this
    {
      State(rest, awaits, nextTask, yielded)
    }

    constructor (iterators: seq<seq<Item>>)
      ensures Value() == Start(iterators)
    {
      rest, awaits, nextTask, yielded := iterators, FirstTasks(|iterators|), |iterators|, [];
    }

    /** The body of the for loop. */
    method HandleDone(d: Task)
      requires CanHandle(Value(), d)
      modifies this
      ensures Value() == Handle(old(Value()), d)
    {
      var i := awaits[d];
      awaits := awaits - {d};
      if rest[i] != [] {
        var item := rest[i][0];
        rest := rest[i := rest[i][1..]];
        awaits := awaits[nextTask := i];
        nextTask := nextTask + 1;
        yielded := yielded + [(i, item)];
      }
    }

    /** The general path. The wait returns any nonempty set of outstanding tasks,
        and the for loop takes them in any order. */
    method Merge(ghost iterators: seq<seq<Item>>)
      requires Value() == Start(iterators)
      modifies this
      ensures forall i | 0 <= i < |iterators| :: Project(yielded, i) == iterators[i]
      ensures |yielded| == TotalLength(iterators)
      ensures forall k | 0 <= k < |yielded| :: yielded[k].0 < |iterators|
    {
      StartInvariant(iterators);
      while awaits != map[]
        invariant Inv(iterators, Value())
        decreases Remaining(Value())
      {
        var done: set<Task> :| done != {} && done <= awaits.Keys;
        ghost var before := Remaining(Value());
        while done != {}
          invariant Inv(iterators, Value()) && done <= awaits.Keys
          invariant Remaining(Value()) <= before
          invariant done == {} ==> Remaining(Value()) < before
          decreases done
        {
          var d :| d in done;
          HandleKeepsInvariant(iterators, Value(), d);
          HandleMakesProgress(iterators, Value(), d);
          HandleDone(d);
          done := done - {d};
        }
      }
      forall i | 0 <= i < |iterators| ensures rest[i] == [] {
        assert !Value().Live(i);
      }
      NothingLeft(rest);
    }
  }
}
