/** The worker queue of private/queue.h. Its operations are critical sections, and a push, a pop by the
    worker and a conditional push are each made of two of them, so other threads can run in between. */
module WorkerQueue {

  // ----- what one critical section does to the items

  /** `removeWithPredicate`: drops items from the front while they satisfy the predicate. */
  function DropWhile<T>(p: T -> bool, q: seq<T>): seq<T> {
    if q != [] && p(q[0]) then DropWhile(p, q[1..]) else q
  }

  /** Exactly the longest prefix of items that satisfy the predicate is dropped. */
  lemma {:induction false} DropWhileDropsPrefix<T>(p: T -> bool, q: seq<T>) returns (k: nat)
    ensures k <= |q| && DropWhile(p, q) == q[k..]
    ensures forall i :: 0 <= i < k ==> p(q[i])
    ensures k < |q| ==> !p(q[k])
  {
    if q != [] && p(q[0]) {
      k := DropWhileDropsPrefix(p, q[1..]);
      k := k + 1;
    } else {
      k := 0;
    }
  }

  // ----- interleavings

  /** What the worker took from the queue: an item, or the default item because there was none. */
  datatype Taken<T> = Real(item: T) | Phantom

  /** The worker waits, has seen a non-empty queue and is about to pop, or holds what it popped. */
  datatype Worker<T> = Waiting | AboutToPop | Holding(taken: Taken<T>)

  /** The queue, the pushes under way (past the predicate, past the stop test), the worker, and the
      history: accepted pushes, handled items, and the number of removals by others. */
  datatype State<T> = State(queue: seq<T>, stopped: bool, checked: seq<T>, pending: seq<T>, worker: Worker<T>,
                            accepted: seq<T>, handled: seq<Taken<T>>, removals: nat)

  /** One critical section, or one step between two of them, of some thread. */
  datatype Action<!T> =
    | Start
    | Stop
    | PushTest(item: T)
    | PushIfTest(item: T, p: T -> bool)
    | PushIfGoOn(i: nat)
    | PushLocked(i: nat)
    | RunCheck
    | WorkerPop
    | WorkerHandle
    | Clear
    | RemoveWhile(p: T -> bool)
    | ClientPop

  function Initial<T>(): State<T> {
    State([], true, [], [], Waiting, [], [], 0)
  }

  function Without<T>(s: seq<T>, i: nat): seq<T>
    requires i < |s|
  {
    s[..i] + s[i + 1..]
  }

  /** An action that is not possible in a state leaves it unchanged. */
  function Step<T>(s: State<T>, a: Action<T>): State<T> {
    match a
    case Start => s.(stopped := false)
    case Stop => s.(stopped := true)
    case PushTest(x) => if s.stopped then s else s.(pending := s.pending + [x])
    case PushIfTest(x, p) => if s.queue == [] || p(s.queue[0]) then s.(checked := s.checked + [x]) else s
    case PushIfGoOn(i) =>
      if i >= |s.checked| then s else
      var s1 := s.(checked := Without(s.checked, i));
      if s.stopped then s1 else s1.(pending := s.pending + [s.checked[i]])
    case PushLocked(i) =>
      if i >= |s.pending| then s else
      s.(pending := Without(s.pending, i), queue := s.queue + [s.pending[i]], accepted := s.accepted + [s.pending[i]])
    case RunCheck => if s.worker.Waiting? && s.queue != [] && !s.stopped then s.(worker := AboutToPop) else s
    case WorkerPop =>
      if !s.worker.AboutToPop? then s else
      if s.queue == [] then s.(worker := Holding(Phantom)) else
      s.(worker := Holding(Real(s.queue[0])), queue := s.queue[1..])
    case WorkerHandle =>
      if !s.worker.Holding? then s else s.(worker := Waiting, handled := s.handled + [s.worker.taken])
    case Clear => s.(queue := [], removals := s.removals + 1)
    case RemoveWhile(p) => s.(queue := DropWhile(p, s.queue), removals := s.removals + 1)
    case ClientPop => s.(queue := if s.queue == [] then [] else s.queue[1..], removals := s.removals + 1)
  }

  function Run<T>(s: State<T>, actions: seq<Action<T>>): State<T>
    decreases |actions|
  {
    if actions == [] then s else Run(Step(s, actions[0]), actions[1..])
  }

  // ----- the class

  class Queue<T(0)> {
    var stopped: bool
    var queue: seq<T>
    const blank: T  // the default-constructed item

    /** The fields are those of a state of the protocol. */
    ghost predicate At(s: State<T>)
      reads this
    {
      queue == s.queue && stopped == s.stopped
    }

    constructor (blank: T)
      ensures At(Initial()) && this.blank == blank
    {
      this.blank := blank;
      stopped, queue := true, [];
    }

    method Start(ghost s: State<T>)
      requires At(s)
      modifies this`stopped
      ensures At(Step(s, Action.Start))
    {
      if !stopped {
        return;
      }
      stopped := false;
    }

    method Stop(ghost s: State<T>)
      requires At(s)
      modifies this`stopped
      ensures At(Step(s, Action.Stop))
    {
      if stopped {
        return;
      }
      stopped := true;
    }

    method Clear(ghost s: State<T>)
      requires At(s)
      modifies this`queue
      ensures At(Step(s, Action.Clear)) && queue == []
    {
      queue := [];
    }

    /** The locked part of `pushBack`, after the test of `stopped` outside the lock. */
    method PushBackLocked(item: T, ghost s: State<T>, ghost i: nat)
      requires At(s) && i < |s.pending| && s.pending[i] == item
      modifies this`queue
      ensures At(Step(s, PushLocked(i))) && queue == old(queue) + [item]
    {
      queue := queue + [item];
    }

    /** The locked part of the conditional push: it looks at the front and lets the lock go. */
    method MayPush(item: T, test: T -> bool, ghost s: State<T>) returns (canPush: bool)
      requires At(s)
      ensures Step(s, PushIfTest(item, test)) == if canPush then s.(checked := s.checked + [item]) else s
    {
      canPush := if queue == [] then true else test(queue[0]);
    }

    /** What a client takes, or the worker when it is about to pop. */
    method PopFront(ghost s: State<T>) returns (item: T)
      requires At(s)
      modifies this`queue
      ensures At(Step(s, ClientPop))
      ensures s.worker.AboutToPop? ==> At(Step(s, WorkerPop))
      ensures s.worker.AboutToPop? ==> var taken := Step(s, WorkerPop).worker.taken;
                                       item == if taken.Real? then taken.item else blank
    {
      if queue == [] {
        return blank;
      }
      item := queue[0];
      queue := queue[1..];
    }

    method RemoveWithPredicate(test: T -> bool, ghost s: State<T>)
      requires At(s)
      modifies this`queue
      ensures At(Step(s, RemoveWhile(test)))
    {
      while queue != []
        invariant DropWhile(test, queue) == DropWhile(test, s.queue)
        decreases |queue|
      {
        var item := queue[0];
        if !test(item) {
          break;
        } else {
          queue := queue[1..];
        }
      }
    }

    /** The locked part of `run`: whether the worker goes on to pop. */
    method CheckRun(ghost s: State<T>) returns (goOn: bool)
      requires At(s) && s.worker.Waiting?
      ensures Step(s, RunCheck) == if goOn then s.(worker := AboutToPop) else s
    {
      goOn := !(queue == [] || stopped);
    }
  }

  // ----- what the history says

  predicate Removes<T>(a: Action<T>) {
    a.Clear? || a.RemoveWhile? || a.ClientPop?
  }

  /** The real items among what was taken. */
  function Items<T>(taken: seq<Taken<T>>): seq<T> {
    if taken == [] then [] else
    Items(taken[..|taken| - 1]) + if taken[|taken| - 1].Real? then [taken[|taken| - 1].item] else []
  }

  function Phantoms<T>(taken: seq<Taken<T>>): nat {
    if taken == [] then 0 else
    Phantoms(taken[..|taken| - 1]) + if taken[|taken| - 1].Phantom? then 1 else 0
  }

  /** Everything the worker has taken, what it holds included. */
  function TakenSoFar<T>(s: State<T>): seq<Taken<T>> {
    s.handled + if s.worker.Holding? then [s.worker.taken] else []
  }

  lemma ItemsAppend<T>(taken: seq<Taken<T>>, t: Taken<T>)
    ensures Items(taken + [t]) == Items(taken) + if t.Real? then [t.item] else []
    ensures Phantoms(taken + [t]) == Phantoms(taken) + if t.Phantom? then 1 else 0
  {
    var all := taken + [t];
    assert all[..|all| - 1] == taken;
  }

  lemma OnlyPopTakes<T>(s: State<T>, a: Action<T>)
    requires !a.WorkerPop?
    ensures TakenSoFar(Step(s, a)) == TakenSoFar(s)
  {
  }

  // ----- with the worker as the only consumer

  /** Taken items followed by queued items are the accepted pushes, in order, and no default item was taken. */
  ghost predicate Delivered<T>(s: State<T>) {
    && Items(TakenSoFar(s)) + s.queue == s.accepted
    && Phantoms(TakenSoFar(s)) == 0
    && (s.worker.AboutToPop? ==> s.queue != [])
  }

  lemma DeliveredStep<T>(s: State<T>, a: Action<T>)
    requires Delivered(s) && !Removes(a)
    ensures Delivered(Step(s, a))
  {
    hide Items, Phantoms;
    if a.WorkerPop? {
      if s.worker.AboutToPop? {
        ItemsAppend(s.handled, Real(s.queue[0]));
        assert TakenSoFar(s) == s.handled;
        assert [s.queue[0]] + s.queue[1..] == s.queue;
      }
    } else {
      OnlyPopTakes(s, a);
    }
  }

  lemma {:induction false} DeliveredRun<T>(s: State<T>, actions: seq<Action<T>>)
    requires Delivered(s) && forall a :: a in actions ==> !Removes(a)
    ensures Delivered(Run(s, actions))
    decreases |actions|
  {
    hide Delivered, Step;
    if actions != [] {
      DeliveredStep(s, actions[0]);
      DeliveredRun(Step(s, actions[0]), actions[1..]);
    }
  }

  /** In every interleaving in which only the worker removes items: what was handled, what the worker holds
      and what is queued are together the accepted pushes in order, and the handler got no default item. */
  lemma QueueDeliversInOrder<T>(actions: seq<Action<T>>)
    requires forall a :: a in actions ==> !Removes(a)
    ensures var s := Run(Initial<T>(), actions);
            && Items(TakenSoFar(s)) + s.queue == s.accepted
            && Phantoms(s.handled) == 0
            && Items(s.handled) <= s.accepted
  {
    DeliveredRun(Initial<T>(), actions);
    var s := Run(Initial<T>(), actions);
    if s.worker.Holding? {
      ItemsAppend(s.handled, s.worker.taken);
    } else {
      assert TakenSoFar(s) == s.handled;
    }
  }

  // ----- with other consumers

  /** `at` picks `xs` out of `ys`, in order. */
  ghost predicate Picks<T>(at: seq<nat>, xs: seq<T>, ys: seq<T>) {
    && |at| == |xs|
    && (forall i :: 0 <= i < |at| ==> at[i] < |ys| && ys[at[i]] == xs[i])
    && (forall i, j :: 0 <= i < j < |at| ==> at[i] < at[j])
  }

  ghost predicate Subsequence<T>(xs: seq<T>, ys: seq<T>) {
    exists at :: Picks(at, xs, ys)
  }

  lemma SubsequenceAppend<T>(xs: seq<T>, ys: seq<T>, x: T)
    requires Subsequence(xs, ys)
    ensures Subsequence(xs + [x], ys + [x])
  {
    var at: seq<nat> :| Picks(at, xs, ys);
    var longer: seq<nat> := at + [|ys|];
    assert Picks(longer, xs + [x], ys + [x]);
  }

  lemma SubsequenceCut<T>(a: seq<T>, b: seq<T>, k: nat, ys: seq<T>)
    requires Subsequence(a + b, ys) && k <= |b|
    ensures Subsequence(a + b[k..], ys)
  {
    var at: seq<nat> :| Picks(at, a + b, ys);
    var at1: seq<nat> := at[..|a|] + at[|a| + k..];
    forall i | 0 <= i < |at1|
      ensures at1[i] < |ys| && ys[at1[i]] == (a + b[k..])[i]
    {
      if i >= |a| {
        assert at1[i] == at[i + k] && (a + b[k..])[i] == (a + b)[i + k];
      }
    }
    assert Picks(at1, a + b[k..], ys);
  }

  lemma SubsequencePrefix<T>(a: seq<T>, b: seq<T>, ys: seq<T>)
    requires Subsequence(a + b, ys)
    ensures Subsequence(a, ys)
  {
    SubsequenceCut(a, b, |b|, ys);
    assert a + b[|b|..] == a;
  }

  /** Nothing is handled that was not pushed, nothing twice and nothing out of order; and there are at most
      as many default items as there were removals by others. */
  ghost predicate Safe<T>(s: State<T>) {
    && Subsequence(Items(TakenSoFar(s)) + s.queue, s.accepted)
    && Phantoms(TakenSoFar(s)) + (if s.worker.AboutToPop? && s.queue == [] then 1 else 0) <= s.removals
  }

  lemma SafeStep<T>(s: State<T>, a: Action<T>)
    requires Safe(s)
    ensures Safe(Step(s, a))
  {
    hide Items, Phantoms, Subsequence;
    if a.WorkerPop? {
      PopIsSafe(s);
      return;
    }
    OnlyPopTakes(s, a);
    var items := Items(TakenSoFar(s));
    match a
    case PushLocked(i) =>
      if i < |s.pending| {
        SubsequenceAppend(items + s.queue, s.accepted, s.pending[i]);
        assert items + s.queue + [s.pending[i]] == items + (s.queue + [s.pending[i]]);
      }
    case Clear =>
      SubsequenceCut(items, s.queue, |s.queue|, s.accepted);
      assert s.queue[|s.queue|..] == [];
    case RemoveWhile(p) =>
      var k := DropWhileDropsPrefix(p, s.queue);
      SubsequenceCut(items, s.queue, k, s.accepted);
    case ClientPop =>
      if s.queue != [] {
        SubsequenceCut(items, s.queue, 1, s.accepted);
      }
    case _ =>
  }

  lemma PopIsSafe<T>(s: State<T>)
    requires Safe(s)
    ensures Safe(Step(s, WorkerPop))
  {
    hide Items, Phantoms, Subsequence;
    if s.worker.AboutToPop? {
      assert TakenSoFar(s) == s.handled;
      var t := if s.queue == [] then Phantom else Real(s.queue[0]);
      ItemsAppend(s.handled, t);
      if s.queue != [] {
        assert Items(s.handled) + [s.queue[0]] + s.queue[1..] == Items(s.handled) + s.queue;
      } else {
        assert Items(s.handled) + [] == Items(s.handled);
      }
    }
  }

  lemma {:induction false} SafeRun<T>(s: State<T>, actions: seq<Action<T>>)
    requires Safe(s)
    ensures Safe(Run(s, actions))
    decreases |actions|
  {
    hide Safe, Step;
    if actions != [] {
      SafeStep(s, actions[0]);
      SafeRun(Step(s, actions[0]), actions[1..]);
    }
  }

  lemma InitialIsSafe<T>()
    ensures Safe(Initial<T>())
  {
    var s0 := Initial<T>();
    assert Picks([], Items(TakenSoFar(s0)) + s0.queue, s0.accepted);
  }

  /** What was handled is as safe as what was taken. */
  lemma HandledIsSafe<T>(s: State<T>)
    requires Safe(s)
    ensures Subsequence(Items(s.handled), s.accepted) && Phantoms(s.handled) <= s.removals
  {
    hide Items, Phantoms, Subsequence;
    SubsequencePrefix(Items(TakenSoFar(s)), s.queue, s.accepted);
    if s.worker.Holding? {
      ItemsAppend(s.handled, s.worker.taken);
      var last := if s.worker.taken.Real? then [s.worker.taken.item] else [];
      SubsequencePrefix(Items(s.handled), last, s.accepted);
    } else {
      assert TakenSoFar(s) == s.handled;
    }
  }

  /** In every interleaving, removals by others included: the real items handled are a subsequence of the
      accepted pushes, and the handler got at most one default item per removal. */
  lemma QueueIsSafe<T>(actions: seq<Action<T>>)
    ensures var s := Run(Initial<T>(), actions);
            && Subsequence(Items(s.handled), s.accepted)
            && Phantoms(s.handled) <= s.removals
  {
    hide Run, Safe;
    InitialIsSafe<T>();
    SafeRun(Initial<T>(), actions);
    HandledIsSafe(Run(Initial<T>(), actions));
  }

  // ----- when the handler gets a default item

  /** A removal that empties the queue between the worker's check and its pop. */
  predicate Empties<T>(s: State<T>, a: Action<T>) {
    s.worker.AboutToPop? && Removes(a) && s.queue != [] && Step(s, a).queue == []
  }

  /** The worker pops before a push gets in. */
  predicate PopsFirst<T>(s: State<T>, actions: seq<Action<T>>)
    decreases |actions|
  {
    && actions != []
    && (|| actions[0].WorkerPop?
        || (&& !(actions[0].PushLocked? && actions[0].i < |s.pending|)
            && PopsFirst(Step(s, actions[0]), actions[1..])))
  }

  /** How often a run empties the queue between check and pop with nothing pushed before the pop. */
  function Unfilled<T>(s: State<T>, actions: seq<Action<T>>): nat
    decreases |actions|
  {
    if actions == [] then 0 else
    var s1, rest := Step(s, actions[0]), actions[1..];
    (if Empties(s, actions[0]) && PopsFirst(s1, rest) then 1 else 0) + Unfilled(s1, rest)
  }

  /** The worker is about to take a default item, unless a push gets in. */
  predicate Exposed<T>(s: State<T>) {
    s.worker.AboutToPop? && s.queue == []
  }

  function DefaultsTaken<T>(s: State<T>): nat {
    Phantoms(TakenSoFar(s))
  }

  /** A default item is taken exactly when the worker pops while it is exposed. */
  lemma DefaultsStep<T>(s: State<T>, a: Action<T>)
    ensures DefaultsTaken(Step(s, a)) == DefaultsTaken(s) + if Exposed(s) && a.WorkerPop? then 1 else 0
  {
    hide Phantoms, Items, DropWhile;
    if a.WorkerPop? {
      if s.worker.AboutToPop? {
        ItemsAppend(s.handled, if s.queue == [] then Phantom else Real(s.queue[0]));
        assert s.handled + [] == s.handled;
      }
    } else {
      OnlyPopTakes(s, a);
    }
  }

  /** The worker becomes exposed by a removal that empties the queue, and stays so until it pops or a push gets in. */
  lemma ExposedStep<T>(s: State<T>, a: Action<T>)
    ensures Exposed(Step(s, a)) <==>
              || Empties(s, a)
              || (Exposed(s) && !a.WorkerPop? && !(a.PushLocked? && a.i < |s.pending|))
  {
    if a.RemoveWhile? {
      var k := DropWhileDropsPrefix(a.p, s.queue);
    }
  }

  lemma {:induction false} DefaultsCounted<T>(s: State<T>, actions: seq<Action<T>>)
    ensures DefaultsTaken(Run(s, actions))
            == DefaultsTaken(s) + (if Exposed(s) && PopsFirst(s, actions) then 1 else 0) + Unfilled(s, actions)
    decreases |actions|
  {
    hide Step, Empties, DefaultsTaken;
    if actions != [] {
      DefaultsStep(s, actions[0]);
      ExposedStep(s, actions[0]);
      EmptiesExcludes(s, actions[0]);
      DefaultsCounted(Step(s, actions[0]), actions[1..]);
    }
  }

  lemma EmptiesExcludes<T>(s: State<T>, a: Action<T>)
    ensures Empties(s, a) ==> !Exposed(s) && !a.WorkerPop? && !a.PushLocked?
  {
  }

  /** In every interleaving the default items that the worker takes are exactly as many as the removals that empty the
      queue between its check and its pop with no push in between. */
  lemma DefaultsAreUnfilledGaps<T>(actions: seq<Action<T>>)
    ensures Phantoms(TakenSoFar(Run(Initial<T>(), actions))) == Unfilled(Initial<T>(), actions)
  {
    DefaultsCounted(Initial<T>(), actions);
  }

  /** A push that gets in between fills the gap: the worker takes the new item. */
  lemma PushFillsGap<T>(s: State<T>, a: Action<T>, i: nat)
    requires Empties(s, a) && i < |s.pending|
    ensures Step(Step(Step(s, a), PushLocked(i)), WorkerPop).worker == Holding(Real(s.pending[i]))
  {
  }

  /** A queue cleared between the worker's check and its pop hands over a default item. */
  lemma ClearCausesPhantom<T>(x: T)
    ensures var s := Run(Initial<T>(), [Start, PushTest(x), PushLocked(0), RunCheck, Clear, WorkerPop, WorkerHandle]);
            s.handled == [Phantom] && s.removals == 1
  {
    var s1 := Step(Initial<T>(), Start);
    var s2 := Step(s1, PushTest(x));
    var s3 := Step(s2, PushLocked(0));
    var s4 := Step(s3, RunCheck);
    var s5 := Step(s4, Clear);
    var s6 := Step(s5, WorkerPop);
    var s7 := Step(s6, WorkerHandle);
    assert s3.queue == [x];
    assert s7.handled == [Phantom];
    assert Run(s6, [WorkerHandle]) == s7;
    assert Run(s5, [WorkerPop, WorkerHandle]) == s7;
    assert Run(s4, [Clear, WorkerPop, WorkerHandle]) == s7;
    assert Run(s3, [RunCheck, Clear, WorkerPop, WorkerHandle]) == s7;
    assert Run(s2, [PushLocked(0), RunCheck, Clear, WorkerPop, WorkerHandle]) == s7;
    assert Run(s1, [PushTest(x), PushLocked(0), RunCheck, Clear, WorkerPop, WorkerHandle]) == s7;
  }

  // ----- what single operations come to

  /** A worker that waits takes the front item of a running queue and hands it over. */
  lemma WorkerTakesFront<T>(s: State<T>)
    requires s.worker.Waiting? && s.queue != [] && !s.stopped
    ensures var t := Step(Step(Step(s, RunCheck), WorkerPop), WorkerHandle);
            t.handled == s.handled + [Real(s.queue[0])] && t.queue == s.queue[1..] && t.worker.Waiting?
  {
  }

  /** A conditional push to a running queue adds the item exactly when the queue is empty or its front item passes. */
  lemma ConditionalPush<T>(s: State<T>, x: T, p: T -> bool)
    requires !s.stopped
    ensures var t := Step(Step(Step(s, PushIfTest(x, p)), PushIfGoOn(|s.checked|)), PushLocked(|s.pending|));
            && t.queue == (if s.queue == [] || p(s.queue[0]) then s.queue + [x] else s.queue)
            && t.checked == s.checked && t.pending == s.pending
  {
    var s1 := Step(s, PushIfTest(x, p));
    if s.queue == [] || p(s.queue[0]) {
      assert s1.checked == s.checked + [x] && s1.checked[|s.checked|] == x;
      var s2 := Step(s1, PushIfGoOn(|s.checked|));
      assert s2.checked == s.checked && s2.pending == s.pending + [x];
      assert Step(s2, PushLocked(|s.pending|)).pending == s.pending;
    }
  }

  /** A push to a running queue adds the item; a stopped queue lets no push begin. */
  lemma PlainPush<T>(s: State<T>, x: T)
    ensures s.stopped ==> Step(s, PushTest(x)) == s
    ensures !s.stopped ==> var t := Step(Step(s, PushTest(x)), PushLocked(|s.pending|));
                           t.queue == s.queue + [x] && t.pending == s.pending && t.accepted == s.accepted + [x]
  {
    if !s.stopped {
      var s1 := Step(s, PushTest(x));
      assert s1.pending == s.pending + [x] && s1.pending[|s.pending|] == x;
      assert Step(s1, PushLocked(|s.pending|)).pending == s.pending;
    }
  }

  /** After a stop, and until the next start, the worker takes at most the one item it was about to pop, and no more
      pushes are accepted than were past their test. */
  lemma {:induction false} StoppedQueueRunsDry<T>(s: State<T>, actions: seq<Action<T>>)
    requires s.stopped && forall a :: a in actions ==> !a.Start?
    ensures var t := Run(s, actions);
            && |TakenSoFar(t)| <= |TakenSoFar(s)| + (if s.worker.AboutToPop? then 1 else 0)
            && |t.accepted| + |t.pending| <= |s.accepted| + |s.pending|
    decreases |actions|
  {
    if actions != [] {
      StoppedStep(s, actions[0]);
      StoppedQueueRunsDry(Step(s, actions[0]), actions[1..]);
    }
  }

  /** The same from the stop itself. */
  lemma StopEndsService<T>(s: State<T>, actions: seq<Action<T>>)
    requires forall a :: a in actions ==> !a.Start?
    ensures var t := Run(Step(s, Stop), actions);
            && |TakenSoFar(t)| <= |TakenSoFar(s)| + (if s.worker.AboutToPop? then 1 else 0)
            && |t.accepted| + |t.pending| <= |s.accepted| + |s.pending|
  {
    hide Run;
    StoppedQueueRunsDry(Step(s, Stop), actions);
  }

  lemma StoppedStep<T>(s: State<T>, a: Action<T>)
    requires s.stopped && !a.Start?
    ensures var t := Step(s, a);
            && t.stopped
            && |TakenSoFar(t)| + (if t.worker.AboutToPop? then 1 else 0)
               <= |TakenSoFar(s)| + (if s.worker.AboutToPop? then 1 else 0)
            && |t.accepted| + |t.pending| <= |s.accepted| + |s.pending|
  {
    hide DropWhile;
  }
}
