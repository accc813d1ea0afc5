/** The playback buffer of private/buffer_queue.h, which tracks the duration of what it holds. */
module BufferQueue {
  import opened Bytes
  import W = WorkerQueue

  datatype Item = Item(timestamp: u32, duration: u32)

  const BLANK := Item(0, 0)

  /** Signed division, which truncates toward zero. */
  function Quotient(a: int, b: int): int
    requires b > 0
  {
    if a >= 0 then a / b else -(-a / b)
  }

  function Maximum(minimum: int): int {
    minimum + Quotient(minimum, 3)
  }

  datatype State = State(queue: seq<Item>, total: int, minimum: int, maximum: int)

  predicate Valid(s: State) {
    s.total >= 0 && s.maximum == Maximum(s.minimum)
  }

  predicate Ready(s: State) {
    s.total >= s.minimum
  }

  /** `handleDurationDecrease` */
  function Decreased(total: int, value: int): int {
    if total - value < 0 then 0 else total - value
  }

  /** Whether `shrinkToFit` goes on to erase items one by one. */
  predicate Erases(s: State, newSize: int) {
    && s.queue != [] && newSize < s.total && newSize != 0
    && s.total / |s.queue| > 0
    && s.total - newSize >= s.total / |s.queue|
  }

  /** How many items it then erases. */
  function EraseCount(s: State, newSize: int): nat
    requires Erases(s, newSize)
  {
    (s.total - newSize) / (s.total / |s.queue|)
  }

  /** Erasing more items than there are is undefined. */
  predicate ShrinkDefined(s: State, newSize: int) {
    Erases(s, newSize) ==> EraseCount(s, newSize) <= |s.queue|
  }

  function Shrunk(s: State, newSize: int): State
    requires ShrinkDefined(s, newSize)
  {
    if s.queue == [] || newSize >= s.total then s
    else if newSize == 0 then s.(queue := [], total := Decreased(s.total, s.total))
    else if !Erases(s, newSize) then s
    else s.(queue := s.queue[EraseCount(s, newSize)..], total := Decreased(s.total, s.total - newSize))
  }

  class Buffer {
    var queue: seq<Item>
    var totalDuration: int
    var minBufferSize: int
    var maxBufferSize: int

    function View(): State
      reads this
    {
      State(queue, totalDuration, minBufferSize, maxBufferSize)
    }

    constructor (minBufferSize: int)
      ensures View() == State([], 0, minBufferSize, Maximum(minBufferSize))
    {
      queue, totalDuration := [], 0;
      this.minBufferSize, maxBufferSize := minBufferSize, minBufferSize + Quotient(minBufferSize, 3);
    }

    method SetMinimumBufferSize(value: int)
      modifies this`minBufferSize, this`maxBufferSize
      ensures View() == Step(old(View()), SetMinimum(value))
      ensures View() == old(View()).(minimum := value, maximum := Maximum(value))
    {
      minBufferSize := value;
      maxBufferSize := value + Quotient(value, 3);
    }

    method IsReady() returns (ready: bool)
      ensures ready <==> Ready(View())
    {
      ready := totalDuration >= minBufferSize;
    }

    method Clear()
      modifies this`queue, this`totalDuration
      ensures View() == Step(old(View()), Op.Clear) == old(View()).(queue := [], total := 0)
    {
      totalDuration := 0;
      queue := [];
    }

    method Push(item: Item)
      modifies this`queue, this`totalDuration
      ensures View() == Step(old(View()), Op.Push(item))
    {
      queue := queue + [item];
      totalDuration := totalDuration + item.duration;
    }

    method Pop() returns (item: Item)
      modifies this`queue, this`totalDuration
      ensures View() == Step(old(View()), Op.Pop)
      ensures if old(queue) == [] then item == BLANK else [item] == Popped(old(View()), Op.Pop)
    {
      if queue == [] {
        return BLANK;
      }
      item := queue[0];
      queue := queue[1..];
      DecreaseDuration(item.duration);
    }

    method DecreaseDuration(value: int)
      modifies this`totalDuration
      ensures totalDuration == Decreased(old(totalDuration), value)
    {
      totalDuration := totalDuration - value;
      if totalDuration < 0 {
        totalDuration := 0;
      }
    }

    method SyncBufferSize()
      requires Valid(View()) && ShrinkDefined(View(), maxBufferSize)
      modifies this`queue, this`totalDuration
      ensures View() == Step(old(View()), Op.Sync)
    {
      ShrinkToFit(maxBufferSize);
    }

    method ShrinkToFit(newSize: int)
      requires Valid(View()) && ShrinkDefined(View(), newSize)
      modifies this`queue, this`totalDuration
      ensures View() == Shrunk(old(View()), newSize)
    {
      var cBufferedSize := totalDuration;
      var qSize := |queue|;
      if queue == [] || newSize >= cBufferedSize {
        return;
      }
      if newSize == 0 {
        queue := [];
        DecreaseDuration(cBufferedSize);
        return;
      }
      var averagePacketDuration := cBufferedSize / qSize;
      var diff := cBufferedSize - newSize;
      if diff < averagePacketDuration || averagePacketDuration <= 0 {
        return;
      }
      var itemsToBeRemoved := diff / averagePacketDuration;
      queue := queue[itemsToBeRemoved..];
      DecreaseDuration(diff);
    }
  }

  // ----- shrinking

  lemma QuotientBound(a: int, b: nat, q: nat)
    requires b > 0
    ensures a / b <= q <==> a < (q + 1) * b
  {
    var k := a / b;
    assert k * b <= a < (k + 1) * b by {
      assert a == b * k + a % b;
      assert (k + 1) * b == k * b + b;
    }
    if k <= q {
      MultiplyMonotone(k + 1, q + 1, b);
    } else {
      MultiplyMonotone(q + 1, k, b);
    }
  }

  lemma MultiplyMonotone(x: int, y: int, b: nat)
    requires x <= y
    ensures x * b <= y * b
  {
    assert (y - x) * b >= 0;
    assert y * b == x * b + (y - x) * b;
  }

  /** An erasing shrink stays inside the queue exactly when the remainder of the average is small enough. */
  lemma ShrinkStaysInside(s: State, newSize: int)
    requires Valid(s) && Erases(s, newSize)
    ensures ShrinkDefined(s, newSize) <==> s.total % |s.queue| < newSize + s.total / |s.queue|
  {
    var q, a, r := |s.queue|, s.total / |s.queue|, s.total % |s.queue|;
    assert s.total == q * a + r;
    QuotientBound(s.total - newSize, a, q);
    assert (q + 1) * a == q * a + a;
  }

  /** In particular when there are no more items than the target plus the average. */
  lemma FewItemsStayInside(s: State, newSize: int)
    requires Valid(s) && (s.queue != [] ==> |s.queue| <= newSize + s.total / |s.queue|)
    ensures ShrinkDefined(s, newSize)
  {
    if Erases(s, newSize) {
      ShrinkStaysInside(s, newSize);
    }
  }

  /** A shrink that erases takes every item exactly when the target is not above the remainder of the average; the
      tracked total then still says that the target is buffered. */
  lemma ShrinkEmptiesExactlyWhen(s: State, newSize: int)
    requires Valid(s) && Erases(s, newSize) && ShrinkDefined(s, newSize)
    ensures Shrunk(s, newSize).queue == [] <==> newSize <= s.total % |s.queue|
    ensures newSize > 0 ==> Shrunk(s, newSize).total == newSize
  {
    var q, a, r := |s.queue|, s.total / |s.queue|, s.total % |s.queue|;
    assert s.total == q * a + r;
    QuotientBound(s.total - newSize, a, q - 1);
    assert EraseCount(s, newSize) == q <==> s.total - newSize >= q * a;
  }

  function Sum(q: seq<Item>): nat {
    if q == [] then 0 else q[0].duration + Sum(q[1..])
  }

  lemma {:induction false} SumOfEqual(q: seq<Item>, d: nat)
    requires forall i :: 0 <= i < |q| ==> q[i].duration == d
    ensures Sum(q) == |q| * d
  {
    if q == [] {
      assert 0 * d == 0;
    } else {
      SumOfEqual(q[1..], d);
      assert |q| * d == d + (|q| - 1) * d;
    }
  }

  /** Shrinking an exactly tracked buffer of equal items leaves between the target and one item more. */
  lemma ShrinkHitsTarget(s: State, newSize: int, d: nat)
    requires Valid(s) && newSize > 0 && d > 0 && Erases(s, newSize)
    requires forall i :: 0 <= i < |s.queue| ==> s.queue[i].duration == d
    requires s.total == Sum(s.queue)
    ensures ShrinkDefined(s, newSize)
    ensures Shrunk(s, newSize).total == newSize
    ensures newSize <= Sum(Shrunk(s, newSize).queue) < newSize + d
  {
    hide Sum;
    var q := |s.queue|;
    SumOfEqual(s.queue, d);
    AverageOfEqual(q, d);
    ShrinkStaysInside(s, newSize);
    var k := EraseCount(s, newSize);
    SumOfEqual(s.queue[k..], d);
    LeftOver(q, k, d, newSize);
  }

  lemma LeftOver(q: nat, k: nat, d: nat, n: nat)
    requires d > 0 && n <= q * d && k == (q * d - n) / d && k <= q
    ensures n <= (q - k) * d < n + d
  {
    assert q * d - n == d * k + (q * d - n) % d;
    assert (q - k) * d == q * d - k * d;
  }

  lemma AverageOfEqual(q: nat, d: nat)
    requires q > 0
    ensures q * d / q == d && q * d % q == 0
  {
    var k, r := q * d / q, q * d % q;
    assert q * d == q * k + r;
    assert q * (d - k) == r;
    if d > k {
      MultiplyMonotone(1, d - k, q);
    } else if d < k {
      MultiplyMonotone(d - k, -1, q);
    }
  }

  // ----- runs

  datatype Op = Push(item: Item) | Pop | Clear | SetMinimum(value: int) | Sync

  predicate Defined(s: State, op: Op) {
    op.Sync? ==> ShrinkDefined(s, s.maximum)
  }

  function Step(s: State, op: Op): State
    requires Defined(s, op)
  {
    match op
    case Push(item) => s.(queue := s.queue + [item], total := s.total + item.duration)
    case Pop =>
      if s.queue == [] then s else
      s.(queue := s.queue[1..], total := Decreased(s.total, s.queue[0].duration))
    case Clear => s.(queue := [], total := 0)
    case SetMinimum(value) => s.(minimum := value, maximum := Maximum(value))
    case Sync => Shrunk(s, s.maximum)
  }

  function Initial(minimum: int): State {
    State([], 0, minimum, Maximum(minimum))
  }

  predicate RunDefined(s: State, ops: seq<Op>)
    decreases |ops|
  {
    ops == [] || (Defined(s, ops[0]) && RunDefined(Step(s, ops[0]), ops[1..]))
  }

  function Run(s: State, ops: seq<Op>): State
    requires RunDefined(s, ops)
    decreases |ops|
  {
    if ops == [] then s else Run(Step(s, ops[0]), ops[1..])
  }

  lemma {:induction false} SumAppend(q: seq<Item>, item: Item)
    ensures Sum(q + [item]) == Sum(q) + item.duration
  {
    if q == [] {
      assert q + [item] == [item];
    } else {
      SumAppend(q[1..], item);
      assert (q + [item])[1..] == q[1..] + [item];
    }
  }

  lemma {:induction false} ExactRun(s: State, ops: seq<Op>)
    requires Valid(s) && s.total == Sum(s.queue)
    requires (forall op :: op in ops ==> !op.Sync?) && RunDefined(s, ops)
    ensures Valid(Run(s, ops)) && Run(s, ops).total == Sum(Run(s, ops).queue)
    decreases |ops|
  {
    if ops != [] {
      if ops[0].Push? {
        SumAppend(s.queue, ops[0].item);
      }
      ExactRun(Step(s, ops[0]), ops[1..]);
    }
  }

  /** Without shrinking, the tracked total is the duration of what is queued in every reachable state,
      so a ready buffer with a positive minimum has something to play. */
  lemma TotalIsExact(minimum: int, ops: seq<Op>)
    requires (forall op :: op in ops ==> !op.Sync?) && RunDefined(Initial(minimum), ops)
    ensures var s := Run(Initial(minimum), ops);
            && s.total == Sum(s.queue)
            && (Ready(s) <==> Sum(s.queue) >= s.minimum)
            && (Ready(s) && s.minimum > 0 ==> s.queue != [])
  {
    ExactRun(Initial(minimum), ops);
  }

  lemma {:induction false} ValidRun(s: State, ops: seq<Op>)
    requires Valid(s) && RunDefined(s, ops)
    ensures Valid(Run(s, ops))
    decreases |ops|
  {
    if ops != [] {
      ValidRun(Step(s, ops[0]), ops[1..]);
    }
  }

  /** In every reachable state a defined shrink to the maximum keeps a ready buffer ready. */
  lemma SyncKeepsReady(minimum: int, ops: seq<Op>)
    requires RunDefined(Initial(minimum), ops)
    ensures var s := Run(Initial(minimum), ops);
            Defined(s, Sync) && Ready(s) ==> Ready(Step(s, Sync))
  {
    ValidRun(Initial(minimum), ops);
  }

  lemma RunCons(s: State, op: Op, rest: seq<Op>)
    requires Defined(s, op) && RunDefined(Step(s, op), rest)
    ensures RunDefined(s, [op] + rest) && Run(s, [op] + rest) == Run(Step(s, op), rest)
  {
    assert ([op] + rest)[1..] == rest;
  }

  /** Syncing a ready buffer leaves one that is ready with nothing to play exactly when the maximum is zero, which
      asks for that, or when it erases and the maximum is not above the remainder of the average. */
  lemma SyncEmptiesReadyExactlyWhen(s: State)
    requires Valid(s) && s.queue != [] && Ready(s) && Defined(s, Sync)
    ensures Ready(Step(s, Sync)) && Step(s, Sync).queue == []
            <==> if s.maximum == 0 then s.total > 0
                 else Erases(s, s.maximum) && s.maximum <= s.total % |s.queue|
  {
    if s.maximum != 0 && Erases(s, s.maximum) {
      ShrinkEmptiesExactlyWhen(s, s.maximum);
    }
  }

  /** One shrink of an exactly tracked buffer is enough. */
  lemma OneShrinkEmptiesReadyBuffer()
    ensures var ops := [Push(Item(0, 1)), Push(Item(0, 1)), Push(Item(0, 3)), Sync];
            && RunDefined(Initial(2), ops)
            && Run(Initial(2), ops) == State([], 2, 2, 2)
            && Ready(State([], 2, 2, 2))
  {
    hide Run, RunDefined, Step, Defined;
    var i, l := Item(0, 1), Item(0, 3);
    ExampleSteps(i, l);
    NoOps(State([], 2, 2, 2));
    var o1 := [Sync] + [];
    RunCons(State([i, i, l], 5, 2, 2), Sync, []);
    var o2 := [Push(l)] + o1;
    RunCons(State([i, i], 2, 2, 2), Push(l), o1);
    var o3 := [Push(i)] + o2;
    RunCons(State([i], 1, 2, 2), Push(i), o2);
    RunCons(Initial(2), Push(i), o3);
    assert [Push(i)] + o3 == [Push(i), Push(i), Push(l), Sync];
  }

  lemma ExampleSteps(i: Item, l: Item)
    requires i == Item(0, 1) && l == Item(0, 3)
    ensures Defined(State([i, i, l], 5, 2, 2), Sync) && Step(State([i, i, l], 5, 2, 2), Sync) == State([], 2, 2, 2)
    ensures forall s, item :: Defined(s, Push(item))
    ensures Step(State([i, i], 2, 2, 2), Push(l)) == State([i, i, l], 5, 2, 2)
    ensures Step(State([i], 1, 2, 2), Push(i)) == State([i, i], 2, 2, 2)
    ensures Step(Initial(2), Push(i)) == State([i], 1, 2, 2)
  {
  }

  lemma NoOps(s: State)
    ensures RunDefined(s, []) && Run(s, []) == s
  {
  }

  // ----- delivery

  /** What an operation hands out. */
  function Popped(s: State, op: Op): seq<Item> {
    if op.Pop? && s.queue != [] then [s.queue[0]] else []
  }

  function AllPopped(s: State, ops: seq<Op>): seq<Item>
    requires RunDefined(s, ops)
    decreases |ops|
  {
    if ops == [] then [] else Popped(s, ops[0]) + AllPopped(Step(s, ops[0]), ops[1..])
  }

  function Pushed(ops: seq<Op>): seq<Item> {
    if ops == [] then [] else (if ops[0].Push? then [ops[0].item] else []) + Pushed(ops[1..])
  }

  lemma Chain<T>(p: seq<T>, a: seq<T>, r: seq<T>, t: seq<T>, s: seq<T>, q: seq<T>, u: seq<T>)
    requires a + r == t + u && p + t == s + q
    ensures (p + a) + r == s + (q + u)
  {
    assert (p + a) + r == p + (t + u);
    assert p + (t + u) == (p + t) + u;
    assert (s + q) + u == s + (q + u);
  }

  lemma {:induction false} DeliveredFrom(s: State, ops: seq<Op>)
    requires RunDefined(s, ops) && forall op :: op in ops ==> op.Push? || op.Pop? || op.SetMinimum?
    ensures AllPopped(s, ops) + Run(s, ops).queue == s.queue + Pushed(ops)
    decreases |ops|
  {
    if ops != [] {
      var s1, rest := Step(s, ops[0]), ops[1..];
      DeliveredFrom(s1, rest);
      var p, q := Popped(s, ops[0]), if ops[0].Push? then [ops[0].item] else [];
      assert p + s1.queue == s.queue + q;
      Chain(p, AllPopped(s1, rest), Run(s1, rest).queue, s1.queue, s.queue, q, Pushed(rest));
    }
  }

  /** With pushes and pops, whatever the minimum is set to, the items handed out and then the queued ones are the
      pushed items in order. */
  lemma BufferDeliversInOrder(minimum: int, ops: seq<Op>)
    requires RunDefined(Initial(minimum), ops) && forall op :: op in ops ==> op.Push? || op.Pop? || op.SetMinimum?
    ensures AllPopped(Initial(minimum), ops) + Run(Initial(minimum), ops).queue == Pushed(ops)
  {
    DeliveredFrom(Initial(minimum), ops);
    assert [] + Pushed(ops) == Pushed(ops);
  }

  /** A shrink takes the oldest items and keeps the others: as many as fit into the difference at the average duration,
      all of them when nothing is to stay. */
  lemma ShrinkTakesOldest(s: State, newSize: int) returns (k: nat)
    requires Valid(s) && ShrinkDefined(s, newSize)
    ensures k <= |s.queue| && Shrunk(s, newSize).queue == s.queue[k..]
    ensures s.queue != [] ==>
              var a, diff := s.total / |s.queue|, s.total - newSize;
              if diff <= 0 then k == 0
              else if newSize == 0 then k == |s.queue|
              else if a == 0 || diff < a then k == 0
              else k * a <= diff < (k + 1) * a
    ensures s.queue != [] && newSize == 0 && s.total > 0 ==> Shrunk(s, newSize).total == 0
    ensures k == 0 && !(newSize == 0 && s.total > 0) ==> Shrunk(s, newSize) == s
  {
    if s.queue == [] || newSize >= s.total {
      k := 0;
    } else if newSize == 0 {
      k := |s.queue|;
    } else if !Erases(s, newSize) {
      k := 0;
    } else {
      k := EraseCount(s, newSize);
      var a, diff := s.total / |s.queue|, s.total - newSize;
      QuotientBound(diff, a, k);
      if k > 0 {
        QuotientBound(diff, a, k - 1);
      } else {
        QuotientBound(diff, a, 0);
      }
    }
  }

  lemma StepKeepsOrder(s: State, op: Op, popped: seq<Item>, pushed: seq<Item>)
    requires Valid(s) && Defined(s, op) && W.Subsequence(popped + s.queue, pushed)
    ensures W.Subsequence(popped + Popped(s, op) + Step(s, op).queue,
                        pushed + if op.Push? then [op.item] else [])
  {
    hide W.Subsequence, Shrunk;
    assert pushed + [] == pushed && popped + [] == popped;
    match op
    case Push(item) =>
      W.SubsequenceAppend(popped + s.queue, pushed, item);
      assert popped + s.queue + [item] == popped + (s.queue + [item]);
    case Pop =>
      if s.queue != [] {
        assert popped + [s.queue[0]] + s.queue[1..] == popped + s.queue;
      }
    case Clear =>
      W.SubsequenceCut(popped, s.queue, |s.queue|, pushed);
      assert s.queue[|s.queue|..] == [];
    case Sync =>
      var k := ShrinkTakesOldest(s, s.maximum);
      W.SubsequenceCut(popped, s.queue, k, pushed);
    case SetMinimum(_) =>
  }

  lemma {:induction false} OrderKept(s: State, ops: seq<Op>, popped: seq<Item>, pushed: seq<Item>)
    requires Valid(s) && RunDefined(s, ops) && W.Subsequence(popped + s.queue, pushed)
    ensures W.Subsequence(popped + AllPopped(s, ops) + Run(s, ops).queue, pushed + Pushed(ops))
    decreases |ops|
  {
    hide W.Subsequence;
    if ops == [] {
      assert popped + [] == popped && pushed + [] == pushed;
    } else {
      hide Popped;
      var p, q := Popped(s, ops[0]), if ops[0].Push? then [ops[0].item] else [];
      StepKeepsOrder(s, ops[0], popped, pushed);
      OrderKept(Step(s, ops[0]), ops[1..], popped + p, pushed + q);
      assert popped + p + AllPopped(Step(s, ops[0]), ops[1..]) == popped + (p + AllPopped(Step(s, ops[0]), ops[1..]));
      assert pushed + q + Pushed(ops[1..]) == pushed + (q + Pushed(ops[1..]));
    }
  }

  lemma NothingIsSubsequence(q: seq<Item>)
    requires q == []
    ensures W.Subsequence<Item>(q, [])
  {
    assert W.Picks<Item>([], q, []);
  }

  /** In every run, clears and shrinks included, the items handed out and then the queued ones are a subsequence of the
      pushed items: nothing is handed out twice or out of order. */
  lemma BufferKeepsOrder(minimum: int, ops: seq<Op>)
    requires RunDefined(Initial(minimum), ops)
    ensures W.Subsequence(AllPopped(Initial(minimum), ops) + Run(Initial(minimum), ops).queue, Pushed(ops))
  {
    hide Run, AllPopped, Pushed, RunDefined, W.Subsequence;
    NothingIsSubsequence([] + Initial(minimum).queue);
    OrderKept(Initial(minimum), ops, [], []);
    assert [] + AllPopped(Initial(minimum), ops) == AllPopped(Initial(minimum), ops) && [] + Pushed(ops) == Pushed(ops);
  }

  /** The maximum is four thirds of the minimum, rounded toward zero. */
  lemma MaximumIsFourThirds(minimum: int)
    requires minimum >= 0
    ensures 3 * Maximum(minimum) <= 4 * minimum < 3 * Maximum(minimum) + 3
    ensures Maximum(-minimum) == -Maximum(minimum)
  {
  }
}
