/**
  The thread queue of daemons/mrpd/que.c: a circular buffer under a mutex, with one semaphore
  counting free slots and one counting items. Pushes and pops of any number of threads
  interleave between their semaphore and mutex operations.
 */
module Que {

  // ---------------------------------------------------------------- The circular buffer

  datatype Ring<T> = Ring(buffer: seq<T>, inPos: nat, outPos: nat)

  ghost predicate RingOk<T>(r: Ring<T>) {
    |r.buffer| > 0 && r.inPos < |r.buffer| && r.outPos < |r.buffer|
  }

  function Pushed<T>(r: Ring<T>, x: T): Ring<T>
    requires RingOk(r)
  {
    Ring(r.buffer[r.inPos := x], (r.inPos + 1) % |r.buffer|, r.outPos)
  }

  function Front<T>(r: Ring<T>): T
    requires RingOk(r)
  {
    r.buffer[r.outPos]
  }

  function Popped<T>(r: Ring<T>): Ring<T>
    requires RingOk(r)
  {
    r.(outPos := (r.outPos + 1) % |r.buffer|)
  }

  /** The parts of que_push and que_pop_nowait that run inside the critical section. */
  class Queue<T> {
    const buffer: array<T>
    var inPos: nat
    var outPos: nat

    ghost predicate Valid()
      reads this
    {
      inPos < buffer.Length && outPos < buffer.Length
    }

    ghost function State(): Ring<T>
      reads this, buffer
    {
      Ring(buffer[..], inPos, outPos)
    }

    constructor (storage: array<T>)
      requires storage.Length > 0
      ensures Valid() && buffer == storage && State() == Ring(storage[..], 0, 0)
    {
      buffer, inPos, outPos := storage, 0, 0;
    }

    method Push(x: T)
      requires Valid()
      modifies this, buffer
      ensures Valid() && State() == Pushed(old(State()), x)
    {
      buffer[inPos] := x;
      inPos := (inPos + 1) % buffer.Length;
    }

    method Pop() returns (x: T)
      requires Valid()
      modifies this`outPos
      ensures Valid() && State() == Popped(old(State())) && x == Front(old(State()))
    {
      x := buffer[outPos];
      outPos := (outPos + 1) % buffer.Length;
    }
  }

  // ---------------------------------------------------------------- Interleavings

  /**
    The queue between atomic operations. `entering` pushes hold a space token, `leaving` ones
    have written but not yet released their data token; `taking` and `freeing` likewise for
    pops. `pushed` and `popped` record all items in the order of the critical sections.
   */
  datatype State<T> = State(
    ring: Ring<T>, space: nat, data: nat,
    entering: nat, leaving: nat, taking: nat, freeing: nat,
    pushed: seq<T>, popped: seq<T>)

  /** One atomic operation of some thread. */
  datatype Action<T> = TakeSpace | WriteItem(x: T) | ReleaseData | TakeData | ReadItem | ReleaseSpace

  ghost predicate Enabled<T>(s: State<T>, a: Action<T>) {
    match a
    case TakeSpace => s.space > 0
    case WriteItem(_) => s.entering > 0
    case ReleaseData => s.leaving > 0
    case TakeData => s.data > 0
    case ReadItem => s.taking > 0
    case ReleaseSpace => s.freeing > 0
  }

  ghost function Act<T>(s: State<T>, a: Action<T>): State<T>
    requires Enabled(s, a) && RingOk(s.ring)
  {
    match a
    case TakeSpace => s.(space := s.space - 1, entering := s.entering + 1)
    case WriteItem(x) =>
      s.(ring := Pushed(s.ring, x), entering := s.entering - 1, leaving := s.leaving + 1, pushed := s.pushed + [x])
    case ReleaseData => s.(leaving := s.leaving - 1, data := s.data + 1)
    case TakeData => s.(data := s.data - 1, taking := s.taking + 1)
    case ReadItem =>
      s.(ring := Popped(s.ring), taking := s.taking - 1, freeing := s.freeing + 1, popped := s.popped + [Front(s.ring)])
    case ReleaseSpace => s.(freeing := s.freeing - 1, space := s.space + 1)
  }

  /** que_new: n free slots, no items. */
  ghost predicate Initial<T>(s: State<T>) {
    && |s.ring.buffer| > 0 && s.ring.inPos == 0 && s.ring.outPos == 0
    && s.space == |s.ring.buffer| && s.data == 0
    && s.entering == 0 && s.leaving == 0 && s.taking == 0 && s.freeing == 0
    && s.pushed == [] && s.popped == []
  }

  ghost predicate Run<T>(states: seq<State<T>>, actions: seq<Action<T>>) {
    && |states| == |actions| + 1 && Initial(states[0])
    && forall i :: 0 <= i < |actions| ==>
         RingOk(states[i].ring) && Enabled(states[i], actions[i]) && states[i + 1] == Act(states[i], actions[i])
  }

  ghost function Stored<T>(s: State<T>): int {
    |s.pushed| - |s.popped|
  }

  /** The slot of the k-th item ever pushed. */
  ghost function Slot(k: nat, n: nat): (r: nat)
    requires n > 0
    ensures r < n
  {
    k % n
  }

  ghost predicate Inv<T>(s: State<T>, n: nat) {
    && |s.ring.buffer| == n > 0
    // Every slot is free, being written, holding an item, or being freed.
    && s.space + s.entering + Stored(s) + s.freeing == n
    // Every stored item is counted, about to be counted, or promised to a pop.
    && Stored(s) == s.data + s.leaving + s.taking
    && s.ring.inPos == Slot(|s.pushed|, n) && s.ring.outPos == Slot(|s.popped|, n)
    // First in, first out.
    && s.popped <= s.pushed
    && forall k :: |s.popped| <= k < |s.pushed| ==> s.ring.buffer[Slot(k, n)] == s.pushed[k]
  }

  lemma NextSlot(k: nat, n: nat)
    requires n > 0
    ensures Slot(k + 1, n) == (Slot(k, n) + 1) % n
  {
    var q, r := k / n, k % n;
    assert k == n * q + r;
    if r + 1 < n {
      Division(k + 1, n, q, r + 1);
      Division(r + 1, n, 0, r + 1);
    } else {
      assert k + 1 == n * q + n == n * (q + 1);
      Division(k + 1, n, q + 1, 0);
      Division(n, n, 1, 0);
    }
  }

  lemma Division(x: nat, n: nat, q: nat, r: nat)
    requires n > 0 && x == n * q + r && r < n
    ensures x % n == r
  {
    var d := x / n - q;
    assert x == n * (x / n) + x % n;
    assert n * d == r - x % n;
  }

  lemma SlotsDiffer(j: nat, k: nat, n: nat)
    requires 0 < n && j < k < j + n
    ensures Slot(j, n) != Slot(k, n)
  {
    if j % n == k % n {
      var d := k / n - j / n;
      assert k - j == n * d by {
        assert j == n * (j / n) + j % n && k == n * (k / n) + k % n;
      }
    }
  }

  /** A push writes a slot no unread item is in. */
  lemma NoUnreadOverwritten<T>(s: State<T>, n: nat, k: nat)
    requires Inv(s, n) && s.entering > 0 && |s.popped| <= k < |s.pushed|
    ensures s.ring.inPos != Slot(k, n)
  {
    SlotsDiffer(k, |s.pushed|, n);
  }

  lemma WriteKeeps<T>(s: State<T>, n: nat, x: T)
    requires Inv(s, n) && s.entering > 0
    ensures RingOk(s.ring) && Inv(Act(s, WriteItem(x)), n)
  {
    hide Slot;
    NextSlot(|s.pushed|, n);
    var t := Act(s, WriteItem(x));
    forall k | |t.popped| <= k < |t.pushed| ensures t.ring.buffer[Slot(k, n)] == t.pushed[k] {
      if k < |s.pushed| {
        NoUnreadOverwritten(s, n, k);
      }
    }
  }

  lemma ReadKeeps<T>(s: State<T>, n: nat)
    requires Inv(s, n) && s.taking > 0
    ensures RingOk(s.ring) && Inv(Act(s, ReadItem), n)
  {
    hide Slot;
    NextSlot(|s.popped|, n);
    assert Front(s.ring) == s.pushed[|s.popped|];
  }

  lemma ActKeeps<T>(s: State<T>, n: nat, a: Action<T>)
    requires Inv(s, n) && Enabled(s, a)
    ensures RingOk(s.ring) && Inv(Act(s, a), n)
  {
    hide Slot;
    match a
    case WriteItem(x) => WriteKeeps(s, n, x);
    case ReadItem => ReadKeeps(s, n);
    case _ =>
  }

  lemma InitialKeeps<T>(s: State<T>)
    requires Initial(s)
    ensures Inv(s, |s.ring.buffer|)
  {
  }

  /**
    In every interleaving: what was popped is a prefix of what was pushed, free slots, stored
    items and operations under way add up to the capacity, and neither semaphore exceeds it.
   */
  lemma {:induction false} QueueIsFifo<T>(states: seq<State<T>>, actions: seq<Action<T>>, i: nat)
    requires Run(states, actions) && i < |states|
    ensures var s, n := states[i], |states[0].ring.buffer|;
            && Inv(s, n)
            && s.popped <= s.pushed
            && s.space + s.entering + s.leaving + s.data + s.taking + s.freeing == n
            && s.space <= n && s.data <= n
  {
    hide Slot, Act;
    if i == 0 {
      InitialKeeps(states[0]);
    } else {
      QueueIsFifo(states, actions, i - 1);
      ActKeeps(states[i - 1], |states[0].ring.buffer|, actions[i - 1]);
    }
  }

  /** A pop with a data token gets exactly the next item in pushing order. */
  lemma PopGetsNext<T>(states: seq<State<T>>, actions: seq<Action<T>>, i: nat)
    requires Run(states, actions) && i < |actions| && actions[i] == ReadItem
    ensures var s := states[i];
            |s.popped| < |s.pushed| && states[i + 1].popped == s.popped + [s.pushed[|s.popped|]]
  {
    hide Slot;
    QueueIsFifo(states, actions, i);
    var s, n := states[i], |states[0].ring.buffer|;
  }
}
