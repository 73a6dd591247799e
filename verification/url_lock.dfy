/** The per-key request lock: one mutex per bucket, and one mutex per key that is created when first asked for. */
module UrlLock {

  class Mutex {
    var held: bool

    constructor ()
      ensures !held
    {
      held := false;
    }

    method Unlock()
      requires held
      modifies this
      ensures !held
    {
      held := false;
    }
  }

  class URLLock {
    const hash: string -> nat
    const bucketsNum: nat
    var keys: seq<map<string, Mutex>>

    function Bucket(key: string): (b: nat)
      requires bucketsNum > 0
      ensures b < bucketsNum
    {
      hash(key) % bucketsNum
    }

    ghost predicate Bucketed()
      reads this
    {
      && bucketsNum > 0 && |keys| == bucketsNum
      && (forall b, k :: 0 <= b < |keys| && k in keys[b] ==> b == Bucket(k))
    }

    /** Each key has at most one mutex, in the bucket its hash selects, and no two keys share one. */
    ghost predicate Valid()
      reads this
    {
      && Bucketed()
      && (forall k, k' :: Has(k) && Has(k') && MutexOf(k) == MutexOf(k') ==> k == k')
    }

    predicate Has(key: string)
      requires bucketsNum > 0 && |keys| == bucketsNum
      reads this
    {
      key in keys[Bucket(key)]
    }

    function MutexOf(key: string): Mutex
      requires bucketsNum > 0 && |keys| == bucketsNum && Has(key)
      reads this
    {
      keys[Bucket(key)][key]
    }

    constructor (hash: string -> nat, bucketsNum: nat)
      requires bucketsNum > 0
      ensures Valid() && this.hash == hash && this.bucketsNum == bucketsNum
      ensures forall k :: !Has(k)
    {
      this.hash, this.bucketsNum := hash, bucketsNum;
      keys := [];
      new;
      for i := 0 to bucketsNum
        invariant |keys| == i && forall b :: 0 <= b < i ==> keys[b] == map[]
      {
        keys := keys + [map[]];
      }
    }

    /** The mutex of a key: the one in the table, or a new one, put there. */
    method LockFor(key: string) returns (lock: Mutex)
      requires Valid()
      modifies this
      ensures Valid() && Has(key) && lock == MutexOf(key)
      ensures if old(Has(key)) then lock == old(MutexOf(key)) else fresh(lock) && !lock.held
      ensures forall k :: k != key ==> (Has(k) <==> old(Has(k)))
      ensures forall k :: k != key && Has(k) ==> MutexOf(k) == old(MutexOf(k))
    {
      var b := Bucket(key);
      if key in keys[b] {
        lock := keys[b][key];
      } else {
        lock := new Mutex();
        assert forall k :: Has(k) ==> MutexOf(k) == old(MutexOf(k)) && MutexOf(k) != lock;
        Insert(key, lock);
      }
    }

    method Insert(key: string, lock: Mutex)
      requires Bucketed()
      modifies this`keys
      ensures Bucketed() && Has(key) && MutexOf(key) == lock
      ensures forall k :: k != key ==> (Has(k) <==> old(Has(k)))
      ensures forall k :: k != key && Has(k) ==> MutexOf(k) == old(MutexOf(k))
    {
      var b := Bucket(key);
      keys := keys[b := keys[b][key := lock]];
    }

    /**
     Takes the lock of a key.  The call goes on when the key's mutex is free; waiting for that is the subject of
     the transition system below.  A mutex, once created, stays the mutex of its key, and no other key's lock is
     touched.
     */
    method Acquire(key: string) returns (lock: Mutex)
      requires Valid() && (Has(key) ==> !MutexOf(key).held)
      modifies this, if Has(key) then {MutexOf(key)} else {}
      ensures Valid() && Has(key) && lock == MutexOf(key) && lock.held
      ensures if old(Has(key)) then lock == old(MutexOf(key)) else fresh(lock)
      ensures forall k :: k != key ==> (Has(k) <==> old(Has(k)))
      ensures forall k :: k != key && Has(k) ==> MutexOf(k) == old(MutexOf(k)) && MutexOf(k) != lock && MutexOf(k).held == old(MutexOf(k).held)
    {
      lock := LockFor(key);
      lock.held := true;
    }
  }
}

/** The lock as its callers see it: which thread holds which key. */
module LockSpec {
  type Locks = map<string, nat>

  datatype Event = Take(key: string, thread: nat) | Release(key: string, thread: nat)

  predicate Enabled(locks: Locks, ev: Event) {
    match ev
    case Take(key, _) => key !in locks
    case Release(key, t) => key in locks && locks[key] == t
  }

  function Apply(locks: Locks, ev: Event): Locks
    requires Enabled(locks, ev)
  {
    match ev
    case Take(key, t) => locks[key := t]
    case Release(key, _) => locks - {key}
  }
}

/**
 Any number of threads, each taking and releasing the locks of a finite list of keys one after the other.  One
 event is one operation of one thread on a mutex or on the table of mutexes.
 */
module LockMachine {
  import LockSpec

  datatype Pc =
    | Idle                                // before Acquire of the next key
    | InBucket(key: string)               // holds the bucket's mutex
    | WantsKey(key: string, id: nat)      // holds the bucket's mutex, about to lock the key's
    | HasBoth(key: string, id: nat)       // holds both
    | HasKey(key: string, id: nat)        // Acquire has returned

  datatype Thread = Thread(todo: seq<string>, pc: Pc)

  datatype State = State(
    buckets: map<nat, nat>,        // bucket to the thread holding its mutex
    mutexes: map<string, nat>,     // key to its mutex
    created: nat,                  // how many mutexes there are
    held: map<nat, nat>,           // mutex to the thread holding it
    threads: seq<Thread>)

  function Init(programs: seq<seq<string>>): State {
    State(map[], map[], 0, map[], seq(|programs|, i requires 0 <= i < |programs| => Thread(programs[i], Idle)))
  }

  /** `bucketOf` is the bucket that a key's hash selects; an event is a step of one thread. */
  predicate Enabled(bucketOf: string -> nat, s: State, t: nat) {
    t < |s.threads| &&
    match s.threads[t].pc
    case Idle => s.threads[t].todo != [] && bucketOf(s.threads[t].todo[0]) !in s.buckets
    case WantsKey(_, id) => id !in s.held
    case _ => true
  }

  function Step(bucketOf: string -> nat, s: State, t: nat): State
    requires Enabled(bucketOf, s, t)
  {
    var th := s.threads[t];
    match th.pc
    case Idle =>
      s.(buckets := s.buckets[bucketOf(th.todo[0]) := t],
         threads := s.threads[t := Thread(th.todo[1..], InBucket(th.todo[0]))])
    case InBucket(key) =>
      if key in s.mutexes then s.(threads := s.threads[t := th.(pc := WantsKey(key, s.mutexes[key]))])
      else s.(mutexes := s.mutexes[key := s.created], created := s.created + 1,
              threads := s.threads[t := th.(pc := WantsKey(key, s.created))])
    case WantsKey(key, id) =>
      s.(held := s.held[id := t], threads := s.threads[t := th.(pc := HasBoth(key, id))])
    case HasBoth(key, id) =>
      s.(buckets := s.buckets - {bucketOf(key)}, threads := s.threads[t := th.(pc := HasKey(key, id))])
    case HasKey(key, id) =>
      s.(held := s.held - {id}, threads := s.threads[t := th.(pc := Idle)])
  }

  ghost predicate Legal(bucketOf: string -> nat, s: State, run: seq<nat>)
    decreases |run|, 0
  {
    run == [] || (Legal(bucketOf, s, run[..|run| - 1]) && Enabled(bucketOf, After(bucketOf, s, run[..|run| - 1]), run[|run| - 1]))
  }

  ghost function After(bucketOf: string -> nat, s: State, run: seq<nat>): State
    requires Legal(bucketOf, s, run)
    decreases |run|, 1
  {
    if run == [] then s else Step(bucketOf, After(bucketOf, s, run[..|run| - 1]), run[|run| - 1])
  }

  predicate InsideBucket(pc: Pc) { pc.InBucket? || pc.WantsKey? || pc.HasBoth? }

  predicate Holds(pc: Pc) { pc.HasBoth? || pc.HasKey? }

  predicate Knows(pc: Pc) { pc.WantsKey? || pc.HasBoth? || pc.HasKey? }

  /** The holder of a bucket's mutex is the one thread inside that bucket. */
  ghost predicate BucketInv(bucketOf: string -> nat, s: State) {
    && (forall t :: 0 <= t < |s.threads| && InsideBucket(s.threads[t].pc) ==>
          bucketOf(s.threads[t].pc.key) in s.buckets && s.buckets[bucketOf(s.threads[t].pc.key)] == t)
    && (forall b :: b in s.buckets ==>
          s.buckets[b] < |s.threads| && InsideBucket(s.threads[s.buckets[b]].pc) && bucketOf(s.threads[s.buckets[b]].pc.key) == b)
  }

  /** Every thread that knows a key's mutex knows the one in the table; distinct keys have distinct mutexes. */
  ghost predicate MutexInv(s: State) {
    && (forall t :: 0 <= t < |s.threads| && Knows(s.threads[t].pc) ==>
          s.threads[t].pc.key in s.mutexes && s.mutexes[s.threads[t].pc.key] == s.threads[t].pc.id)
    && (forall k :: k in s.mutexes ==> s.mutexes[k] < s.created)
    && (forall k, k' :: k in s.mutexes && k' in s.mutexes && s.mutexes[k] == s.mutexes[k'] ==> k == k')
  }

  /** The holder of a key's mutex is the one thread that has locked it. */
  ghost predicate HeldInv(s: State) {
    && (forall t :: 0 <= t < |s.threads| && Holds(s.threads[t].pc) ==>
          s.threads[t].pc.id in s.held && s.held[s.threads[t].pc.id] == t)
    && (forall id :: id in s.held ==>
          s.held[id] < |s.threads| && Holds(s.threads[s.held[id]].pc) && s.threads[s.held[id]].pc.id == id)
  }

  ghost predicate Inv(bucketOf: string -> nat, s: State) { BucketInv(bucketOf, s) && MutexInv(s) && HeldInv(s) }

  lemma InvInit(bucketOf: string -> nat, programs: seq<seq<string>>)
    ensures Inv(bucketOf, Init(programs))
  {
  }

  /** What a step does to the bucket mutexes and to the threads. */
  lemma StepMoves(bucketOf: string -> nat, s: State, t: nat)
    requires Enabled(bucketOf, s, t)
    ensures var s', pc := Step(bucketOf, s, t), s.threads[t].pc;
            && |s'.threads| == |s.threads|
            && (forall u :: 0 <= u < |s.threads| && u != t ==> s'.threads[u] == s.threads[u])
            && s'.buckets == (if pc.Idle? then s.buckets[bucketOf(s.threads[t].todo[0]) := t]
                              else if pc.HasBoth? then s.buckets - {bucketOf(pc.key)} else s.buckets)
            && s'.held == (if pc.WantsKey? then s.held[pc.id := t] else if pc.HasKey? then s.held - {pc.id} else s.held)
  {
  }

  lemma PcMoves(bucketOf: string -> nat, s: State, t: nat)
    requires Enabled(bucketOf, s, t)
    ensures var pc, next := s.threads[t].pc, Step(bucketOf, s, t).threads[t].pc;
            match pc
            case Idle => s.threads[t].todo != [] && next == InBucket(s.threads[t].todo[0])
            case InBucket(key) => next.WantsKey? && next.key == key
            case WantsKey(key, id) => next == HasBoth(key, id)
            case HasBoth(key, id) => next == HasKey(key, id)
            case HasKey(_, _) => next == Idle
  {
  }

  lemma BucketStep(bucketOf: string -> nat, s: State, t: nat)
    requires BucketInv(bucketOf, s) && Enabled(bucketOf, s, t)
    ensures BucketInv(bucketOf, Step(bucketOf, s, t))
  {
    StepMoves(bucketOf, s, t);
    PcMoves(bucketOf, s, t);
    hide Step;
  }

  lemma MutexStep(bucketOf: string -> nat, s: State, t: nat)
    requires MutexInv(s) && Enabled(bucketOf, s, t)
    ensures MutexInv(Step(bucketOf, s, t))
  {
  }

  lemma HeldStep(bucketOf: string -> nat, s: State, t: nat)
    requires HeldInv(s) && Enabled(bucketOf, s, t)
    ensures HeldInv(Step(bucketOf, s, t))
  {
    StepMoves(bucketOf, s, t);
    PcMoves(bucketOf, s, t);
    hide Step;
  }

  lemma InvStep(bucketOf: string -> nat, s: State, t: nat)
    requires Inv(bucketOf, s) && Enabled(bucketOf, s, t)
    ensures Inv(bucketOf, Step(bucketOf, s, t))
  {
    hide BucketInv, MutexInv, HeldInv, Step;
    BucketStep(bucketOf, s, t);
    MutexStep(bucketOf, s, t);
    HeldStep(bucketOf, s, t);
  }

  lemma {:induction false} InvRun(bucketOf: string -> nat, programs: seq<seq<string>>, run: seq<nat>)
    requires Legal(bucketOf, Init(programs), run)
    ensures Inv(bucketOf, After(bucketOf, Init(programs), run))
    decreases |run|
  {
    if run == [] {
      InvInit(bucketOf, programs);
    } else {
      InvRun(bucketOf, programs, run[..|run| - 1]);
      InvStep(bucketOf, After(bucketOf, Init(programs), run[..|run| - 1]), run[|run| - 1]);
    }
  }

  /** At any time at most one thread holds a key, and at most one thread of a bucket waits for a key. */
  lemma MutualExclusion(bucketOf: string -> nat, programs: seq<seq<string>>, run: seq<nat>, t: nat, u: nat)
    requires Legal(bucketOf, Init(programs), run)
    requires t < |After(bucketOf, Init(programs), run).threads| && u < |After(bucketOf, Init(programs), run).threads|
    ensures var s := After(bucketOf, Init(programs), run);
            var p, q := s.threads[t].pc, s.threads[u].pc;
            && (Holds(p) && Holds(q) && p.key == q.key ==> t == u)
            && (p.WantsKey? && q.WantsKey? && bucketOf(p.key) == bucketOf(q.key) ==> t == u)
            && (Knows(p) && Knows(q) ==> (p.key == q.key <==> p.id == q.id))
  {
    InvRun(bucketOf, programs, run);
  }

  /** A key's mutex never changes. */
  lemma {:induction false} MutexStable(bucketOf: string -> nat, s: State, run: seq<nat>, key: string)
    requires Legal(bucketOf, s, run) && key in s.mutexes
    ensures key in After(bucketOf, s, run).mutexes && After(bucketOf, s, run).mutexes[key] == s.mutexes[key]
    decreases |run|
  {
    if run != [] {
      MutexStable(bucketOf, s, run[..|run| - 1], key);
    }
  }

  // ---------- what the callers see ----------

  function HeldKeys(mutexes: map<string, nat>, held: map<nat, nat>): LockSpec.Locks {
    map k | k in mutexes && mutexes[k] in held :: held[mutexes[k]]
  }

  function Abs(s: State): LockSpec.Locks { HeldKeys(s.mutexes, s.held) }

  lemma HeldKeysUpdate(mutexes: map<string, nat>, held: map<nat, nat>, key: string, t: nat)
    requires key in mutexes && forall k :: k in mutexes && mutexes[k] == mutexes[key] ==> k == key
    ensures HeldKeys(mutexes, held[mutexes[key] := t]) == HeldKeys(mutexes, held)[key := t]
    ensures HeldKeys(mutexes, held - {mutexes[key]}) == HeldKeys(mutexes, held) - {key}
  {
  }

  lemma HeldKeysCreate(mutexes: map<string, nat>, held: map<nat, nat>, key: string, id: nat)
    requires key !in mutexes && id !in held
    ensures HeldKeys(mutexes[key := id], held) == HeldKeys(mutexes, held)
  {
  }

  lemma FreeOrHeld(s: State, t: nat)
    requires MutexInv(s) && HeldInv(s) && t < |s.threads|
    ensures var pc := s.threads[t].pc;
            && (pc.WantsKey? && pc.id !in s.held ==> pc.key !in Abs(s))
            && (pc.HasKey? ==> pc.key in Abs(s) && Abs(s)[pc.key] == t)
            && s.created !in s.held
  {
  }

  /** Every step takes a free key, releases a held one, or is invisible. */
  lemma Refines(bucketOf: string -> nat, s: State, t: nat)
    requires Inv(bucketOf, s) && Enabled(bucketOf, s, t)
    ensures var pc, after := s.threads[t].pc, Abs(Step(bucketOf, s, t));
            if pc.WantsKey? then
              LockSpec.Enabled(Abs(s), LockSpec.Take(pc.key, t)) && after == LockSpec.Apply(Abs(s), LockSpec.Take(pc.key, t))
            else if pc.HasKey? then
              LockSpec.Enabled(Abs(s), LockSpec.Release(pc.key, t)) && after == LockSpec.Apply(Abs(s), LockSpec.Release(pc.key, t))
            else after == Abs(s)
  {
    hide BucketInv, HeldKeys;
    var pc := s.threads[t].pc;
    FreeOrHeld(s, t);
    match pc
    case WantsKey(key, _) => HeldKeysUpdate(s.mutexes, s.held, key, t);
    case HasKey(key, _) => HeldKeysUpdate(s.mutexes, s.held, key, t);
    case InBucket(key) => if key !in s.mutexes { HeldKeysCreate(s.mutexes, s.held, key, s.created); }
    case _ =>
  }

  // ---------- progress ----------

  predicate Done(th: Thread) { th.pc.Idle? && th.todo == [] }

  ghost predicate AllDone(s: State) { forall t :: 0 <= t < |s.threads| ==> Done(s.threads[t]) }

  /** While a thread is not done, that thread, the holder of the bucket it wants or the holder of that one's key can step. */
  lemma NoDeadlock(bucketOf: string -> nat, s: State, t: nat) returns (u: nat)
    requires Inv(bucketOf, s) && t < |s.threads| && !Done(s.threads[t])
    ensures Enabled(bucketOf, s, u)
  {
    u := t;
    if s.threads[u].pc.Idle? && bucketOf(s.threads[u].todo[0]) in s.buckets {
      u := s.buckets[bucketOf(s.threads[u].todo[0])];
    }
    if s.threads[u].pc.WantsKey? && s.threads[u].pc.id in s.held {
      u := s.held[s.threads[u].pc.id];
    }
  }

  function Rank(th: Thread): nat {
    5 * |th.todo| + match th.pc case Idle => 0 case InBucket(_) => 4 case WantsKey(_, _) => 3 case HasBoth(_, _) => 2 case HasKey(_, _) => 1
  }

  function Work(threads: seq<Thread>): nat {
    if threads == [] then 0 else Rank(threads[0]) + Work(threads[1..])
  }

  lemma {:induction false} WorkUpdate(threads: seq<Thread>, t: nat, th: Thread)
    requires t < |threads|
    ensures Work(threads[t := th]) == Work(threads) - Rank(threads[t]) + Rank(th)
  {
    if t > 0 {
      WorkUpdate(threads[1..], t - 1, th);
      assert threads[t := th][1..] == threads[1..][t - 1 := th];
    }
  }

  lemma StepWorks(bucketOf: string -> nat, s: State, t: nat)
    requires Enabled(bucketOf, s, t)
    ensures Work(Step(bucketOf, s, t).threads) == Work(s.threads) - 1
  {
    WorkUpdate(s.threads, t, Step(bucketOf, s, t).threads[t]);
  }

  lemma {:induction false} RunWorks(bucketOf: string -> nat, s: State, run: seq<nat>)
    requires Legal(bucketOf, s, run)
    ensures |run| + Work(After(bucketOf, s, run).threads) == Work(s.threads)
    decreases |run|
  {
    if run != [] {
      RunWorks(bucketOf, s, run[..|run| - 1]);
      StepWorks(bucketOf, After(bucketOf, s, run[..|run| - 1]), run[|run| - 1]);
    }
  }

  /**
   Every run that cannot go on has finished every program, and it took exactly five steps for each acquisition,
   whatever the interleaving; no run is longer.
   */
  lemma EveryRunFinishes(bucketOf: string -> nat, programs: seq<seq<string>>, run: seq<nat>)
    requires Legal(bucketOf, Init(programs), run)
    ensures |run| <= 5 * Total(programs)
    ensures var s := After(bucketOf, Init(programs), run);
            (forall t :: !Enabled(bucketOf, s, t)) <==> |run| == 5 * Total(programs)
    ensures |run| == 5 * Total(programs) ==> AllDone(After(bucketOf, Init(programs), run))
  {
    var s := After(bucketOf, Init(programs), run);
    InvRun(bucketOf, programs, run);
    RunWorks(bucketOf, Init(programs), run);
    InitWork(programs);
    WorkZero(s.threads);
    if !AllDone(s) {
      var t :| 0 <= t < |s.threads| && !Done(s.threads[t]);
      var u := NoDeadlock(bucketOf, s, t);
    }
  }

  function Total(programs: seq<seq<string>>): nat {
    if programs == [] then 0 else |programs[0]| + Total(programs[1..])
  }

  lemma {:induction false} InitWork(programs: seq<seq<string>>)
    ensures Work(Init(programs).threads) == 5 * Total(programs)
  {
    if programs != [] {
      InitWork(programs[1..]);
      assert Init(programs).threads[1..] == Init(programs[1..]).threads;
    }
  }

  lemma {:induction false} WorkZero(threads: seq<Thread>)
    ensures Work(threads) == 0 <==> forall t :: 0 <= t < |threads| ==> Done(threads[t])
  {
    if threads != [] {
      WorkZero(threads[1..]);
      assert forall t :: 1 <= t < |threads| ==> threads[t] == threads[1..][t - 1];
      assert Work(threads[1..]) == 0 ==> forall t :: 0 <= t < |threads[1..]| ==> Done(threads[1..][t]);
      assert (forall t :: 0 <= t < |threads| ==> Done(threads[t])) ==> forall t :: 0 <= t < |threads[1..]| ==> Done(threads[1..][t]);
    }
  }
}
