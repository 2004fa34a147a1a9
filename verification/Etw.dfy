/** Kernel trace counting: per-processor counters that a callback adds to while another thread
    takes them slot by slot, and stack samples gathered into a bounded number of buckets. */
module Etw {
  import opened Arithmetic
  import opened Sorting
  import opened Splits
  import opened Text

  /** A 64-bit word: an address or a hash. */
  type Word = x: int | 0 <= x < 0x1_0000_0000_0000_0000

  // --- Events -------------------------------------------------------------------------------

  datatype Provider = Thread | PerfInfo | Elsewhere

  /** Extended data of an event: a call stack, one too short to hold even its identifier, or
      something else. */
  datatype Item = StackTrace(addresses: seq<Word>) | ShortStackTrace | OtherItem

  datatype Record = Record(provider: Provider, opcode: nat, processor: nat, processId: Word, items: seq<Item>)

  const OPCODE_SWITCH: nat := 36
  const OPCODE_SAMPLED_PROFILE: nat := 46
  const OPCODE_DPC: nat := 66
  const OPCODE_INTERRUPT: nat := 67
  const OPCODE_THREAD_DPC: nat := 68
  const OPCODE_TIMER_DPC: nat := 69

  const MAX_FRAMES: nat := 48
  const MAX_DISTINCT_STACKS: nat := 4096
  const KERNEL_SPACE: Word := 0xFFFF_8000_0000_0000

  datatype Slot = Switches(processor: nat) | Dpcs(processor: nat) | Interrupts(processor: nat) | Unattributed

  datatype Sample = Sample(processId: Word, frames: seq<Word>)

  /** The slot an event is counted in, if it is of a counted kind. */
  function CountedIn(r: Record, processors: nat): Option<Slot> {
    var isSwitch := r.provider == Thread && r.opcode == OPCODE_SWITCH;
    var isDpc := r.provider == PerfInfo && (r.opcode == OPCODE_DPC || r.opcode == OPCODE_THREAD_DPC
        || r.opcode == OPCODE_TIMER_DPC);
    var isInterrupt := r.provider == PerfInfo && r.opcode == OPCODE_INTERRUPT;
    if !isSwitch && !isDpc && !isInterrupt then None
    else if r.processor >= processors then Some(Unattributed)
    else if isSwitch then Some(Switches(r.processor))
    else if isDpc then Some(Dpcs(r.processor))
    else Some(Interrupts(r.processor))
  }

  /** The first call stack among the items. */
  function FindStack(items: seq<Item>): seq<Word> {
    if items == [] then []
    else if items[0].StackTrace? then items[0].addresses
    else FindStack(items[1..])
  }

  predicate IsProfile(r: Record, sampling: bool) {
    sampling && r.opcode == OPCODE_SAMPLED_PROFILE && r.provider == PerfInfo
  }

  /** The sample an event carries: its process and its innermost frames. */
  function SampleIn(r: Record, sampling: bool): Option<Sample> {
    var stack := FindStack(r.items);
    if !IsProfile(r, sampling) || stack == [] then None
    else Some(Sample(r.processId, if |stack| > MAX_FRAMES then stack[..MAX_FRAMES] else stack))
  }

  /** An event is a sample exactly when sampling is on, it is a profile event of the kernel and
      its first call stack is not empty; the sample has its process and that stack's first 48
      addresses. */
  lemma {:induction false} SampleTells(r: Record, sampling: bool, i: nat)
    requires i <= |r.items| && (forall j | 0 <= j < i :: !r.items[j].StackTrace?)
    requires i < |r.items| ==> r.items[i].StackTrace?
    ensures SampleIn(r, sampling).Some?
       <==> sampling && r.provider == PerfInfo && r.opcode == 46 && i < |r.items| && r.items[i].addresses != []
    ensures SampleIn(r, sampling).Some? ==>
              var s := SampleIn(r, sampling).value;
              && s.processId == r.processId && s.frames <= r.items[i].addresses
              && (|s.frames| == 48 || s.frames == r.items[i].addresses) && 1 <= |s.frames| <= 48
  {
    FirstStack(r.items, i);
  }

  lemma {:induction false} FirstStack(items: seq<Item>, i: nat)
    requires i <= |items| && (forall j | 0 <= j < i :: !items[j].StackTrace?)
    requires i < |items| ==> items[i].StackTrace?
    ensures FindStack(items) == if i < |items| then items[i].addresses else []
  {
    if i > 0 { FirstStack(items[1..], i - 1); }
  }

  // --- Counters ---------------------------------------------------------------------------------

  datatype Counts = Counts(contextSwitches: seq<nat>, dpcs: seq<nat>, interrupts: seq<nat>, unattributed: nat) {
    predicate Has(slot: Slot) {
      match slot
      case Switches(i) => i < |contextSwitches|
      case Dpcs(i) => i < |dpcs|
      case Interrupts(i) => i < |interrupts|
      case Unattributed => true
    }

    function Get(slot: Slot): nat
      requires Has(slot)
    {
      match slot
      case Switches(i) => contextSwitches[i]
      case Dpcs(i) => dpcs[i]
      case Interrupts(i) => interrupts[i]
      case Unattributed => unattributed
    }

    function Put(slot: Slot, n: nat): Counts
      requires Has(slot)
    {
      match slot
      case Switches(i) => this.(contextSwitches := contextSwitches[i := n])
      case Dpcs(i) => this.(dpcs := dpcs[i := n])
      case Interrupts(i) => this.(interrupts := interrupts[i := n])
      case Unattributed => this.(unattributed := n)
    }

    predicate For(processors: nat) {
      |contextSwitches| == processors && |dpcs| == processors && |interrupts| == processors
    }
  }

  /** What the two threads do to the counters: the callback gets an event, or the taker swaps
      one counter for zero. Either is one atomic step. */
  datatype Action = Deliver(record: Record) | Exchange(slot: Slot)

  datatype Taken = Taken(slot: Slot, count: nat)

  /** The counters, and everything taken from them so far. */
  datatype Trace = Trace(counts: Counts, taken: seq<Taken>)

  /** One event counted. */
  function CountOne(c: Counts, record: Record): (r: Counts)
    ensures forall n: nat :: c.For(n) ==> r.For(n)
  {
    var slot := CountedIn(record, |c.contextSwitches|);
    if slot.None? || !c.Has(slot.value) then c else c.Put(slot.value, c.Get(slot.value) + 1)
  }

  function Step(t: Trace, a: Action): (r: Trace)
    ensures forall n: nat :: t.counts.For(n) ==> r.counts.For(n)
  {
    match a
    case Deliver(record) => t.(counts := CountOne(t.counts, record))
    case Exchange(slot) =>
      if !t.counts.Has(slot) then t
      else Trace(t.counts.Put(slot, 0), t.taken + [Taken(slot, t.counts.Get(slot))])
  }

  function Run(t: Trace, actions: seq<Action>): (r: Trace)
    ensures forall n: nat :: t.counts.For(n) ==> r.counts.For(n)
  {
    if actions == [] then t else Step(Run(t, actions[..|actions| - 1]), actions[|actions| - 1])
  }

  /** How much has been taken from a slot. */
  function Reported(taken: seq<Taken>, slot: Slot): nat {
    if taken == [] then 0 else
    var last := taken[|taken| - 1];
    Reported(taken[..|taken| - 1], slot) + if last.slot == slot then last.count else 0
  }

  /** How many events have been delivered that belong in a slot. */
  function Delivered(actions: seq<Action>, slot: Slot, processors: nat): nat {
    if actions == [] then 0 else
    var last := actions[|actions| - 1];
    Delivered(actions[..|actions| - 1], slot, processors)
    + if last.Deliver? && CountedIn(last.record, processors) == Some(slot) then 1 else 0
  }

  lemma {:induction false} PutGet(c: Counts, put: Slot, n: nat, slot: Slot)
    requires c.Has(put) && c.Has(slot)
    ensures c.Put(put, n).Has(slot) && c.Put(put, n).Get(slot) == if slot == put then n else c.Get(slot)
  {
  }

  lemma {:induction false} ReportedSnoc(taken: seq<Taken>, last: Taken, slot: Slot)
    ensures Reported(taken + [last], slot) == Reported(taken, slot) + if last.slot == slot then last.count else 0
  {
    assert (taken + [last])[..|taken|] == taken;
  }

  lemma {:induction false} StepConserves(t: Trace, a: Action, slot: Slot, processors: nat)
    requires t.counts.For(processors) && t.counts.Has(slot)
    ensures var r := Step(t, a);
            r.counts.Has(slot) && Reported(r.taken, slot) + r.counts.Get(slot)
            == Reported(t.taken, slot) + t.counts.Get(slot)
               + if a.Deliver? && CountedIn(a.record, processors) == Some(slot) then 1 else 0
  {
    match a
    case Deliver(record) =>
      var target := CountedIn(record, processors);
      if target.Some? { PutGet(t.counts, target.value, t.counts.Get(target.value) + 1, slot); }
    case Exchange(target) =>
      if t.counts.Has(target) {
        PutGet(t.counts, target, 0, slot);
        ReportedSnoc(t.taken, Taken(target, t.counts.Get(target)), slot);
      }
  }

  /** However the callback and the taker interleave, what was taken from a slot and what is
      still in it are together what it started with and the events delivered to it. */
  lemma {:induction false} NothingLost(t: Trace, actions: seq<Action>, slot: Slot, processors: nat)
    requires t.counts.For(processors) && t.counts.Has(slot)
    ensures var r := Run(t, actions);
            r.counts.For(processors) && r.counts.Has(slot) && Reported(r.taken, slot) + r.counts.Get(slot)
            == Reported(t.taken, slot) + t.counts.Get(slot) + Delivered(actions, slot, processors)
  {
    if actions != [] {
      var n := |actions| - 1;
      NothingLost(t, actions[..n], slot, processors);
      StepConserves(Run(t, actions[..n]), actions[n], slot, processors);
    }
  }

  /** Taking a slot leaves nothing of it unreported, so nothing is put off either. */
  lemma {:induction false} ExchangeCatchesUp(t: Trace, actions: seq<Action>, slot: Slot, processors: nat)
    requires t.counts.For(processors) && t.counts.Has(slot)
    ensures Reported(Run(t, actions + [Exchange(slot)]).taken, slot)
         == Reported(t.taken, slot) + t.counts.Get(slot) + Delivered(actions, slot, processors)
  {
    var all := actions + [Exchange(slot)];
    assert all[..|actions|] == actions;
    NothingLost(t, actions, slot, processors);
    NothingLost(t, all, slot, processors);
    var before := Run(t, actions);
    PutGet(before.counts, slot, 0, slot);
  }

  // --- Stack samples --------------------------------------------------------------------------------

  datatype Bucket = Bucket(frames: seq<Word>, processId: Word, count: nat)

  /** The samples of one interval, gathered by the hash of their stacks. */
  datatype Aggregate = Aggregate(buckets: map<Word, Bucket>, total: nat, kernel: nat, user: nat, dropped: nat)

  const NOTHING := Aggregate(map[], 0, 0, 0, 0)

  const FNV_START: Word := 1469598103934665603

  /** Bit by bit, for numbers of `n` bits. */
  function XorBits(a: nat, b: nat, n: nat): (r: nat)
    requires a < Power2(n) && b < Power2(n)
    ensures r < Power2(n)
  {
    if n == 0 then 0 else (if a % 2 == b % 2 then 0 else 1) + 2 * XorBits(a / 2, b / 2, n - 1)
  }

  lemma {:induction false} WordBits()
    ensures Power2(64) == 0x1_0000_0000_0000_0000
  {
    assert Power2(4) == 16 by { assert Power2(2) == 2 * Power2(1) == 4 * Power2(0); PowerSum(2, 2); }
    PowerSum(4, 4);
    PowerSum(8, 8);
    PowerSum(16, 16);
    PowerSum(32, 32);
  }

  function Xor(a: Word, b: Word): Word {
    WordBits();
    XorBits(a, b, 64)
  }

  function Mix(hash: Word, value: Word): Word { Xor(hash, value) * 1099511628211 % 0x1_0000_0000_0000_0000 }

  function HashFrames(start: Word, frames: seq<Word>): Word {
    if frames == [] then start else Mix(HashFrames(start, frames[..|frames| - 1]), frames[|frames| - 1])
  }

  /** FNV-1a over the process and the addresses. */
  function Hash(s: Sample): Word { HashFrames(Mix(FNV_START, s.processId), s.frames) }

  predicate InKernel(s: Sample) { s.frames != [] && s.frames[0] >= KERNEL_SPACE }

  function Gathered(a: Aggregate, s: Sample): Aggregate { GatheredAt(a, s, Hash(s)) }

  function GatheredAt(a: Aggregate, s: Sample, h: Word): Aggregate {
    var counted := a.(total := a.total + 1,
                      kernel := a.kernel + (if InKernel(s) then 1 else 0),
                      user := a.user + (if InKernel(s) then 0 else 1));
    if h in a.buckets then counted.(buckets := a.buckets[h := a.buckets[h].(count := a.buckets[h].count + 1)])
    else if |a.buckets| >= MAX_DISTINCT_STACKS then counted.(dropped := a.dropped + 1)
    else counted.(buckets := a.buckets[h := Bucket(s.frames, s.processId, 1)])
  }

  function GatherAll(samples: seq<Sample>): Aggregate {
    if samples == [] then NOTHING else Gathered(GatherAll(samples[..|samples| - 1]), samples[|samples| - 1])
  }

  /** How many samples have the hash. */
  function Multiplicity(samples: seq<Sample>, h: Word): nat {
    if samples == [] then 0 else
    Multiplicity(samples[..|samples| - 1], h) + if Hash(samples[|samples| - 1]) == h then 1 else 0
  }

  /** The first sample with the hash. */
  function FirstWith(samples: seq<Sample>, h: Word): Option<Sample> {
    if samples == [] then None else
    var earlier := FirstWith(samples[..|samples| - 1], h);
    var last := samples[|samples| - 1];
    if earlier.Some? then earlier else if Hash(last) == h then Some(last) else None
  }

  /** How many samples have a hash outside `kept`. */
  function Outside(samples: seq<Sample>, kept: set<Word>): nat {
    if samples == [] then 0 else
    Outside(samples[..|samples| - 1], kept) + if Hash(samples[|samples| - 1]) in kept then 0 else 1
  }

  function InKernelOf(samples: seq<Sample>): nat {
    if samples == [] then 0 else
    InKernelOf(samples[..|samples| - 1]) + if InKernel(samples[|samples| - 1]) then 1 else 0
  }

  lemma {:induction false} FirstExists(samples: seq<Sample>, h: Word)
    ensures FirstWith(samples, h).Some? <==> Multiplicity(samples, h) > 0
  {
    if samples != [] { FirstExists(samples[..|samples| - 1], h); }
  }

  lemma {:induction false} OutsideGrows(samples: seq<Sample>, kept: set<Word>, h: Word)
    requires Multiplicity(samples, h) == 0
    ensures Outside(samples, kept + {h}) == Outside(samples, kept)
  {
    if samples != [] { OutsideGrows(samples[..|samples| - 1], kept, h); }
  }

  /** A bucket stands for its hash: the first stack with it, and how often it came. */
  ghost predicate Exact(b: Bucket, samples: seq<Sample>, h: Word) {
    && b.count == Multiplicity(samples, h) > 0
    && FirstWith(samples, h) == Some(Sample(b.processId, b.frames))
  }

  ghost predicate AllExact(buckets: map<Word, Bucket>, samples: seq<Sample>) {
    && (forall h | h in buckets :: Exact(buckets[h], samples, h))
    && (forall h | h !in buckets && |buckets| < 4096 :: Multiplicity(samples, h) == 0)
  }

  lemma {:induction false} MapPutSize(m: map<Word, Bucket>, h: Word, b: Bucket)
    ensures |m[h := b]| == if h in m then |m| else |m| + 1
  {
    var put := m[h := b];
    assert put.Keys == m.Keys + {h};
    assert |put| == |put.Keys| && |m| == |m.Keys|;
    if h in m { assert put.Keys == m.Keys; }
  }

  /** The buckets after any samples: at most 4096 of them, each exact, and a hash has none
      only if it never came or the buckets were all in use. */
  lemma {:induction false} BucketsExact(samples: seq<Sample>)
    ensures |GatherAll(samples).buckets| <= 4096 && AllExact(GatherAll(samples).buckets, samples)
  {
    if samples != [] {
      var less, s := samples[..|samples| - 1], samples[|samples| - 1];
      BucketsExact(less);
      FirstExists(less, Hash(s));
      BucketsStep(GatherAll(less), less, s, samples);
    }
  }

  lemma {:induction false} BucketsStep(a: Aggregate, less: seq<Sample>, s: Sample, samples: seq<Sample>)
    requires samples != [] && less == samples[..|samples| - 1] && s == samples[|samples| - 1]
    requires |a.buckets| <= MAX_DISTINCT_STACKS && AllExact(a.buckets, less)
    requires FirstWith(less, Hash(s)).Some? <==> Multiplicity(less, Hash(s)) > 0
    ensures |Gathered(a, s).buckets| <= MAX_DISTINCT_STACKS && AllExact(Gathered(a, s).buckets, samples)
  {
    var h, buckets := Hash(s), Gathered(a, s).buckets;
    if h in a.buckets {
      MapPutSize(a.buckets, h, buckets[h]);
    } else if |a.buckets| < MAX_DISTINCT_STACKS {
      MapPutSize(a.buckets, h, buckets[h]);
    }
    forall k | k in buckets ensures Exact(buckets[k], samples, k) {
      if k in a.buckets { assert Exact(a.buckets[k], less, k); }
    }
    forall k | k !in buckets && |buckets| < MAX_DISTINCT_STACKS ensures Multiplicity(samples, k) == 0 {
      assert k !in a.buckets;
    }
  }

  /** Exactly the samples without a bucket are dropped. */
  lemma {:induction false} DroppedExact(samples: seq<Sample>)
    ensures GatherAll(samples).dropped == Outside(samples, GatherAll(samples).buckets.Keys)
  {
    if samples != [] {
      var less, s := samples[..|samples| - 1], samples[|samples| - 1];
      var a := GatherAll(less);
      DroppedExact(less);
      BucketsExact(less);
      if Hash(s) !in a.buckets && |a.buckets| < MAX_DISTINCT_STACKS {
        OutsideGrows(less, a.buckets.Keys, Hash(s));
        assert Gathered(a, s).buckets.Keys == a.buckets.Keys + {Hash(s)};
      } else {
        assert Gathered(a, s).buckets.Keys == a.buckets.Keys;
      }
    }
  }

  // --- Sums over buckets ---------------------------------------------------------------------------------

  ghost function CountSum(buckets: map<Word, Bucket>, keys: set<Word>): nat
    requires keys <= buckets.Keys
  {
    if keys == {} then 0 else
    var h :| h in keys;
    buckets[h].count + CountSum(buckets, keys - {h})
  }

  lemma {:induction false} CountSumWithout(buckets: map<Word, Bucket>, keys: set<Word>, h: Word)
    requires keys <= buckets.Keys && h in keys
    ensures CountSum(buckets, keys) == buckets[h].count + CountSum(buckets, keys - {h})
    decreases |keys|
  {
    var g :| g in keys && CountSum(buckets, keys) == buckets[g].count + CountSum(buckets, keys - {g});
    if g != h {
      CountSumWithout(buckets, keys - {g}, h);
      CountSumWithout(buckets, keys - {h}, g);
      assert keys - {g} - {h} == keys - {h} - {g};
    }
  }

  lemma {:induction false} CountSumSame(a: map<Word, Bucket>, b: map<Word, Bucket>, keys: set<Word>)
    requires keys <= a.Keys && keys <= b.Keys && forall h | h in keys :: a[h].count == b[h].count
    ensures CountSum(a, keys) == CountSum(b, keys)
    decreases |keys|
  {
    if keys != {} {
      var h :| h in keys;
      CountSumWithout(a, keys, h);
      CountSumWithout(b, keys, h);
      CountSumSame(a, b, keys - {h});
    }
  }

  lemma {:induction false} CountSumPut(m: map<Word, Bucket>, h: Word, b: Bucket)
    ensures BucketSum(m[h := b]) + (if h in m then m[h].count else 0) == BucketSum(m) + b.count
  {
    var put := m[h := b];
    CountSumWithout(put, put.Keys, h);
    assert put.Keys - {h} == m.Keys - {h};
    CountSumSame(put, m, m.Keys - {h});
    if h in m { CountSumWithout(m, m.Keys, h); } else { assert m.Keys - {h} == m.Keys; }
  }

  ghost function BucketSum(buckets: map<Word, Bucket>): nat { CountSum(buckets, buckets.Keys) }

  ghost predicate Balanced(a: Aggregate, samples: nat) {
    a.total == samples && a.kernel + a.user == samples && BucketSum(a.buckets) + a.dropped == samples
  }

  lemma {:induction false} GatheredBalances(a: Aggregate, s: Sample, n: nat)
    requires Balanced(a, n)
    ensures Balanced(Gathered(a, s), n + 1)
  {
    var h := Hash(s);
    if h in a.buckets || |a.buckets| < MAX_DISTINCT_STACKS {
      CountSumPut(a.buckets, h, Gathered(a, s).buckets[h]);
    }
  }

  /** Every sample is counted once in all, once on its side of the kernel boundary, and once
      in a bucket or among the dropped. */
  lemma {:induction false} AllBalanced(samples: seq<Sample>)
    ensures Balanced(GatherAll(samples), |samples|) && GatherAll(samples).kernel == InKernelOf(samples)
  {
    if samples == [] {
      NoBuckets();
    } else {
      var less := samples[..|samples| - 1];
      AllBalanced(less);
      GatheredBalances(GatherAll(less), samples[|less|], |less|);
    }
  }

  /** The samples whose innermost address is in the upper half of the address space. */
  ghost function KernelSide(samples: seq<Sample>): set<nat> {
    set i: nat | i < |samples| && samples[i].frames != [] && samples[i].frames[0] >= 0xFFFF_8000_0000_0000
  }

  lemma {:induction false} KernelExact(samples: seq<Sample>)
    ensures GatherAll(samples).kernel == |KernelSide(samples)|
    ensures GatherAll(samples).user == |samples| - |KernelSide(samples)|
  {
    AllBalanced(samples);
    KernelCounted(samples);
  }

  lemma {:induction false} KernelCounted(samples: seq<Sample>)
    ensures InKernelOf(samples) == |KernelSide(samples)|
  {
    if samples == [] {
      assert KernelSide(samples) == {};
    } else {
      var n := |samples| - 1;
      KernelCounted(samples[..n]);
      assert KernelSide(samples) == KernelSide(samples[..n]) + if InKernel(samples[n]) then {n} else {};
    }
  }

  // --- What the hash is ------------------------------------------------------------------

  lemma {:induction false} BitBelow(v: nat, n: nat)
    requires n > 0
    ensures Bit(v, n) == Bit(v / 2, n - 1)
  {
    DivTwice(v, 2, Power2(n - 1));
  }

  lemma {:induction false} LowBit(v: nat)
    ensures Bit(v, 0) == (v % 2 == 1)
  {
    assert Power2(0) == 1 && v / 1 == v;
  }

  lemma {:induction false} XorStep(a: nat, b: nat, width: nat)
    requires width > 0 && a < Power2(width) && b < Power2(width)
    ensures a / 2 < Power2(width - 1) && b / 2 < Power2(width - 1)
    ensures XorBits(a, b, width) % 2 == (if a % 2 == b % 2 then 0 else 1)
    ensures XorBits(a, b, width) / 2 == XorBits(a / 2, b / 2, width - 1)
  {
  }

  /** A bit of the exclusive or is set exactly when the two bits differ. */
  lemma {:induction false} XorBitTells(a: nat, b: nat, width: nat, n: nat)
    requires n < width && a < Power2(width) && b < Power2(width)
    ensures Bit(XorBits(a, b, width), n) <==> Bit(a, n) != Bit(b, n)
    decreases n
  {
    var x := XorBits(a, b, width);
    XorStep(a, b, width);
    if n == 0 {
      LowBit(a);
      LowBit(b);
      LowBit(x);
    } else {
      BitBelow(a, n);
      BitBelow(b, n);
      BitBelow(x, n);
      XorBitTells(a / 2, b / 2, width - 1, n - 1);
    }
  }

  /** The exclusive or of two words, bit by bit. */
  lemma {:induction false} XorIs(a: Word, b: Word, n: nat)
    requires n < 64
    ensures Bit(Xor(a, b), n) <==> Bit(a, n) != Bit(b, n)
  {
    WordBits();
    XorBitTells(a, b, 64, n);
  }

  // --- What the hash tells apart -----------------------------------------------------------

  /** The prime of FNV-1a has an inverse, so multiplying by it loses nothing. */
  lemma {:induction false} PrimeTurnsBack(x: Word)
    ensures x * 1099511628211 % 0x1_0000_0000_0000_0000 * 0xCE96_5057_AFF6_957B % 0x1_0000_0000_0000_0000 == x
  {
    var m := 0x1_0000_0000_0000_0000;
    var q, r := x * 1099511628211 / m, x * 1099511628211 % m;
    var k := 1099511628211 * 0xCE96_5057_AFF6_957B / m;
    assert 1099511628211 * 0xCE96_5057_AFF6_957B == k * m + 1;
    assert x * 1099511628211 == q * m + r;
    assert r * 0xCE96_5057_AFF6_957B == x + m * (x * k - q * 0xCE96_5057_AFF6_957B) by {
      assert r * 0xCE96_5057_AFF6_957B == x * 1099511628211 * 0xCE96_5057_AFF6_957B - q * m * 0xCE96_5057_AFF6_957B;
      assert x * 1099511628211 * 0xCE96_5057_AFF6_957B == x * (k * m + 1);
    }
    Quotient(r * 0xCE96_5057_AFF6_957B, m, x * k - q * 0xCE96_5057_AFF6_957B, x);
  }

  lemma {:induction false} XorBitsTell(h: nat, a: nat, b: nat, n: nat)
    requires h < Power2(n) && a < Power2(n) && b < Power2(n)
    ensures XorBits(h, a, n) == XorBits(h, b, n) ==> a == b
    ensures XorBits(h, a, n) == XorBits(a, h, n)
  {
    if n > 0 { XorBitsTell(h / 2, a / 2, b / 2, n - 1); }
  }

  lemma {:induction false} XorTells(h: Word, a: Word, b: Word)
    ensures Xor(h, a) == Xor(h, b) ==> a == b
    ensures Xor(a, h) == Xor(b, h) ==> a == b
  {
    WordBits();
    XorBitsTell(h, a, b, 64);
    XorBitsTell(h, b, a, 64);
  }

  lemma {:induction false} MixTells(h: Word, a: Word, b: Word)
    ensures Mix(h, a) == Mix(h, b) ==> a == b
    ensures Mix(a, h) == Mix(b, h) ==> a == b
  {
    XorTells(h, a, b);
    PrimeTurnsBack(Xor(h, a));
    PrimeTurnsBack(Xor(h, b));
    PrimeTurnsBack(Xor(a, h));
    PrimeTurnsBack(Xor(b, h));
  }

  /** Mixing the same addresses into different hashes leaves them different. */
  lemma {:induction false} StartTells(start: Word, other: Word, frames: seq<Word>)
    requires start != other
    ensures HashFrames(start, frames) != HashFrames(other, frames)
  {
    if frames != [] {
      var n := |frames| - 1;
      StartTells(start, other, frames[..n]);
      MixTells(frames[n], HashFrames(start, frames[..n]), HashFrames(other, frames[..n]));
    }
  }

  lemma {:induction false} FrameTells(start: Word, a: seq<Word>, b: seq<Word>, k: nat)
    requires k < |a| == |b| && a[k] != b[k] && forall i | 0 <= i < |a| && i != k :: a[i] == b[i]
    ensures HashFrames(start, a) != HashFrames(start, b)
  {
    var n := |a| - 1;
    if k == n {
      assert a[..n] == b[..n];
      MixTells(HashFrames(start, a[..n]), a[n], b[n]);
    } else {
      FrameTells(start, a[..n], b[..n], k);
      MixTells(a[n], HashFrames(start, a[..n]), HashFrames(start, b[..n]));
    }
  }

  /** Samples that differ in one address, or only in their process, have different hashes. */
  lemma {:induction false} HashTells(a: Sample, b: Sample, k: nat)
    requires |a.frames| == |b.frames| && a != b
    requires if a.processId == b.processId
             then k < |a.frames| && forall i | 0 <= i < |a.frames| && i != k :: a.frames[i] == b.frames[i]
             else a.frames == b.frames
    ensures Hash(a) != Hash(b)
  {
    if a.processId == b.processId {
      FrameTells(Mix(FNV_START, a.processId), a.frames, b.frames, k);
    } else {
      MixTells(FNV_START, a.processId, b.processId);
      StartTells(Mix(FNV_START, a.processId), Mix(FNV_START, b.processId), a.frames);
    }
  }

  lemma {:induction false} NoBuckets()
    ensures BucketSum(map[]) == 0
  {
    var none: map<Word, Bucket> := map[];
    assert none.Keys == {};
  }

  // --- Stacks taken in turns -----------------------------------------------------------------------------

  /** The callback gathers a sample, or the taker swaps everything gathered for nothing. */
  datatype StackAction = Gather(sample: Sample) | Swap

  datatype StackHistory = Stacks(current: Aggregate, taken: seq<Aggregate>)

  function StackStep(t: StackHistory, a: StackAction): StackHistory {
    match a
    case Gather(s) => t.(current := Gathered(t.current, s))
    case Swap => Stacks(NOTHING, t.taken + [t.current])
  }

  function StackRun(actions: seq<StackAction>): StackHistory {
    if actions == [] then Stacks(NOTHING, []) else StackStep(StackRun(actions[..|actions| - 1]), actions[|actions| - 1])
  }

  /** All samples of a run, in order. */
  function SamplesOf(actions: seq<StackAction>): seq<Sample> {
    if actions == [] then [] else
    var last := actions[|actions| - 1];
    SamplesOf(actions[..|actions| - 1]) + if last.Gather? then [last.sample] else []
  }

  /** The samples between swaps, the last interval still open. */
  function Intervals(actions: seq<StackAction>): (r: seq<seq<Sample>>)
    ensures r != []
  {
    if actions == [] then [[]] else
    var less := Intervals(actions[..|actions| - 1]);
    var n := |less| - 1;
    match actions[|actions| - 1]
    case Gather(s) => less[n := less[n] + [s]]
    case Swap => less + [[]]
  }

  /** The aggregate of an interval, under a name that does not unfold by itself. */
  ghost function Digest(samples: seq<Sample>): Aggregate { GatherAll(samples) }

  ghost predicate TakenFrom(t: StackHistory, intervals: seq<seq<Sample>>) {
    && |t.taken| + 1 == |intervals|
    && t.current == Digest(intervals[|t.taken|])
    && forall i | 0 <= i < |t.taken| :: t.taken[i] == Digest(intervals[i])
  }

  /** The intervals partition the samples. */
  lemma {:induction false} IntervalsFlatten(actions: seq<StackAction>)
    ensures Flatten(Intervals(actions)) == SamplesOf(actions)
  {
    if actions == [] {
      var one: seq<seq<Sample>> := [[]];
      assert one[..0] == [];
    } else {
      var n := |actions| - 1;
      IntervalsFlatten(actions[..n]);
      match actions[n]
      case Gather(s) => FlattenGrow(Intervals(actions[..n]), s);
      case Swap => FlattenSnoc(Intervals(actions[..n]), []);
    }
  }

  /** Whatever the order of samples and swaps, each report is the exact aggregate of its own
      interval. */
  lemma {:induction false} ReportsExact(actions: seq<StackAction>)
    ensures TakenFrom(StackRun(actions), Intervals(actions))
  {
    if actions == [] {
      NothingGathered();
    } else {
      var n := |actions| - 1;
      ReportsExact(actions[..n]);
      match actions[n]
      case Gather(s) =>
        var t, less := StackRun(actions[..n]), Intervals(actions[..n]);
        GatherSnoc(less[|less| - 1], s);
        LastGrows(t, less, less[|less| - 1] + [s], Gathered(t.current, s));
      case Swap => SwapTakes(StackRun(actions[..n]), Intervals(actions[..n]));
    }
  }

  lemma {:induction false} NothingGathered()
    ensures Digest([]) == NOTHING
  {
  }

  lemma {:induction false} SwapTakes(t: StackHistory, intervals: seq<seq<Sample>>)
    requires TakenFrom(t, intervals)
    ensures TakenFrom(StackStep(t, Swap), intervals + [[]])
  {
    NothingGathered();
  }

  lemma {:induction false} LastGrows(t: StackHistory, intervals: seq<seq<Sample>>, last: seq<Sample>,
                                     current: Aggregate)
    requires TakenFrom(t, intervals) && current == Digest(last)
    ensures TakenFrom(t.(current := current), intervals[|intervals| - 1 := last])
  {
  }

  function Totals(taken: seq<Aggregate>): nat {
    if taken == [] then 0 else Totals(taken[..|taken| - 1]) + taken[|taken| - 1].total
  }

  lemma {:induction false} TotalsAre(taken: seq<Aggregate>, intervals: seq<seq<Sample>>, n: nat)
    requires n <= |taken| && n <= |intervals| && forall i | 0 <= i < n :: taken[i] == Digest(intervals[i])
    ensures Totals(taken[..n]) == Before(intervals, n)
  {
    if n > 0 {
      assert taken[..n][..n - 1] == taken[..n - 1];
      TotalsAre(taken, intervals, n - 1);
      AllBalanced(intervals[n - 1]);
    }
  }

  /** Over every run: no sample is lost and none is counted twice. */
  lemma {:induction false} NoSampleLost(actions: seq<StackAction>)
    ensures Totals(StackRun(actions).taken) + StackRun(actions).current.total == |SamplesOf(actions)|
  {
    var t, intervals := StackRun(actions), Intervals(actions);
    var n := |t.taken|;
    IntervalsFlatten(actions);
    ReportsExact(actions);
    assert t.taken[..n] == t.taken;
    TotalsAre(t.taken, intervals, n);
    AllBalanced(intervals[n]);
    FlattenLength(intervals);
  }

  // --- The session ---------------------------------------------------------------------------------------

  /** The counting steps of some callbacks. */
  function Deliveries(records: seq<Record>): seq<Action> {
    if records == [] then [] else Deliveries(records[..|records| - 1]) + [Deliver(records[|records| - 1])]
  }

  function OneSample(r: Record, sampling: bool): seq<Sample> {
    var s := SampleIn(r, sampling);
    if s.Some? then [s.value] else []
  }

  /** The samples in some events. */
  function SamplesIn(records: seq<Record>, sampling: bool): seq<Sample> {
    if records == [] then [] else
    SamplesIn(records[..|records| - 1], sampling) + OneSample(records[|records| - 1], sampling)
  }

  /** A take as the callback sees it: before each exchange come some events. */
  function TakeActions(arriving: seq<seq<Record>>, slots: seq<Slot>): seq<Action>
    requires |slots| <= |arriving|
  {
    if slots == [] then [] else
    var n := |slots| - 1;
    TakeActions(arriving, slots[..n]) + (Deliveries(arriving[n]) + [Exchange(slots[n])])
  }

  function CountAll(c: Counts, records: seq<Record>): (r: Counts)
    ensures forall n: nat :: c.For(n) ==> r.For(n)
  {
    if records == [] then c else CountOne(CountAll(c, records[..|records| - 1]), records[|records| - 1])
  }

  /** What a take does, told exchange by exchange. */
  function Taking(t: Trace, arriving: seq<seq<Record>>, slots: seq<Slot>): Trace
    requires |slots| <= |arriving|
  {
    if slots == [] then t else
    var n := |slots| - 1;
    var before := Taking(t, arriving, slots[..n]);
    Step(before.(counts := CountAll(before.counts, arriving[n])), Exchange(slots[n]))
  }

  /** The order of the exchanges, processor by processor. */
  function ProcessorSlots(processors: nat): seq<Slot> {
    if processors == 0 then [] else
    var i := processors - 1;
    ProcessorSlots(i) + [Switches(i)] + [Dpcs(i)] + [Interrupts(i)]
  }

  /** `ProcessorSlots` under a name that does not unfold by itself. */
  function Ordered(processors: nat): seq<Slot> { ProcessorSlots(processors) }

  function Slots(processors: nat): seq<Slot> { Ordered(processors) + [Unattributed] }

  /** What those exchanges took when they filled the first `n` places of `c`. */
  function ProcessorTaken(c: Counts, n: nat): seq<Taken>
    requires n <= |c.contextSwitches| && n <= |c.dpcs| && n <= |c.interrupts|
  {
    if n == 0 then [] else
    var i := n - 1;
    ProcessorTaken(c, i) + [Taken(Switches(i), c.contextSwitches[i])] + [Taken(Dpcs(i), c.dpcs[i])]
    + [Taken(Interrupts(i), c.interrupts[i])]
  }

  /** `ProcessorTaken` under a name that does not unfold by itself. */
  function Filled(c: Counts, n: nat): seq<Taken>
    requires n <= |c.contextSwitches| && n <= |c.dpcs| && n <= |c.interrupts|
  {
    ProcessorTaken(c, n)
  }

  function AllTaken(c: Counts, processors: nat): seq<Taken>
    requires c.For(processors)
  {
    Filled(c, processors) + [Taken(Unattributed, c.unattributed)]
  }

  function Sum(s: seq<nat>): nat {
    if s == [] then 0 else Sum(s[..|s| - 1]) + s[|s| - 1]
  }

  datatype Report = Report(counts: Counts, totalSwitches: nat, totalDpcs: nat, totalInterrupts: nat)

  datatype StackSample = StackSample(processId: Word, frames: seq<Word>, count: nat)

  datatype StackSamples = StackSamples(stacks: seq<StackSample>, total: nat, kernel: nat, user: nat, dropped: nat)

  function SampleOf(b: Bucket): StackSample { StackSample(b.processId, b.frames, b.count) }

  lemma {:induction false} RunConcat(t: Trace, a: seq<Action>, b: seq<Action>)
    ensures Run(t, a + b) == Run(Run(t, a), b)
    decreases |b|
  {
    if b == [] {
      assert a + b == a;
    } else {
      var n := |b| - 1;
      RunConcat(t, a, b[..n]);
      assert (a + b)[..|a + b| - 1] == a + b[..n];
    }
  }

  lemma {:induction false} RunDeliveries(t: Trace, records: seq<Record>)
    ensures Run(t, Deliveries(records)) == t.(counts := CountAll(t.counts, records))
  {
    if records != [] {
      var less := Deliveries(records[..|records| - 1]);
      RunDeliveries(t, records[..|records| - 1]);
      assert Deliveries(records)[..|less|] == less;
    }
  }

  /** The take is a run of atomic steps, so what holds of every run holds of it. */
  lemma {:induction false} TakingIsRun(t: Trace, arriving: seq<seq<Record>>, slots: seq<Slot>)
    requires |slots| <= |arriving|
    ensures Taking(t, arriving, slots) == Run(t, TakeActions(arriving, slots))
    decreases |slots|
  {
    if slots != [] {
      var n := |slots| - 1;
      var actions := TakeActions(arriving, slots[..n]);
      var delivered := Deliveries(arriving[n]);
      var before := Run(t, actions);
      TakingIsRun(t, arriving, slots[..n]);
      RunConcat(t, actions, delivered + [Exchange(slots[n])]);
      RunConcat(before, delivered, [Exchange(slots[n])]);
      RunDeliveries(before, arriving[n]);
      OneAction(Run(before, delivered), Exchange(slots[n]));
    }
  }

  lemma {:induction false} OneAction(t: Trace, a: Action)
    ensures Run(t, [a]) == Step(t, a)
  {
    assert [a][..0] == [];
    assert Run(t, []) == t;
  }

  lemma {:induction false} TakingSnoc(t: Trace, arriving: seq<seq<Record>>, slots: seq<Slot>, slot: Slot)
    requires |slots| < |arriving|
    ensures var before := Took(t, arriving, slots);
            Took(t, arriving, slots + [slot])
            == Step(before.(counts := Counting(before.counts, arriving[|slots|])), Exchange(slot))
  {
    assert (slots + [slot])[..|slots|] == slots;
  }

  lemma {:induction false} ProcessorReported(c: Counts, n: nat, slot: Slot)
    requires n <= |c.contextSwitches| && n <= |c.dpcs| && n <= |c.interrupts| && c.Has(slot)
    ensures Reported(ProcessorTaken(c, n), slot) == if slot.Unattributed? || slot.processor >= n then 0 else c.Get(slot)
  {
    if n > 0 {
      var i := n - 1;
      var a := ProcessorTaken(c, i);
      var b := a + [Taken(Switches(i), c.contextSwitches[i])];
      var d := b + [Taken(Dpcs(i), c.dpcs[i])];
      ProcessorReported(c, i, slot);
      ReportedSnoc(a, Taken(Switches(i), c.contextSwitches[i]), slot);
      ReportedSnoc(b, Taken(Dpcs(i), c.dpcs[i]), slot);
      ReportedSnoc(d, Taken(Interrupts(i), c.interrupts[i]), slot);
    }
  }

  lemma {:induction false} TakenReported(c: Counts, processors: nat, slot: Slot)
    requires c.For(processors) && c.Has(slot)
    ensures Reported(AllTaken(c, processors), slot) == c.Get(slot)
  {
    ProcessorReported(c, processors, slot);
    ReportedSnoc(ProcessorTaken(c, processors), Taken(Unattributed, c.unattributed), slot);
  }

  /** A take under way while events arrive: each slot's report and what is left in the slot are
      together what was in it and the events that came. */
  lemma {:induction false} TakeConserves(before: Counts, arriving: seq<seq<Record>>, processors: nat, report: Counts,
                                         after: Counts,
                                         slot: Slot)
    requires before.For(processors) && report.For(processors) && before.Has(slot)
    requires |arriving| == |Slots(processors)|
    requires Taking(Trace(before, []), arriving, Slots(processors)) == Trace(after, AllTaken(report, processors))
    ensures report.Has(slot) && after.Has(slot)
    ensures report.Get(slot) + after.Get(slot)
         == before.Get(slot) + Delivered(TakeActions(arriving, Slots(processors)), slot, processors)
  {
    var t := Trace(before, []);
    TakingIsRun(t, arriving, Slots(processors));
    NothingLost(t, TakeActions(arriving, Slots(processors)), slot, processors);
    TakenReported(report, processors, slot);
  }

  lemma {:induction false} TakenMoreSame(a: Counts, b: Counts, n: nat)
    requires n <= |a.contextSwitches| && n <= |a.dpcs| && n <= |a.interrupts|
    requires a.contextSwitches <= b.contextSwitches && a.dpcs <= b.dpcs && a.interrupts <= b.interrupts
    ensures Filled(a, n) == Filled(b, n)
  {
    if n > 0 { TakenMoreSame(a, b, n - 1); }
  }

  ghost function TotalsOf(c: Counts): (nat, nat, nat) { (Sum(c.contextSwitches), Sum(c.dpcs), Sum(c.interrupts)) }

  lemma {:induction false} SumSnoc(s: seq<nat>, x: nat)
    ensures Sum(s + [x]) == Sum(s) + x
  {
    assert (s + [x])[..|s|] == s;
  }

  // --- What the totals leave out ---------------------------------------------------------------

  function TakenSum(taken: seq<Taken>): nat {
    if taken == [] then 0 else TakenSum(taken[..|taken| - 1]) + taken[|taken| - 1].count
  }

  lemma {:induction false} TakenSumSnoc(taken: seq<Taken>, last: Taken)
    ensures TakenSum(taken + [last]) == TakenSum(taken) + last.count
  {
    assert (taken + [last])[..|taken|] == taken;
  }

  lemma {:induction false} SumMore(s: seq<nat>, i: nat)
    requires i < |s|
    ensures Sum(s[..i + 1]) == Sum(s[..i]) + s[i]
  {
    assert s[..i + 1][..i] == s[..i];
  }

  lemma {:induction false} ProcessorSum(c: Counts, n: nat)
    requires n <= |c.contextSwitches| && n <= |c.dpcs| && n <= |c.interrupts|
    ensures TakenSum(Filled(c, n)) == Sum(c.contextSwitches[..n]) + Sum(c.dpcs[..n]) + Sum(c.interrupts[..n])
  {
    if n > 0 {
      var i := n - 1;
      var a := Filled(c, i);
      var b := a + [Taken(Switches(i), c.contextSwitches[i])];
      var d := b + [Taken(Dpcs(i), c.dpcs[i])];
      ProcessorSum(c, i);
      TakenSumSnoc(a, Taken(Switches(i), c.contextSwitches[i]));
      TakenSumSnoc(b, Taken(Dpcs(i), c.dpcs[i]));
      TakenSumSnoc(d, Taken(Interrupts(i), c.interrupts[i]));
      SumMore(c.contextSwitches, i);
      SumMore(c.dpcs, i);
      SumMore(c.interrupts, i);
    }
  }

  function TotalOf(c: Counts): nat { Sum(c.contextSwitches) + Sum(c.dpcs) + Sum(c.interrupts) }

  /** Everything a take took is in the three totals or unattributed. */
  lemma {:induction false} TotalsAndUnattributed(c: Counts, processors: nat)
    requires c.For(processors)
    ensures TakenSum(AllTaken(c, processors)) == TotalOf(c) + c.unattributed
  {
    ProcessorSum(c, processors);
    TakenSumSnoc(Filled(c, processors), Taken(Unattributed, c.unattributed));
    assert c.contextSwitches[..processors] == c.contextSwitches && c.dpcs[..processors] == c.dpcs;
    assert c.interrupts[..processors] == c.interrupts;
  }

  lemma {:induction false} DeliveredNothing(actions: seq<Action>, slot: Slot, processors: nat)
    ensures Delivered(actions, slot, processors) == 0
       <==> forall r | Deliver(r) in actions :: CountedIn(r, processors) != Some(slot)
  {
    if actions != [] {
      var n := |actions| - 1;
      DeliveredNothing(actions[..n], slot, processors);
      assert actions == actions[..n] + [actions[n]];
    }
  }

  lemma {:induction false} ActionsDeliver(arriving: seq<seq<Record>>, slots: seq<Slot>, r: Record)
    requires |slots| <= |arriving|
    ensures Deliver(r) in TakeActions(arriving, slots) <==> exists k | 0 <= k < |slots| :: r in arriving[k]
  {
    if slots != [] {
      var n := |slots| - 1;
      ActionsDeliver(arriving, slots[..n], r);
      DeliveriesHold(arriving[n], r);
    }
  }

  lemma {:induction false} DeliveriesHold(records: seq<Record>, r: Record)
    ensures Deliver(r) in Deliveries(records) <==> r in records
  {
    if records != [] {
      var n := |records| - 1;
      DeliveriesHold(records[..n], r);
      assert records == records[..n] + [records[n]];
    }
  }

  predicate IsSwitch(r: Record) { r.provider == Thread && r.opcode == 36 }

  predicate IsDpc(r: Record) { r.provider == PerfInfo && (r.opcode == 66 || r.opcode == 68 || r.opcode == 69) }

  predicate IsInterrupt(r: Record) { r.provider == PerfInfo && r.opcode == 67 }

  /** A counted event from a processor past the count. */
  predicate Stray(r: Record, processors: nat) {
    r.processor >= processors && (IsSwitch(r) || IsDpc(r) || IsInterrupt(r))
  }

  lemma {:induction false} StrayIsUnattributed(r: Record, processors: nat)
    ensures Stray(r, processors) <==> CountedIn(r, processors) == Some(Unattributed)
  {
  }

  function HowMany(records: seq<Record>, p: Record -> bool): nat {
    if records == [] then 0 else HowMany(records[..|records| - 1], p) + if p(records[|records| - 1]) then 1 else 0
  }

  /** How many of the events that arrive before the first `n` exchanges are of one kind. */
  function Arrived(arriving: seq<seq<Record>>, n: nat, p: Record -> bool): nat
    requires n <= |arriving|
  {
    if n == 0 then 0 else Arrived(arriving, n - 1, p) + HowMany(arriving[n - 1], p)
  }

  lemma {:induction false} DeliveredConcat(a: seq<Action>, b: seq<Action>, slot: Slot, processors: nat)
    ensures Delivered(a + b, slot, processors) == Delivered(a, slot, processors) + Delivered(b, slot, processors)
  {
    if b == [] {
      assert a + b == a;
    } else {
      var n := |b| - 1;
      DeliveredConcat(a, b[..n], slot, processors);
      assert (a + b)[..|a + b| - 1] == a + b[..n];
    }
  }

  lemma {:induction false} DeliveriesCount(records: seq<Record>, slot: Slot, processors: nat, p: Record -> bool)
    requires forall r :: p(r) <==> CountedIn(r, processors) == Some(slot)
    ensures Delivered(Deliveries(records), slot, processors) == HowMany(records, p)
  {
    if records != [] {
      var n := |records| - 1;
      DeliveriesCount(records[..n], slot, processors, p);
      assert Deliveries(records)[..|Deliveries(records[..n])|] == Deliveries(records[..n]);
    }
  }

  lemma {:induction false} ActionsCount(arriving: seq<seq<Record>>, slots: seq<Slot>, slot: Slot, processors: nat,
                                        p: Record -> bool)
    requires |slots| <= |arriving| && forall r :: p(r) <==> CountedIn(r, processors) == Some(slot)
    ensures Delivered(TakeActions(arriving, slots), slot, processors) == Arrived(arriving, |slots|, p)
  {
    if slots != [] {
      var n := |slots| - 1;
      var last := [Exchange(slots[n])];
      ActionsCount(arriving, slots[..n], slot, processors, p);
      DeliveriesCount(arriving[n], slot, processors, p);
      DeliveredConcat(Deliveries(arriving[n]), last, slot, processors);
      assert last[..0] == [] && Delivered(last, slot, processors) == 0;
      DeliveredConcat(TakeActions(arriving, slots[..n]), Deliveries(arriving[n]) + last, slot, processors);
    }
  }

  /** What a take reports of a processor, and what is left for the next, are together what was
      there and the context switches, deferred procedure calls and interrupts that arrived from
      it. */
  lemma {:induction false} TakeCountsEvents(before: Counts, arriving: seq<seq<Record>>, processors: nat, report: Counts,
                                            after: Counts, i: nat)
    requires before.For(processors) && report.For(processors) && |arriving| == |Slots(processors)| && i < processors
    requires Taking(Trace(before, []), arriving, Slots(processors)) == Trace(after, AllTaken(report, processors))
    ensures after.For(processors)
    ensures report.contextSwitches[i] + after.contextSwitches[i]
         == before.contextSwitches[i] + Arrived(arriving, |arriving|, (r: Record) => IsSwitch(r) && r.processor == i)
    ensures report.dpcs[i] + after.dpcs[i]
         == before.dpcs[i] + Arrived(arriving, |arriving|, (r: Record) => IsDpc(r) && r.processor == i)
    ensures report.interrupts[i] + after.interrupts[i]
         == before.interrupts[i] + Arrived(arriving, |arriving|, (r: Record) => IsInterrupt(r) && r.processor == i)
  {
    var slots := Slots(processors);
    TakingIsRun(Trace(before, []), arriving, slots);
    TakeConserves(before, arriving, processors, report, after, Switches(i));
    ActionsCount(arriving, slots, Switches(i), processors, (r: Record) => IsSwitch(r) && r.processor == i);
    TakeConserves(before, arriving, processors, report, after, Dpcs(i));
    ActionsCount(arriving, slots, Dpcs(i), processors, (r: Record) => IsDpc(r) && r.processor == i);
    TakeConserves(before, arriving, processors, report, after, Interrupts(i));
    ActionsCount(arriving, slots, Interrupts(i), processors, (r: Record) => IsInterrupt(r) && r.processor == i);
  }

  /** Unattributed are those of processors past the count, of any of the three kinds. */
  lemma {:induction false} TakeCountsStray(before: Counts, arriving: seq<seq<Record>>, processors: nat, report: Counts,
                                           after: Counts)
    requires before.For(processors) && report.For(processors) && |arriving| == |Slots(processors)|
    requires Taking(Trace(before, []), arriving, Slots(processors)) == Trace(after, AllTaken(report, processors))
    ensures after.unattributed == 0
    ensures report.unattributed
         == before.unattributed + Arrived(arriving, |arriving|, (r: Record) => Stray(r, processors))
  {
    TakeConserves(before, arriving, processors, report, after, Unattributed);
    LastIsEmptied(before, arriving, processors);
    forall r ensures Stray(r, processors) <==> CountedIn(r, processors) == Some(Unattributed) {
      StrayIsUnattributed(r, processors);
    }
    ActionsCount(arriving, Slots(processors), Unattributed, processors, (r: Record) => Stray(r, processors));
  }

  ghost predicate NoStray(arriving: seq<seq<Record>>, processors: nat) {
    forall k, r | 0 <= k < |arriving| && r in arriving[k] :: !Stray(r, processors)
  }

  lemma {:induction false} NothingStray(arriving: seq<seq<Record>>, slots: seq<Slot>, processors: nat)
    requires |slots| == |arriving|
    ensures Delivered(TakeActions(arriving, slots), Unattributed, processors) == 0 <==> NoStray(arriving, processors)
  {
    var actions := TakeActions(arriving, slots);
    DeliveredNothing(actions, Unattributed, processors);
    forall r ensures Deliver(r) in actions <==> exists k | 0 <= k < |slots| :: r in arriving[k] {
      ActionsDeliver(arriving, slots, r);
    }
    forall r ensures Stray(r, processors) <==> CountedIn(r, processors) == Some(Unattributed) {
      StrayIsUnattributed(r, processors);
    }
  }

  lemma {:induction false} LastIsEmptied(before: Counts, arriving: seq<seq<Record>>, processors: nat)
    requires |arriving| == |Slots(processors)|
    ensures Taking(Trace(before, []), arriving, Slots(processors)).counts.unattributed == 0
  {
    var slots := Slots(processors);
    assert slots[|slots| - 1] == Unattributed;
  }

  /** The totals of a take are everything it took exactly when no event was unattributed before
      it and no counted event of a processor past the count arrives while it goes on. */
  lemma {:induction false} TotalsComplete(before: Counts, arriving: seq<seq<Record>>, processors: nat, report: Counts,
                                          after: Counts)
    requires before.For(processors) && report.For(processors) && |arriving| == |Slots(processors)|
    requires Taking(Trace(before, []), arriving, Slots(processors)) == Trace(after, AllTaken(report, processors))
    ensures TotalOf(report) == TakenSum(AllTaken(report, processors))
       <==> before.unattributed == 0 && NoStray(arriving, processors)
  {
    TotalsAndUnattributed(report, processors);
    TakeConserves(before, arriving, processors, report, after, Unattributed);
    LastIsEmptied(before, arriving, processors);
    NothingStray(arriving, Slots(processors), processors);
  }

  /** A context switch on the second processor of a session that knows of one. */
  function StrayEvent(): Record { Record(Thread, OPCODE_SWITCH, 1, 0, []) }

  /** One processor, no events: nothing happens to counters at zero. */
  lemma {:induction false} StrayArrives(zero: Counts, one: Counts)
    requires zero == Counts([0], [0], [0], 0) && one == zero.(unattributed := 1)
    ensures Counting(zero, [StrayEvent()]) == one && Counting(one, []) == one
  {
    assert [StrayEvent()][..0] == [];
    assert CountAll(zero, []) == zero;
  }

  lemma {:induction false} FourTaken(t: Trace, one: Counts, arriving: seq<seq<Record>>)
    requires one == Counts([0], [0], [0], 1) && |arriving| == 4 && t.taken == []
    requires Counting(t.counts, arriving[0]) == one && Counting(one, []) == one
    requires arriving[1] == arriving[2] == arriving[3] == []
    ensures Took(t, arriving, Slots(1)) == Trace(one.(unattributed := 0), AllTaken(one, 1))
  {
    OrderedStep(0);
    assert Ordered(0) == [] && Took(t, arriving, []) == t;
    TakingSnoc(t, arriving, [], Switches(0));
    TakingSnoc(t, arriving, [] + [Switches(0)], Dpcs(0));
    TakingSnoc(t, arriving, [] + [Switches(0)] + [Dpcs(0)], Interrupts(0));
    TakingSnoc(t, arriving, Ordered(1), Unattributed);
    assert Filled(one, 0) == [];
  }

  /** Taken with everything else, and in no total. */
  lemma {:induction false} StrayNotInTotals()
    ensures var zero := Counts([0], [0], [0], 0);
            Took(Trace(zero, []), [[StrayEvent()], [], [], []], Slots(1))
            == Trace(zero, AllTaken(zero.(unattributed := 1), 1))
    ensures TotalOf(Counts([0], [0], [0], 1)) == 0 && TakenSum(AllTaken(Counts([0], [0], [0], 1), 1)) == 1
  {
    var zero, one := Counts([0], [0], [0], 0), Counts([0], [0], [0], 1);
    TotalsAndUnattributed(one, 1);
    assert [0][..0] == [] && Sum([0]) == 0;
    StrayArrives(zero, one);
    FourTaken(Trace(zero, []), one, [[StrayEvent()], [], [], []]);
  }

  method WithProcessor(r: Report, ghost i: nat, c: nat, d: nat, n: nat) returns (more: Report)
    requires r.counts.For(i)
    requires (r.totalSwitches, r.totalDpcs, r.totalInterrupts) == TotalsOf(r.counts)
    ensures more.counts.For(i + 1)
    ensures Filled(more.counts, i + 1)
         == Filled(r.counts, i) + [Taken(Switches(i), c)] + [Taken(Dpcs(i), d)] + [Taken(Interrupts(i), n)]
    ensures (more.totalSwitches, more.totalDpcs, more.totalInterrupts) == TotalsOf(more.counts)
  {
    more := Report(Counts(r.counts.contextSwitches + [c], r.counts.dpcs + [d], r.counts.interrupts + [n], 0),
                   r.totalSwitches + c, r.totalDpcs + d, r.totalInterrupts + n);
    TakenMoreSame(r.counts, more.counts, i);
    SumSnoc(r.counts.contextSwitches, c);
    SumSnoc(r.counts.dpcs, d);
    SumSnoc(r.counts.interrupts, n);
  }

  lemma {:induction false} OrderedStep(i: nat)
    ensures Ordered(i + 1) == Ordered(i) + [Switches(i)] + [Dpcs(i)] + [Interrupts(i)]
  {
  }

  // What events do to both parts of the session, under names that do not unfold.

  ghost function Counting(c: Counts, records: seq<Record>): Counts { CountAll(c, records) }

  ghost function Heard(samples: seq<Sample>, records: seq<Record>, sampling: bool): seq<Sample> {
    samples + SamplesIn(records, sampling)
  }

  /** The samples after the events before the first `k` exchanges. */
  ghost function HeardUpTo(samples: seq<Sample>, arriving: seq<seq<Record>>, k: nat, sampling: bool): seq<Sample>
    requires k <= |arriving|
  {
    if k == 0 then samples else Heard(HeardUpTo(samples, arriving, k - 1, sampling), arriving[k - 1], sampling)
  }

  // The take so far, under names that do not unfold by themselves.

  ghost function HeardBy(samples: seq<Sample>, arriving: seq<seq<Record>>, k: nat, sampling: bool): seq<Sample>
    requires k <= |arriving|
  {
    HeardUpTo(samples, arriving, k, sampling)
  }

  ghost function Took(t: Trace, arriving: seq<seq<Record>>, slots: seq<Slot>): Trace
    requires |slots| <= |arriving|
  {
    Taking(t, arriving, slots)
  }

  lemma {:induction false} MoreRecords(c: Counts, samples: seq<Sample>, records: seq<Record>, i: nat, sampling: bool)
    requires i < |records|
    ensures Heard(samples, records[..i + 1], sampling) == Heard(samples, records[..i], sampling)
            + OneSample(records[i], sampling)
    ensures Counting(c, records[..i + 1]) == CountOne(Counting(c, records[..i]), records[i])
  {
    assert records[..i + 1][..i] == records[..i];
  }

  lemma {:induction false} GatherSnoc(samples: seq<Sample>, s: Sample)
    ensures GatherAll(samples + [s]) == Gathered(GatherAll(samples), s)
  {
    assert (samples + [s])[..|samples|] == samples;
  }

  method DoHash(processId: Word, frames: seq<Word>) returns (hash: Word)
    ensures hash == Hash(Sample(processId, frames))
  {
    hash := Mix(FNV_START, processId);
    for i := 0 to |frames|
      invariant hash == HashFrames(Mix(FNV_START, processId), frames[..i])
    {
      assert frames[..i + 1][..i] == frames[..i];
      hash := Mix(hash, frames[i]);
    }
    assert frames[..|frames|] == frames;
  }

  /** All keys of `buckets`, once each, by falling count. */
  ghost predicate Orders(order: seq<Word>, buckets: map<Word, Bucket>) {
    && multiset(order) == multiset(buckets.Keys) && (forall h <- order :: h in buckets)
    && forall i, j | 0 <= i < j < |order| :: buckets[order[i]].count >= buckets[order[j]].count
  }

  function CountOf(buckets: map<Word, Bucket>, h: Word): nat { if h in buckets then buckets[h].count else 0 }

  method MostFrequent(buckets: map<Word, Bucket>) returns (order: seq<Word>)
    ensures Orders(order, buckets)
  {
    var rest, listed := buckets.Keys, [];
    while rest != {}
      invariant rest <= buckets.Keys && multiset(listed) == multiset(buckets.Keys - rest)
      decreases |rest|
    {
      var h :| h in rest;
      assert buckets.Keys - (rest - {h}) == buckets.Keys - rest + {h};
      rest, listed := rest - {h}, listed + [h];
    }
    assert buckets.Keys - {} == buckets.Keys;
    var le := (a: Word, b: Word) => CountOf(buckets, a) >= CountOf(buckets, b);
    order := Sort(listed, le);
    forall h | h in order ensures h in buckets { assert h in multiset(order); }
    forall i, j | 0 <= i < j < |order| ensures buckets[order[i]].count >= buckets[order[j]].count {
      assert order[i] in buckets && order[j] in buckets && le(order[i], order[j]);
    }
  }

  method Listed(buckets: map<Word, Bucket>, order: seq<Word>) returns (listed: seq<StackSample>)
    requires forall h <- order :: h in buckets
    ensures |listed| == |order| && forall i | 0 <= i < |order| :: listed[i] == SampleOf(buckets[order[i]])
  {
    listed := [];
    for i := 0 to |order|
      invariant |listed| == i && forall j | 0 <= j < i :: listed[j] == SampleOf(buckets[order[j]])
    {
      listed := listed + [SampleOf(buckets[order[i]])];
    }
  }

  class Session {
    const processors: nat
    const sampling: bool
    const contextSwitches: array<nat>
    const dpcs: array<nat>
    const interrupts: array<nat>
    var unattributed: nat
    var stacks: map<Word, Bucket>
    var stackTotal: nat
    var stackKernel: nat
    var stackUser: nat
    var stackDropped: nat

    /** The samples since the last swap. */
    ghost var interval: seq<Sample>

    ghost predicate Valid()
      reads this
    {
      && contextSwitches.Length == processors && dpcs.Length == processors && interrupts.Length == processors
      && contextSwitches != dpcs && contextSwitches != interrupts && dpcs != interrupts
      && Gathering() == GatherAll(interval)
    }

    ghost function Gathering(): Aggregate
      reads this
    {
      Aggregate(stacks, stackTotal, stackKernel, stackUser, stackDropped)
    }

    ghost function Counters(): Counts
      reads this, contextSwitches, dpcs, interrupts
    {
      Counts(contextSwitches[..], dpcs[..], interrupts[..], unattributed)
    }

    constructor (processors: nat, sampling: bool)
      ensures Valid() && this.processors == processors && this.sampling == sampling && interval == []
      ensures Counters() == Counts(seq(processors, _ => 0), seq(processors, _ => 0), seq(processors, _ => 0), 0)
      ensures fresh(contextSwitches) && fresh(dpcs) && fresh(interrupts)
    {
      this.processors, this.sampling := processors, sampling;
      contextSwitches := new nat[processors](_ => 0);
      dpcs := new nat[processors](_ => 0);
      interrupts := new nat[processors](_ => 0);
      unattributed := 0;
      stacks, stackTotal, stackKernel, stackUser, stackDropped := map[], 0, 0, 0, 0;
      interval := [];
    }

    method RecordStack(record: Record)
      requires Valid() && IsProfile(record, sampling)
      modifies this`stacks, this`stackTotal, this`stackKernel, this`stackUser, this`stackDropped, this`interval
      ensures Valid() && interval == old(interval) + OneSample(record, sampling)
    {
      var frames := FindStack(record.items);
      if frames == [] { return; }
      if |frames| > MAX_FRAMES { frames := frames[..MAX_FRAMES]; }
      var hash := DoHash(record.processId, frames);
      GatherSnoc(interval, Sample(record.processId, frames));
      Gather(record.processId, frames, hash);
    }

    method Gather(processId: Word, frames: seq<Word>, hash: Word)
      requires frames != []
      modifies this`stacks, this`stackTotal, this`stackKernel, this`stackUser, this`stackDropped, this`interval
      ensures Gathering() == GatheredAt(old(Gathering()), Sample(processId, frames), hash)
      ensures interval == old(interval) + [Sample(processId, frames)]
    {
      interval := interval + [Sample(processId, frames)];
      stackTotal := stackTotal + 1;
      if frames[0] >= KERNEL_SPACE { stackKernel := stackKernel + 1; } else { stackUser := stackUser + 1; }
      if hash in stacks {
        stacks := stacks[hash := stacks[hash].(count := stacks[hash].count + 1)];
        return;
      }
      if |stacks| >= MAX_DISTINCT_STACKS {
        stackDropped := stackDropped + 1;
        return;
      }
      stacks := stacks[hash := Bucket(frames, processId, 1)];
    }

    method OnEvent(record: Record)
      requires Valid()
      modifies this, contextSwitches, dpcs, interrupts
      ensures Valid() && interval == old(interval) + OneSample(record, sampling)
      ensures Counters() == CountOne(old(Counters()), record)
      ensures unattributed == old(unattributed) + if Stray(record, processors) then 1 else 0
      ensures forall p | 0 <= p < processors ::
                && contextSwitches[p] == old(contextSwitches[p])
                     + (if IsSwitch(record) && record.processor == p then 1 else 0)
                && dpcs[p] == old(dpcs[p]) + (if IsDpc(record) && record.processor == p then 1 else 0)
                && interrupts[p] == old(interrupts[p])
                     + (if IsInterrupt(record) && record.processor == p then 1 else 0)
    {
      if sampling && record.opcode == OPCODE_SAMPLED_PROFILE && record.provider == PerfInfo {
        RecordStack(record);
        return;
      }
      var isSwitch := record.provider == Thread && record.opcode == OPCODE_SWITCH;
      var isDpc := record.provider == PerfInfo &&
        (record.opcode == OPCODE_DPC || record.opcode == OPCODE_THREAD_DPC || record.opcode == OPCODE_TIMER_DPC);
      var isInterrupt := record.provider == PerfInfo && record.opcode == OPCODE_INTERRUPT;
      if !isSwitch && !isDpc && !isInterrupt { return; }
      var processor := record.processor;
      if processor >= processors {
        unattributed := unattributed + 1;
        return;
      }
      if isSwitch {
        contextSwitches[processor] := contextSwitches[processor] + 1;
      } else if isDpc {
        dpcs[processor] := dpcs[processor] + 1;
      } else {
        interrupts[processor] := interrupts[processor] + 1;
      }
    }

    /** Callbacks, one after the other. */
    method OnEvents(records: seq<Record>)
      requires Valid()
      modifies this, contextSwitches, dpcs, interrupts
      ensures Valid() && interval == Heard(old(interval), records, sampling)
      ensures Counters() == Counting(old(Counters()), records)
    {
      for i := 0 to |records|
        invariant Valid() && interval == Heard(old(interval), records[..i], sampling)
        invariant Counters() == Counting(old(Counters()), records[..i])
      {
        OnEvent(records[i]);
        MoreRecords(old(Counters()), old(interval), records, i, sampling);
      }
      assert records[..|records|] == records;
    }

    /** `exchange(0)` on one counter. */
    method Exchanged(slot: Slot) returns (n: nat)
      requires Valid() && Counters().Has(slot)
      modifies this`unattributed, contextSwitches, dpcs, interrupts
      ensures Valid() && n == old(Counters()).Get(slot) && Counters() == old(Counters()).Put(slot, 0)
    {
      match slot {
        case Switches(i) =>
          n := contextSwitches[i];
          contextSwitches[i] := 0;
        case Dpcs(i) =>
          n := dpcs[i];
          dpcs[i] := 0;
        case Interrupts(i) =>
          n := interrupts[i];
          interrupts[i] := 0;
        case Unattributed =>
          n := unattributed;
          unattributed := 0;
      }
    }

    /** Callbacks, and then an exchange: the next step of a take begun with `t` and `samples`. */
    method TakeSlot(ghost t: Trace, ghost samples: seq<Sample>, arriving: seq<seq<Record>>, k: nat, slot: Slot,
                    ghost slots: seq<Slot>)
        returns (n: nat)
      requires Valid() && Counters().Has(slot) && k == |slots| < |arriving|
      requires Counters() == Took(t, arriving, slots).counts && interval == HeardBy(samples, arriving, k, sampling)
      modifies this, contextSwitches, dpcs, interrupts
      ensures Valid() && interval == HeardBy(samples, arriving, k + 1, sampling)
      ensures Took(t, arriving, slots + [slot]) == Trace(Counters(), Took(t, arriving, slots).taken + [Taken(slot, n)])
    {
      TakingSnoc(t, arriving, slots, slot);
      assert HeardBy(samples, arriving, k + 1, sampling) == Heard(interval, arriving[k], sampling);
      OnEvents(arriving[k]);
      n := Exchanged(slot);
    }

    method TakeProcessor(ghost t: Trace, ghost samples: seq<Sample>, arriving: seq<seq<Record>>, i: nat)
        returns (c: nat, d: nat, n: nat)
      requires Valid() && i < processors && |arriving| == 3 * processors + 1 && |Ordered(i)| == 3 * i
      requires Counters() == Took(t, arriving, Ordered(i)).counts
               && interval == HeardBy(samples, arriving, 3 * i, sampling)
      modifies this, contextSwitches, dpcs, interrupts
      ensures Valid() && |Ordered(i + 1)| == 3 * i + 3 && interval == HeardBy(samples, arriving, 3 * i + 3, sampling)
      ensures Took(t, arriving, Ordered(i + 1))
           == Trace(Counters(), Took(t, arriving, Ordered(i)).taken
                                + [Taken(Switches(i), c)] + [Taken(Dpcs(i), d)] + [Taken(Interrupts(i), n)])
    {
      ghost var slots := Ordered(i);
      OrderedStep(i);
      c := TakeSlot(t, samples, arriving, 3 * i, Switches(i), slots);
      d := TakeSlot(t, samples, arriving, 3 * i + 1, Dpcs(i), slots + [Switches(i)]);
      n := TakeSlot(t, samples, arriving, 3 * i + 2, Interrupts(i), slots + [Switches(i)] + [Dpcs(i)]);
    }

    /** The processors' counters, with their totals. */
    method TakeProcessors(ghost t: Trace, ghost samples: seq<Sample>, arriving: seq<seq<Record>>)
        returns (report: Report)
      requires Valid() && |arriving| == 3 * processors + 1 && t == Trace(Counters(), []) && samples == interval
      modifies this, contextSwitches, dpcs, interrupts
      ensures Valid() && report.counts.For(processors) && |Ordered(processors)| == 3 * processors
      ensures interval == HeardBy(samples, arriving, 3 * processors, sampling)
      ensures Took(t, arriving, Ordered(processors)) == Trace(Counters(), Filled(report.counts, processors))
      ensures (report.totalSwitches, report.totalDpcs, report.totalInterrupts) == TotalsOf(report.counts)
    {
      report := Report(Counts([], [], [], 0), 0, 0, 0);
      for i := 0 to processors
        invariant Valid() && report.counts.For(i) && |Ordered(i)| == 3 * i
        invariant interval == HeardBy(samples, arriving, 3 * i, sampling)
        invariant Took(t, arriving, Ordered(i)) == Trace(Counters(), Filled(report.counts, i))
        invariant (report.totalSwitches, report.totalDpcs, report.totalInterrupts) == TotalsOf(report.counts)
      {
        var c, d, n := TakeProcessor(t, samples, arriving, i);
        report := WithProcessor(report, i, c, d, n);
      }
    }

    /** Reports and resets the counters, while events keep arriving: `arriving[k]` just before
        exchange `k`. */
    method Take(arriving: seq<seq<Record>>) returns (report: Report)
      requires Valid() && |arriving| == 3 * processors + 1
      modifies this, contextSwitches, dpcs, interrupts
      ensures Valid() && report.counts.For(processors) && |Slots(processors)| == |arriving|
      ensures interval == HeardBy(old(interval), arriving, |arriving|, sampling)
      ensures Took(Trace(old(Counters()), []), arriving, Slots(processors))
           == Trace(Counters(), AllTaken(report.counts, processors))
      ensures (report.totalSwitches, report.totalDpcs, report.totalInterrupts) == TotalsOf(report.counts)
    {
      ghost var t := Trace(Counters(), []);
      ghost var samples := interval;
      var partial := TakeProcessors(t, samples, arriving);
      var rest := TakeSlot(t, samples, arriving, 3 * processors, Unattributed, Ordered(processors));
      report := partial.(counts := partial.counts.(unattributed := rest));
      TakenMoreSame(partial.counts, report.counts, processors);
    }

    /** Reports and resets the gathered stacks, the most frequent first and at most `limit` of
        them unless that is 0. `order` names the hashes of all of them in that order. */
    method TakeStacks(limit: nat) returns (samples: StackSamples, ghost order: seq<Word>)
      requires Valid()
      modifies this`stacks, this`stackTotal, this`stackKernel, this`stackUser, this`stackDropped, this`interval
      ensures Valid()
      ensures !sampling ==> Gathering() == old(Gathering()) && samples == StackSamples([], 0, 0, 0, 0)
      ensures sampling ==> Gathering() == NOTHING && interval == []
      ensures sampling ==> samples.total == old(stackTotal) && samples.kernel == old(stackKernel)
                           && samples.user == old(stackUser) && samples.dropped == old(stackDropped)
      ensures sampling ==> Orders(order, old(stacks))
                           && |samples.stacks| == (if 0 < limit < |order| then limit else |order|)
                           && (forall i | 0 <= i < |samples.stacks| ::
                                 var b := old(stacks)[order[i]];
                                 samples.stacks[i] == StackSample(b.processId, b.frames, b.count))
                           && (forall i, j | 0 <= i < j < |order| ::
                                 old(stacks)[order[i]].count >= old(stacks)[order[j]].count)
    {
      if !sampling { return StackSamples([], 0, 0, 0, 0), []; }
      var taken := stacks;
      stacks := map[];
      samples := StackSamples([], stackTotal, stackKernel, stackUser, stackDropped);
      stackTotal, stackKernel, stackUser, stackDropped := 0, 0, 0, 0;
      interval := [];
      NothingGathered();
      var hashes := MostFrequent(taken);
      order := hashes;
      var listed := Listed(taken, hashes);
      if limit > 0 && |listed| > limit { listed := listed[..limit]; }
      samples := samples.(stacks := listed);
    }
  }
}
