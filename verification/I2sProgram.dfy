/** The PIO receive program assembled on the device (terminal-model/src/i2s_program.rs), run
    on a small model of the state machine, and what the pushed words mean
    (terminal-model/src/pcm_extract.rs). */
module I2sProgram {
  import MicConfig

  /** The instructions the program uses; each drives its side-set value for its one cycle. */
  datatype Instr = SetX(n: nat) | InPin | JmpXDec(target: nat)

  /** Bit 1 of `side` is the word clock, bit 0 the bit clock. */
  datatype Op = Op(instr: Instr, side: nat)

  const PROGRAM_SIZE: nat := 8

  /** `value ^ 0b01`, for the edge flip. */
  function Side(value: nat, edgeFlip: bool): nat {
    if !edgeFlip then value else if value % 2 == 0 then value + 1 else value - 1
  }

  function Program(bits: nat, edgeFlip: bool): (r: seq<Op>)
    requires bits >= 2
    ensures |r| == PROGRAM_SIZE
  {
    [Op(SetX(bits - 2), Side(1, edgeFlip)),
     Op(InPin, Side(0, edgeFlip)),
     Op(JmpXDec(1), Side(1, edgeFlip)),
     Op(InPin, Side(2, edgeFlip)),
     Op(SetX(bits - 2), Side(3, edgeFlip)),
     Op(InPin, Side(2, edgeFlip)),
     Op(JmpXDec(5), Side(3, edgeFlip)),
     Op(InPin, Side(0, edgeFlip))]
  }

  /** Appends the eight instructions to the assembler's buffer. */
  method BuildProgram(bits: nat, edgeFlip: bool) returns (code: seq<Op>)
    requires bits >= 2
    ensures code == Program(bits, edgeFlip)
  {
    var count := bits - 2;
    code := [];
    code := code + [Op(SetX(count), Side(1, edgeFlip))];
    code := code + [Op(InPin, Side(0, edgeFlip))];
    code := code + [Op(JmpXDec(1), Side(1, edgeFlip))];
    code := code + [Op(InPin, Side(2, edgeFlip))];
    code := code + [Op(SetX(count), Side(3, edgeFlip))];
    code := code + [Op(InPin, Side(2, edgeFlip))];
    code := code + [Op(JmpXDec(5), Side(3, edgeFlip))];
    code := code + [Op(InPin, Side(0, edgeFlip))];
  }

  // ---- the state machine ----

  const MAX_X: nat := 0xFFFF_FFFF
  const WORD: nat := 0x1_0000_0000

  /** Program counter, scratch register X, input shift register and its bit count, and the
      words pushed to the receive FIFO. */
  datatype Pio = Pio(pc: nat, x: nat, isr: nat, count: nat, pushed: seq<nat>)

  function Next(pc: nat): nat {
    if pc == PROGRAM_SIZE - 1 then 0 else pc + 1
  }

  /** `in pins, 1` shifting left, with autopush at `threshold` bits. */
  function ShiftIn(p: Pio, threshold: nat, pin: bool): Pio {
    var isr := (2 * p.isr + (if pin then 1 else 0)) % WORD;
    if p.count + 1 == threshold then p.(isr := 0, count := 0, pushed := p.pushed + [isr])
    else p.(isr := isr, count := p.count + 1)
  }

  /** `jmp x--` jumps when X is not zero and decrements it either way. */
  function Execute(p: Pio, instr: Instr, threshold: nat, pin: bool): Pio {
    match instr
    case SetX(n) => p.(x := n, pc := Next(p.pc))
    case InPin => ShiftIn(p, threshold, pin).(pc := Next(p.pc))
    case JmpXDec(target) =>
      p.(x := if p.x == 0 then MAX_X else p.x - 1, pc := if p.x != 0 then target else Next(p.pc))
  }

  /** The machine after `n` cycles starting at time `t`, pushing every `threshold` bits;
      `pin(t)` is the data line at time `t`. */
  function After(p: Pio, code: seq<Op>, threshold: nat, pin: nat -> bool, t: nat, n: nat): (r: Pio)
    requires Runnable(code) && p.pc < PROGRAM_SIZE
    ensures r.pc < PROGRAM_SIZE
  {
    if n == 0 then p
    else
      var q := After(p, code, threshold, pin, t, n - 1);
      Execute(q, code[q.pc].instr, threshold, pin(t + n - 1))
  }

  predicate Runnable(code: seq<Op>) {
    && |code| == PROGRAM_SIZE
    && forall i :: 0 <= i < PROGRAM_SIZE ==> code[i].instr.JmpXDec? ==> code[i].instr.target < PROGRAM_SIZE
  }

  /** Four instructions from `base` on that shift in one slot. */
  predicate SlotCode(code: seq<Op>, base: nat, bits: nat)
    requires |code| == PROGRAM_SIZE && base <= 4 && bits >= 2
  {
    && code[base].instr == SetX(bits - 2)
    && code[base + 1].instr == InPin
    && code[base + 2].instr == JmpXDec(base + 1)
    && code[base + 3].instr == InPin
  }

  /** A left slot and a right slot. */
  predicate IsReceiver(code: seq<Op>, bits: nat)
    requires bits >= 2
  {
    Runnable(code) && SlotCode(code, 0, bits) && SlotCode(code, 4, bits)
  }

  lemma ProgramIsReceiver(bits: nat, edgeFlip: bool)
    requires bits >= 2
    ensures IsReceiver(Program(bits, edgeFlip), bits)
  {
    var code := Program(bits, edgeFlip);
    assert code[2].instr == JmpXDec(1) && code[6].instr == JmpXDec(5);
  }

  // ---- slots ----

  /** The first `k` bits of the slot starting at time `t`: one every other cycle. */
  function SlotBits(pin: nat -> bool, t: nat, k: nat): (r: seq<bool>)
    ensures |r| == k
  {
    seq(k, i requires 0 <= i < k => pin(t + 1 + 2 * i))
  }

  /** Most significant bit first. */
  function BitsValue(b: seq<bool>): nat {
    if b == [] then 0 else 2 * BitsValue(b[..|b| - 1]) + (if b[|b| - 1] then 1 else 0)
  }

  function Pow2(n: nat): (r: nat)
    ensures r >= 1
  {
    if n == 0 then 1 else 2 * Pow2(n - 1)
  }

  lemma {:induction false} BitsBound(b: seq<bool>)
    ensures BitsValue(b) < Pow2(|b|)
  {
    if b != [] {
      BitsBound(b[..|b| - 1]);
    }
  }

  lemma {:induction false} Pow2Monotone(a: nat, b: nat)
    requires a <= b
    ensures Pow2(a) <= Pow2(b)
    decreases b
  {
    if a < b {
      Pow2Monotone(a, b - 1);
    }
  }

  lemma Pow2Of32()
    ensures Pow2(32) == WORD && Pow2(16) == 0x1_0000
  {
    assert Pow2(8) == 256;
    assert Pow2(16) == 65536 by { assert Pow2(12) == 4096; }
    assert Pow2(20) == 0x10_0000;
    assert Pow2(24) == 0x100_0000;
    assert Pow2(28) == 0x1000_0000;
  }

  /** A slot of at most 32 bits never overflows the shift register. */
  lemma ShiftedSlot(pin: nat -> bool, t: nat, k: nat)
    requires k < 32
    ensures BitsValue(SlotBits(pin, t, k + 1)) ==
            (2 * BitsValue(SlotBits(pin, t, k)) + (if pin(t + 1 + 2 * k) then 1 else 0)) % WORD
  {
    var b := SlotBits(pin, t, k + 1);
    assert b[..k] == SlotBits(pin, t, k);
    BitsBound(b);
    Pow2Monotone(k + 1, 32);
    Pow2Of32();
  }

  // ---- half a wrap: one slot ----

  /** Where the machine is `r` cycles into the slot that starts at instruction `base`. */
  function SlotPc(base: nat, bits: nat, r: nat): nat {
    if r == 0 then base
    else if r == 2 * bits then (if base == 0 then 4 else 0)
    else if r == 2 * bits - 1 then base + 3
    else if r % 2 == 1 then base + 1
    else base + 2
  }

  function SlotX(x: nat, bits: nat, r: nat): nat
    requires bits >= 2
  {
    if r == 0 then x else if r >= 2 * bits - 1 then MAX_X else bits - 2 - (r - 1) / 2
  }

  /** The machine `r` cycles into a slot: `r / 2` bits shifted in, pushed when complete. */
  function InSlot(p: Pio, base: nat, bits: nat, pin: nat -> bool, t: nat, r: nat): Pio
    requires 2 <= bits && r <= 2 * bits
  {
    var k := r / 2;
    var word := BitsValue(SlotBits(pin, t, k));
    Pio(SlotPc(base, bits, r), SlotX(p.x, bits, r),
        if k < bits then word else 0,
        if k < bits then k else 0,
        if k < bits then p.pushed else p.pushed + [word])
  }

  /** The machine at the start of a slot. */
  predicate SlotStart(p: Pio, base: nat) {
    (base == 0 || base == 4) && p.pc == base && p.isr == 0 && p.count == 0
  }

  /** An odd cycle of a slot shifts in one bit. */
  lemma OddCycle(p: Pio, base: nat, bits: nat, pin: nat -> bool, t: nat, r: nat)
    requires 2 <= bits <= 32 && r < 2 * bits && r % 2 == 1 && SlotStart(p, base)
    ensures Execute(InSlot(p, base, bits, pin, t, r), InPin, bits, pin(t + r)) ==
            InSlot(p, base, bits, pin, t, r + 1)
  {
    var k := r / 2;
    var s, e := InSlot(p, base, bits, pin, t, r), InSlot(p, base, bits, pin, t, r + 1);
    ShiftedSlot(pin, t, k);
    assert r == 2 * k + 1 && (r + 1) / 2 == k + 1;
    assert t + 1 + 2 * k == t + r;
    var q := ShiftIn(s, bits, pin(t + r));
    assert q.isr == e.isr && q.count == e.count && q.pushed == e.pushed;
    OddCyclePc(base, bits, r, p.x);
    assert q.x == e.x;
  }

  lemma OddCyclePc(base: nat, bits: nat, r: nat, x: nat)
    requires 2 <= bits && r < 2 * bits && r % 2 == 1 && (base == 0 || base == 4)
    ensures Next(SlotPc(base, bits, r)) == SlotPc(base, bits, r + 1)
    ensures SlotX(x, bits, r) == SlotX(x, bits, r + 1)
  {
  }

  /** An even cycle of a slot sets up, or counts down, the loop. */
  lemma EvenCycle(p: Pio, base: nat, bits: nat, pin: nat -> bool, t: nat, r: nat, instr: Instr, b: bool)
    requires 2 <= bits <= 32 && r < 2 * bits && r % 2 == 0 && SlotStart(p, base)
    requires instr == if r == 0 then SetX(bits - 2) else JmpXDec(base + 1)
    ensures Execute(InSlot(p, base, bits, pin, t, r), instr, bits, b) ==
            InSlot(p, base, bits, pin, t, r + 1)
  {
    var k := r / 2;
    assert r == 2 * k && (r + 1) / 2 == k;
    if k == 0 {
      assert SlotBits(pin, t, 0) == [];
    } else {
      assert SlotX(p.x, bits, r) == bits - 1 - k;
    }
  }

  lemma SlotFetch(code: seq<Op>, base: nat, bits: nat, r: nat)
    requires 2 <= bits && r < 2 * bits && (base == 0 || base == 4)
    requires |code| == PROGRAM_SIZE && SlotCode(code, base, bits)
    ensures var pc := SlotPc(base, bits, r);
            && pc < PROGRAM_SIZE
            && code[pc].instr == if r % 2 == 1 then InPin else if r == 0 then SetX(bits - 2) else JmpXDec(base + 1)
  {
  }

  lemma SlotCycle(p: Pio, code: seq<Op>, base: nat, bits: nat, pin: nat -> bool, t: nat, r: nat)
    requires 2 <= bits <= 32 && r < 2 * bits && SlotStart(p, base)
    requires Runnable(code) && SlotCode(code, base, bits)
    ensures OneCycle(InSlot(p, base, bits, pin, t, r), InSlot(p, base, bits, pin, t, r + 1), code, bits, pin(t + r))
  {
    SlotFetch(code, base, bits, r);
    if r % 2 == 1 {
      OddCycle(p, base, bits, pin, t, r);
    } else {
      EvenCycle(p, base, bits, pin, t, r, if r == 0 then SetX(bits - 2) else JmpXDec(base + 1), pin(t + r));
    }
  }

  predicate OneCycle(s: Pio, e: Pio, code: seq<Op>, threshold: nat, pin: bool)
    requires Runnable(code)
  {
    s.pc < PROGRAM_SIZE && Execute(s, code[s.pc].instr, threshold, pin) == e
  }

  lemma OneMoreCycle(p: Pio, code: seq<Op>, threshold: nat, pin: nat -> bool, t: nat, n: nat, s: Pio, e: Pio)
    requires Runnable(code) && p.pc < PROGRAM_SIZE
    requires After(p, code, threshold, pin, t, n) == s && OneCycle(s, e, code, threshold, pin(t + n))
    ensures After(p, code, threshold, pin, t, n + 1) == e
  {
    assert t + (n + 1) - 1 == t + n;
  }

  lemma {:induction false} SlotRun(p: Pio, code: seq<Op>, base: nat, bits: nat, pin: nat -> bool, t: nat, r: nat)
    requires 2 <= bits <= 32 && r <= 2 * bits && SlotStart(p, base)
    requires Runnable(code) && SlotCode(code, base, bits)
    ensures After(p, code, bits, pin, t, r) == InSlot(p, base, bits, pin, t, r)
  {
    if r == 0 {
      SlotBegins(p, base, bits, pin, t);
    } else {
      var n := r - 1;
      SlotRun(p, code, base, bits, pin, t, n);
      SlotCycle(p, code, base, bits, pin, t, n);
      OneMoreCycle(p, code, bits, pin, t, n, InSlot(p, base, bits, pin, t, n), InSlot(p, base, bits, pin, t, n + 1));
    }
  }

  lemma SlotBegins(p: Pio, base: nat, bits: nat, pin: nat -> bool, t: nat)
    requires 2 <= bits && SlotStart(p, base)
    ensures InSlot(p, base, bits, pin, t, 0) == p
  {
    assert SlotBits(pin, t, 0) == [];
  }

  // ---- whole runs ----

  lemma {:induction false} AfterAfter(p: Pio, code: seq<Op>, threshold: nat, pin: nat -> bool, t: nat, m: nat, n: nat)
    requires Runnable(code) && p.pc < PROGRAM_SIZE
    ensures After(p, code, threshold, pin, t, m + n) ==
            After(After(p, code, threshold, pin, t, m), code, threshold, pin, t + m, n)
    decreases n
  {
    if n > 0 {
      AfterAfter(p, code, threshold, pin, t, m, n - 1);
      assert m + (n - 1) == m + n - 1;
      assert t + m + n - 1 == t + (m + n) - 1;
    }
  }

  /** A slot starting at `base` ends at the start of the other one, its word pushed. */
  lemma SlotEnds(p: Pio, code: seq<Op>, base: nat, bits: nat, pin: nat -> bool, t: nat)
    requires 2 <= bits <= 32 && SlotStart(p, base)
    requires Runnable(code) && SlotCode(code, base, bits)
    ensures var q := After(p, code, bits, pin, t, 2 * bits);
            SlotStart(q, 4 - base) && q.pushed == p.pushed + [BitsValue(SlotBits(pin, t, bits))]
  {
    SlotRun(p, code, base, bits, pin, t, 2 * bits);
  }

  /** When slot `s` starts. */
  function SlotTime(bits: nat, s: nat): nat {
    if s == 0 then 0 else SlotTime(bits, s - 1) + 2 * bits
  }

  lemma {:induction false} SlotTimeIsProduct(bits: nat, s: nat)
    ensures SlotTime(bits, s) == s * (2 * bits)
  {
    if s > 0 {
      SlotTimeIsProduct(bits, s - 1);
      assert s * (2 * bits) == (s - 1) * (2 * bits) + 2 * bits;
    }
  }

  /** Even slots are left, at instruction 0; odd ones are right, at instruction 4. */
  function SlotBase(s: nat): nat {
    if s % 2 == 0 then 0 else 4
  }

  /** The machine when slot `s` starts. */
  function StateAt(p: Pio, code: seq<Op>, bits: nat, pin: nat -> bool, t: nat, s: nat): (r: Pio)
    requires Runnable(code) && p.pc < PROGRAM_SIZE
    ensures r.pc < PROGRAM_SIZE
  {
    After(p, code, bits, pin, t, SlotTime(bits, s))
  }

  /** The word sent in slot `s`, most significant bit first. */
  function SlotWord(bits: nat, pin: nat -> bool, t: nat, s: nat): nat {
    BitsValue(SlotBits(pin, t + SlotTime(bits, s), bits))
  }

  function AllWords(bits: nat, pin: nat -> bool, t: nat, n: nat): (r: seq<nat>)
    ensures |r| == n
  {
    seq(n, s requires 0 <= s < n => SlotWord(bits, pin, t, s))
  }

  lemma SlotAfter(p: Pio, code: seq<Op>, base: nat, bits: nat, pin: nat -> bool, t: nat, m: nat, h: nat)
    requires 2 <= bits <= 32 && p.pc < PROGRAM_SIZE && IsReceiver(code, bits) && h == 2 * bits
    requires SlotStart(After(p, code, bits, pin, t, m), base)
    ensures After(p, code, bits, pin, t, m + h) ==
            InSlot(After(p, code, bits, pin, t, m), base, bits, pin, t + m, h)
  {
    AfterAfter(p, code, bits, pin, t, m, h);
    SlotRun(After(p, code, bits, pin, t, m), code, base, bits, pin, t + m, h);
  }

  lemma SlotComplete(p: Pio, base: nat, bits: nat, pin: nat -> bool, t: nat)
    requires 2 <= bits && SlotStart(p, base)
    ensures var q := InSlot(p, base, bits, pin, t, 2 * bits);
            SlotStart(q, 4 - base) && q.pushed == p.pushed + [BitsValue(SlotBits(pin, t, bits))]
  {
  }

  lemma NextSlot(bits: nat, s: nat)
    ensures SlotBase(s + 1) == 4 - SlotBase(s) && SlotTime(bits, s + 1) == SlotTime(bits, s) + 2 * bits
  {
  }

  /** One slot to the next. */
  lemma SlotAfterSlot(p: Pio, code: seq<Op>, bits: nat, pin: nat -> bool, t: nat, s: nat)
    requires 2 <= bits <= 32 && p.pc < PROGRAM_SIZE && IsReceiver(code, bits)
    requires SlotStart(StateAt(p, code, bits, pin, t, s), SlotBase(s))
    ensures StateAt(p, code, bits, pin, t, s + 1) ==
            InSlot(StateAt(p, code, bits, pin, t, s), SlotBase(s), bits, pin, t + SlotTime(bits, s), 2 * bits)
  {
    NextSlot(bits, s);
    SlotAfter(p, code, SlotBase(s), bits, pin, t, SlotTime(bits, s), 2 * bits);
  }

  lemma {:induction false} SlotBoundary(p: Pio, code: seq<Op>, bits: nat, pin: nat -> bool, t: nat, s: nat)
    requires 2 <= bits <= 32 && SlotStart(p, 0) && IsReceiver(code, bits)
    ensures SlotStart(StateAt(p, code, bits, pin, t, s), SlotBase(s))
  {
    if s == 0 {
      assert SlotTime(bits, 0) == 0;
    } else {
      var r := s - 1;
      SlotBoundary(p, code, bits, pin, t, r);
      SlotAfterSlot(p, code, bits, pin, t, r);
      SlotComplete(StateAt(p, code, bits, pin, t, r), SlotBase(r), bits, pin, t + SlotTime(bits, r));
      NextSlot(bits, r);
    }
  }

  lemma SlotPushes(p: Pio, code: seq<Op>, bits: nat, pin: nat -> bool, t: nat, s: nat)
    requires 2 <= bits <= 32 && SlotStart(p, 0) && IsReceiver(code, bits)
    ensures StateAt(p, code, bits, pin, t, s + 1).pushed ==
            StateAt(p, code, bits, pin, t, s).pushed + [SlotWord(bits, pin, t, s)]
  {
    SlotBoundary(p, code, bits, pin, t, s);
    SlotAfterSlot(p, code, bits, pin, t, s);
    SlotComplete(StateAt(p, code, bits, pin, t, s), SlotBase(s), bits, pin, t + SlotTime(bits, s));
  }

  lemma {:induction false} PushesAdd(trace: seq<Pio>, words: seq<nat>, n: nat)
    requires |trace| == |words| + 1 && n <= |words|
    requires forall i :: 0 <= i < |words| ==> trace[i + 1].pushed == trace[i].pushed + [words[i]]
    ensures trace[n].pushed == trace[0].pushed + words[..n]
  {
    if n > 0 {
      PushesAdd(trace, words, n - 1);
      var i := n - 1;
      assert trace[i + 1].pushed == trace[i].pushed + [words[i]];
      assert words[..n] == words[..i] + [words[i]];
    }
  }

  /** However long it runs, the machine pushes exactly one word per slot: the bits on the data
      line in that slot, most significant first, left slots and right slots alternating. */
  lemma EverySlotIsPushed(p: Pio, code: seq<Op>, bits: nat, pin: nat -> bool, t: nat, n: nat)
    requires 2 <= bits <= 32 && SlotStart(p, 0) && IsReceiver(code, bits)
    ensures StateAt(p, code, bits, pin, t, n).pushed == p.pushed + AllWords(bits, pin, t, n)
  {
    var trace := seq(n + 1, s requires 0 <= s <= n => StateAt(p, code, bits, pin, t, s));
    var words := AllWords(bits, pin, t, n);
    forall i | 0 <= i < |words|
      ensures trace[i + 1].pushed == trace[i].pushed + [words[i]]
    {
      SlotPushes(p, code, bits, pin, t, i);
    }
    PushesAdd(trace, words, n);
    assert words[..n] == words;
    assert SlotTime(bits, 0) == 0;
    assert trace[0] == p;
  }

  // ---- the clocks ----

  /** Within a wrap the program counter depends only on the cycle. */
  function WrapPc(bits: nat, r: nat): nat {
    if r < 2 * bits then SlotPc(0, bits, r) else SlotPc(4, bits, r - 2 * bits)
  }

  lemma PcInSlot(p: Pio, code: seq<Op>, base: nat, bits: nat, pin: nat -> bool, t: nat, r: nat)
    requires 2 <= bits <= 32 && SlotStart(p, base) && r <= 2 * bits
    requires Runnable(code) && SlotCode(code, base, bits)
    ensures After(p, code, bits, pin, t, r).pc == SlotPc(base, bits, r)
  {
    SlotRun(p, code, base, bits, pin, t, r);
  }

  lemma PcInRightSlot(p: Pio, code: seq<Op>, bits: nat, pin: nat -> bool, t: nat, h: nat, r: nat)
    requires 2 <= bits <= 32 && SlotStart(p, 0) && IsReceiver(code, bits) && h == 2 * bits && r <= h
    ensures After(p, code, bits, pin, t, h + r).pc == SlotPc(4, bits, r)
  {
    SlotEnds(p, code, 0, bits, pin, t);
    AfterAfter(p, code, bits, pin, t, h, r);
    PcInSlot(After(p, code, bits, pin, t, h), code, 4, bits, pin, t + h, r);
  }

  lemma PcInWrap(p: Pio, code: seq<Op>, bits: nat, pin: nat -> bool, t: nat, r: nat)
    requires 2 <= bits <= 32 && SlotStart(p, 0) && IsReceiver(code, bits) && r < 4 * bits
    ensures After(p, code, bits, pin, t, r).pc == WrapPc(bits, r)
  {
    if r < 2 * bits {
      PcInSlot(p, code, 0, bits, pin, t, r);
    } else {
      PcInRightSlot(p, code, bits, pin, t, 2 * bits, r - 2 * bits);
    }
  }

  lemma PcAfter(p: Pio, code: seq<Op>, bits: nat, pin: nat -> bool, t: nat, m: nat, r: nat)
    requires 2 <= bits <= 32 && p.pc < PROGRAM_SIZE && IsReceiver(code, bits) && r < 4 * bits
    requires SlotStart(After(p, code, bits, pin, t, m), 0)
    ensures After(p, code, bits, pin, t, m + r).pc == WrapPc(bits, r)
  {
    AfterAfter(p, code, bits, pin, t, m, r);
    PcInWrap(After(p, code, bits, pin, t, m), code, bits, pin, t + m, r);
  }

  lemma PcAfterWraps(p: Pio, code: seq<Op>, bits: nat, pin: nat -> bool, t: nat, n: nat, r: nat)
    requires 2 <= bits <= 32 && SlotStart(p, 0) && IsReceiver(code, bits) && r < 4 * bits
    ensures After(p, code, bits, pin, t, SlotTime(bits, 2 * n) + r).pc == WrapPc(bits, r)
  {
    SlotBoundary(p, code, bits, pin, t, 2 * n);
    PcAfter(p, code, bits, pin, t, SlotTime(bits, 2 * n), r);
  }

  /** What is driven while the instruction at `pc` runs. */
  function BitClock(code: seq<Op>, pc: nat): nat
    requires pc < |code|
  {
    code[pc].side % 2
  }

  function WordClock(code: seq<Op>, pc: nat): nat
    requires pc < |code|
  {
    code[pc].side / 2
  }

  lemma ClocksOfProgram(bits: nat, edgeFlip: bool, pc: nat)
    requires bits >= 2 && pc < PROGRAM_SIZE
    ensures BitClock(Program(bits, edgeFlip), pc) == (if (pc % 2 == 0) != edgeFlip then 1 else 0)
    ensures WordClock(Program(bits, edgeFlip), pc) == (if 3 <= pc < 7 then 1 else 0)
  {
    var code := Program(bits, edgeFlip);
    if pc == 0 {
      assert code[pc].side == Side(1, edgeFlip);
    } else if pc == 1 {
      assert code[pc].side == Side(0, edgeFlip);
    } else if pc == 2 {
      assert code[pc].side == Side(1, edgeFlip);
    } else if pc == 3 {
      assert code[pc].side == Side(2, edgeFlip);
    } else if pc == 4 {
      assert code[pc].side == Side(3, edgeFlip);
    } else if pc == 5 {
      assert code[pc].side == Side(2, edgeFlip);
    } else if pc == 6 {
      assert code[pc].side == Side(3, edgeFlip);
    } else {
      assert code[pc].side == Side(0, edgeFlip);
    }
  }

  lemma SlotPcClocks(base: nat, bits: nat, r: nat)
    requires 2 <= bits && r < 2 * bits && (base == 0 || base == 4)
    ensures base <= SlotPc(base, bits, r) < base + 4
    ensures SlotPc(base, bits, r) % 2 == r % 2
    ensures SlotPc(base, bits, r) == base + 3 <==> r == 2 * bits - 1
  {
  }

  lemma WrapPcClocks(bits: nat, r: nat)
    requires 2 <= bits && r < 4 * bits
    ensures WrapPc(bits, r) < PROGRAM_SIZE
    ensures WrapPc(bits, r) % 2 == r % 2
    ensures 3 <= WrapPc(bits, r) < 7 <==> 2 * bits - 1 <= r < 4 * bits - 1
  {
    if r < 2 * bits {
      SlotPcClocks(0, bits, r);
    } else {
      SlotPcClocks(4, bits, r - 2 * bits);
    }
  }

  /** `r` cycles into any wrap, whatever the data line does: the bit clock toggles every
      cycle, and the word clock is high for the 2 * bits cycles from the last bit of the left
      slot on and low for the other 2 * bits; flipping the edge complements the bit clock
      and nothing else. */
  lemma Clocks(p: Pio, bits: nat, edgeFlip: bool, pin: nat -> bool, t: nat, n: nat, r: nat)
    requires 2 <= bits <= 32 && SlotStart(p, 0) && r < 4 * bits
    ensures var code := Program(bits, edgeFlip);
            && Runnable(code)
            && var pc := After(p, code, bits, pin, t, SlotTime(bits, 2 * n) + r).pc;
            && BitClock(code, pc) == (if (r % 2 == 0) != edgeFlip then 1 else 0)
            && WordClock(code, pc) == (if 2 * bits - 1 <= r < 4 * bits - 1 then 1 else 0)
  {
    ProgramIsReceiver(bits, edgeFlip);
    PcAfterWraps(p, Program(bits, edgeFlip), bits, pin, t, n, r);
    WrapPcClocks(bits, r);
    ClocksOfProgram(bits, edgeFlip, WrapPc(bits, r));
  }

  /** The edge flip changes no state, only what is driven: the same words are received. */
  lemma {:induction false} FlipRunsAlike(p: Pio, code: seq<Op>, flipped: seq<Op>, threshold: nat,
                                         pin: nat -> bool, t: nat, n: nat)
    requires Runnable(code) && Runnable(flipped) && p.pc < PROGRAM_SIZE
    requires forall i :: 0 <= i < PROGRAM_SIZE ==> code[i].instr == flipped[i].instr
    ensures After(p, code, threshold, pin, t, n) == After(p, flipped, threshold, pin, t, n)
  {
    if n > 0 {
      FlipRunsAlike(p, code, flipped, threshold, pin, t, n - 1);
    }
  }

  lemma FlipReceivesTheSame(p: Pio, bits: nat, pin: nat -> bool, t: nat, n: nat)
    requires 2 <= bits && p.pc < PROGRAM_SIZE
    ensures Runnable(Program(bits, false)) && Runnable(Program(bits, true))
    ensures After(p, Program(bits, false), bits, pin, t, n) == After(p, Program(bits, true), bits, pin, t, n)
  {
    ProgramIsReceiver(bits, false);
    ProgramIsReceiver(bits, true);
    FlipRunsAlike(p, Program(bits, false), Program(bits, true), bits, pin, t, n);
  }

  /** Bit clock frequency, saturating at 32 bits. */
  function BitClockHz(rate: nat, bits: nat, channels: nat): nat {
    var a := if rate * bits > MAX_X then MAX_X else rate * bits;
    if a * channels > MAX_X then MAX_X else a * channels
  }

  /** Clocked at twice the bit clock, as the divider is set, the machine makes exactly `rate`
      wraps - left and right sample pairs - per second. */
  lemma FramesPerSecond(rate: nat, bits: nat)
    requires rate * bits * 2 <= MAX_X
    ensures 2 * BitClockHz(rate, bits, 2) == SlotTime(bits, 2 * rate)
  {
    SlotTimeIsProduct(bits, 2 * rate);
    assert (2 * rate) * (2 * bits) == 2 * (rate * bits * 2);
  }

  /** Whatever the store holds, the next recording's program is one for which all this holds
      and makes exactly the effective rate's frames per second. */
  lemma EveryStoreClocksTheMic(items: MicConfig.Items)
    ensures var s := MicConfig.Effective(items);
            2 <= s.bits <= 32 && 2 * BitClockHz(s.rate, s.bits, 2) == SlotTime(s.bits, 2 * s.rate)
  {
    MicConfig.EffectiveIsInWindow(items);
    var s := MicConfig.Effective(items);
    FramesPerSecond(s.rate, s.bits);
  }

  // ---- the sample in a word ----

  function ToI16(u: int): int {
    (u + 0x8000) % 0x1_0000 - 0x8000
  }

  function ShiftRight(word: nat, n: nat): nat {
    if n == 0 then word else ShiftRight(word / 2, n - 1)
  }

  function ShiftLeft(word: nat, n: nat): nat
    decreases n
  {
    if n == 0 then word else ShiftLeft(2 * word, n - 1)
  }

  function SlotSample(word: nat, bitsPerSlot: nat): int {
    var bits := if bitsPerSlot < 1 then 1 else if bitsPerSlot > 32 then 32 else bitsPerSlot;
    if bits >= 16 then ToI16(ShiftRight(word, bits - 16)) else ToI16(ShiftLeft(word, 16 - bits))
  }

  function Zeros(n: nat): (r: seq<bool>)
    ensures |r| == n
  {
    seq(n, _ => false)
  }

  /** The slot's most significant 16 bits, zeros following a narrower slot. */
  function Top16(b: seq<bool>): (r: seq<bool>)
    ensures |r| == 16
  {
    if |b| >= 16 then b[..16] else b + Zeros(16 - |b|)
  }

  lemma {:induction false} ShiftRightDrops(b: seq<bool>, n: nat)
    requires n <= |b|
    ensures ShiftRight(BitsValue(b), n) == BitsValue(b[..|b| - n])
    decreases n
  {
    if n == 0 {
      assert b[..|b|] == b;
    } else {
      var front := b[..|b| - 1];
      assert BitsValue(b) / 2 == BitsValue(front);
      ShiftRightDrops(front, n - 1);
      assert front[..|front| - (n - 1)] == b[..|b| - n];
    }
  }

  lemma {:induction false} ShiftLeftPads(b: seq<bool>, n: nat)
    ensures ShiftLeft(BitsValue(b), n) == BitsValue(b + Zeros(n))
    decreases n
  {
    if n == 0 {
      assert b + Zeros(0) == b;
    } else {
      var longer := b + [false];
      assert longer[..|b|] == b;
      ShiftLeftPads(longer, n - 1);
      assert longer + Zeros(n - 1) == b + Zeros(n);
    }
  }

  /** For every legal width, the sample taken from a slot's word is its top 16 bits, read as
      a signed number and left-justified when the slot is narrower. */
  lemma SampleIsTop16(b: seq<bool>)
    requires 1 <= |b| <= 32
    ensures SlotSample(BitsValue(b), |b|) == ToI16(BitsValue(Top16(b)))
  {
    if |b| >= 16 {
      ShiftRightDrops(b, |b| - 16);
    } else {
      ShiftLeftPads(b, 16 - |b|);
    }
  }
}
