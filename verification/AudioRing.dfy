/** The drop-oldest sample ring between capture and upload
    (terminal-model/src/audio_ring.rs): its queue semantics, a ledger that accounts for
    every sample over a whole run, and the in-place ring proved against both. */
module AudioRing {
  import opened Sequences

  /** A signed 16-bit PCM sample. */
  type Sample = x: int | -0x8000 <= x < 0x8000

  /** A sample together with the utterance generation that produced it. */
  datatype Tagged = Tagged(sample: Sample, gen: nat)

  /** What the ring means: buffered samples oldest first, the newest generation ever
      accepted, and the generation whose overflow was reported last. */
  datatype Queue = Queue(items: seq<Tagged>, newest: nat, lastDrop: Option<nat>)

  datatype WriteResult = WriteResult(dropped: nat, firstDrop: bool)

  const EMPTY := Queue([], 0, None)

  function Tag(gen: nat, samples: seq<Sample>): (r: seq<Tagged>)
    ensures |r| == |samples|
    ensures forall i :: 0 <= i < |r| ==> r[i] == Tagged(samples[i], gen)
  {
    seq(|samples|, i requires 0 <= i < |samples| => Tagged(samples[i], gen))
  }

  /** The samples of one generation, in order. */
  function Of(gen: nat, log: seq<Tagged>): (r: seq<Sample>)
    ensures |r| <= |log|
  {
    if log == [] then []
    else Of(gen, log[..|log| - 1]) +
         (if log[|log| - 1].gen == gen then [log[|log| - 1].sample] else [])
  }

  /** Buffered tags never decrease from the oldest sample to the newest. */
  ghost predicate SortedTags(items: seq<Tagged>) {
    forall i, j :: 0 <= i < j < |items| ==> items[i].gen <= items[j].gen
  }

  ghost predicate WellFormed(q: Queue, cap: nat) {
    && |q.items| <= cap
    && SortedTags(q.items)
    && forall i :: 0 <= i < |q.items| ==> q.items[i].gen <= q.newest
  }

  // ---- queue operations, in closed form ----

  /** How many of the oldest of `total` samples do not fit in `cap`. */
  function Excess(total: nat, cap: nat): nat {
    if total > cap then total - cap else 0
  }

  /** A write from a generation older than one already accepted is ignored. */
  predicate Refused(q: Queue, gen: nat) {
    gen < q.newest
  }

  function WriteDropped(q: Queue, cap: nat, gen: nat, samples: seq<Sample>): nat {
    if Refused(q, gen) then 0 else Excess(|q.items| + |samples|, cap)
  }

  function AfterWrite(q: Queue, cap: nat, gen: nat, samples: seq<Sample>): Queue {
    if Refused(q, gen) then q
    else
      var all := q.items + Tag(gen, samples);
      var dropped := WriteDropped(q, cap, gen, samples);
      Queue(all[dropped..], gen, if dropped > 0 then Some(gen) else q.lastDrop)
  }

  function WriteReport(q: Queue, cap: nat, gen: nat, samples: seq<Sample>): WriteResult {
    var dropped := WriteDropped(q, cap, gen, samples);
    WriteResult(dropped, dropped > 0 && q.lastDrop != Some(gen))
  }

  /** Length of the leading run of samples older than `gen`, which a read discards. */
  function OlderRun(items: seq<Tagged>, gen: nat): (n: nat)
    ensures n <= |items|
    ensures forall i :: 0 <= i < n ==> items[i].gen < gen
    ensures n < |items| ==> items[n].gen >= gen
  {
    if items == [] || items[0].gen >= gen then 0 else 1 + OlderRun(items[1..], gen)
  }

  /** Length of the leading run of at most `want` samples of exactly `gen`. */
  function OwnRun(items: seq<Tagged>, gen: nat, want: nat): (n: nat)
    ensures n <= |items| && n <= want
    ensures forall i :: 0 <= i < n ==> items[i].gen == gen
    ensures n < |items| && n < want ==> items[n].gen != gen
  {
    if items == [] || want == 0 || items[0].gen != gen then 0
    else 1 + OwnRun(items[1..], gen, want - 1)
  }

  function ReadDiscards(q: Queue, gen: nat): seq<Tagged> {
    q.items[..OlderRun(q.items, gen)]
  }

  function ReadTakes(q: Queue, gen: nat, want: nat): seq<Tagged> {
    var rest := q.items[OlderRun(q.items, gen)..];
    rest[..OwnRun(rest, gen, want)]
  }

  function AfterRead(q: Queue, gen: nat, want: nat): Queue {
    var rest := q.items[OlderRun(q.items, gen)..];
    q.(items := rest[OwnRun(rest, gen, want)..])
  }

  function Samples(items: seq<Tagged>): (r: seq<Sample>)
    ensures |r| == |items|
    ensures forall i :: 0 <= i < |r| ==> r[i] == items[i].sample
  {
    seq(|items|, i requires 0 <= i < |items| => items[i].sample)
  }

  // ---- facts about one generation's samples ----

  lemma {:induction false} OfConcat(gen: nat, a: seq<Tagged>, b: seq<Tagged>)
    ensures Of(gen, a + b) == Of(gen, a) + Of(gen, b)
    decreases |b|
  {
    if b == [] {
      assert a + b == a;
    } else {
      var b' := b[..|b| - 1];
      OfConcat(gen, a, b');
      assert (a + b)[..|a + b| - 1] == a + b';
    }
  }

  lemma {:induction false} OfNone(gen: nat, items: seq<Tagged>)
    requires forall i :: 0 <= i < |items| ==> items[i].gen != gen
    ensures Of(gen, items) == []
    decreases |items|
  {
    if items != [] {
      OfNone(gen, items[..|items| - 1]);
    }
  }

  lemma {:induction false} OfSome(gen: nat, items: seq<Tagged>, i: nat)
    requires i < |items| && items[i].gen == gen
    ensures Of(gen, items) != []
    decreases |items|
  {
    if i < |items| - 1 {
      OfSome(gen, items[..|items| - 1], i);
    }
  }

  lemma {:induction false} OfAll(gen: nat, items: seq<Tagged>)
    requires forall i :: 0 <= i < |items| ==> items[i].gen == gen
    ensures Of(gen, items) == Samples(items)
    decreases |items|
  {
    if items != [] {
      OfAll(gen, items[..|items| - 1]);
    }
  }

  // ---- queue invariants ----

  /** An accepted write leaves exactly the newest `cap` of the old contents plus the new
      tagged samples, keeps the tags ordered, and reports exactly what fell off. */
  lemma WriteKeepsNewest(q: Queue, cap: nat, gen: nat, samples: seq<Sample>)
    requires WellFormed(q, cap)
    ensures WellFormed(AfterWrite(q, cap, gen, samples), cap)
    ensures !Refused(q, gen) ==>
              var all := q.items + Tag(gen, samples);
              var r := WriteReport(q, cap, gen, samples);
              && all == all[..r.dropped] + AfterWrite(q, cap, gen, samples).items
              && (r.dropped > 0 ==> |AfterWrite(q, cap, gen, samples).items| == cap)
  {
  }

  lemma TailOfTail<T>(a: seq<T>, n: nat, m: nat)
    requires n <= |a| && m <= |a[n..]|
    ensures a[n..][m..] == a[n + m..] && a == a[..n] + a[n..][..m] + a[n + m..]
  {
  }

  lemma TailIsWellFormed(q: Queue, cap: nat, n: nat)
    requires WellFormed(q, cap) && n <= |q.items|
    ensures WellFormed(q.(items := q.items[n..]), cap)
  {
    var items := q.items[n..];
    assert forall i :: 0 <= i < |items| ==> items[i] == q.items[n + i];
  }

  lemma ReadKeepsWellFormed(q: Queue, cap: nat, gen: nat, want: nat)
    requires WellFormed(q, cap)
    ensures WellFormed(AfterRead(q, gen, want), cap)
    ensures q.items == ReadDiscards(q, gen) + ReadTakes(q, gen, want) + AfterRead(q, gen, want).items
  {
    var n := OlderRun(q.items, gen);
    var m := OwnRun(q.items[n..], gen, want);
    TailOfTail(q.items, n, m);
    TailIsWellFormed(q, cap, n + m);
  }

  /** A read that returns fewer samples than asked leaves none of that generation. */
  lemma ShortReadExhausts(q: Queue, cap: nat, gen: nat, want: nat)
    requires WellFormed(q, cap)
    requires |ReadTakes(q, gen, want)| < want
    ensures Of(gen, AfterRead(q, gen, want).items) == []
  {
    var rest := q.items[OlderRun(q.items, gen)..];
    var left := AfterRead(q, gen, want).items;
    assert left == rest[OwnRun(rest, gen, want)..];
    if left != [] {
      assert left[0].gen > gen;
      assert forall i :: 0 <= i < |left| ==> left[0].gen <= left[i].gen;
    }
    OfNone(gen, left);
  }

  // ---- the ledger: every sample accounted for, over a whole run ----

  /** `accepted` is everything a write took in; `gone` everything that has left the queue,
      in the order it left; `read`, `evicted` and `discarded` say how it left. `reports`
      lists the generations whose write said `firstDrop`; `overflowed` those with any
      overflowing write. */
  datatype Ledger = Ledger(
    q: Queue,
    accepted: seq<Tagged>,
    gone: seq<Tagged>,
    read: seq<Tagged>,
    evicted: seq<Tagged>,
    discarded: seq<Tagged>,
    reports: seq<nat>,
    overflowed: set<nat>)

  const NEW_LEDGER := Ledger(EMPTY, [], [], [], [], [], [], {})

  function LedgerWrite(l: Ledger, cap: nat, gen: nat, samples: seq<Sample>): Ledger {
    if Refused(l.q, gen) then l
    else
      var all := l.q.items + Tag(gen, samples);
      var result := WriteReport(l.q, cap, gen, samples);
      l.(q := AfterWrite(l.q, cap, gen, samples),
         accepted := l.accepted + Tag(gen, samples),
         gone := l.gone + all[..result.dropped],
         evicted := l.evicted + all[..result.dropped],
         reports := l.reports + (if result.firstDrop then [gen] else []),
         overflowed := l.overflowed + (if result.dropped > 0 then {gen} else {}))
  }

  function LedgerRead(l: Ledger, gen: nat, want: nat): Ledger {
    l.(q := AfterRead(l.q, gen, want),
       gone := l.gone + ReadDiscards(l.q, gen) + ReadTakes(l.q, gen, want),
       read := l.read + ReadTakes(l.q, gen, want),
       discarded := l.discarded + ReadDiscards(l.q, gen))
  }

  /** The books balance: first in first out, and every sample that left was read, evicted
      or discarded, generation by generation. */
  ghost predicate Balanced(l: Ledger) {
    && l.accepted == l.gone + l.q.items
    && forall gen: nat ::
         && Subseq(Of(gen, l.read), Of(gen, l.gone))
         && |Of(gen, l.gone)| == |Of(gen, l.read)| + |Of(gen, l.evicted)| + |Of(gen, l.discarded)|
  }

  /** Each generation that overflowed was reported, and none was reported twice. */
  ghost predicate ReportedOnce(l: Ledger) {
    && (forall g: nat :: g in l.overflowed <==> g in l.reports)
    && (forall i, j :: 0 <= i < j < |l.reports| ==> l.reports[i] < l.reports[j])
    && (match l.q.lastDrop
        case None => l.reports == []
        case Some(g) => l.reports != [] && l.reports[|l.reports| - 1] == g && g <= l.q.newest)
  }

  ghost predicate LedgerInv(l: Ledger, cap: nat) {
    WellFormed(l.q, cap) && Balanced(l) && ReportedOnce(l)
  }

  lemma LedgerWriteOf(l: Ledger, cap: nat, gen: nat, samples: seq<Sample>, k: nat)
    requires WellFormed(l.q, cap) && !Refused(l.q, gen)
    ensures var l' := LedgerWrite(l, cap, gen, samples);
            var lost := (l.q.items + Tag(gen, samples))[..WriteDropped(l.q, cap, gen, samples)];
            && Of(k, l'.gone) == Of(k, l.gone) + Of(k, lost)
            && Of(k, l'.evicted) == Of(k, l.evicted) + Of(k, lost)
            && Of(k, l'.accepted) == Of(k, l.accepted) + (if k == gen then samples else [])
  {
    var l' := LedgerWrite(l, cap, gen, samples);
    var lost := (l.q.items + Tag(gen, samples))[..WriteDropped(l.q, cap, gen, samples)];
    OfConcat(k, l.gone, lost);
    OfConcat(k, l.evicted, lost);
    OfConcat(k, l.accepted, Tag(gen, samples));
    if k == gen {
      OfAll(k, Tag(gen, samples));
      assert Samples(Tag(gen, samples)) == samples;
    } else {
      OfNone(k, Tag(gen, samples));
    }
  }

  /** What a read removes, seen from generation `k`. */
  lemma ReadPartsOf(q: Queue, gen: nat, want: nat, k: nat)
    ensures Of(k, ReadTakes(q, gen, want)) == if k == gen then Samples(ReadTakes(q, gen, want)) else []
    ensures k >= gen ==> Of(k, ReadDiscards(q, gen)) == []
  {
    var d, t := ReadDiscards(q, gen), ReadTakes(q, gen, want);
    if k == gen {
      OfAll(k, t);
    } else {
      OfNone(k, t);
    }
    if k >= gen {
      OfNone(k, d);
    }
  }

  lemma LedgerReadOf(l: Ledger, cap: nat, gen: nat, want: nat, k: nat)
    requires WellFormed(l.q, cap)
    ensures var l' := LedgerRead(l, gen, want);
            var out := Samples(ReadTakes(l.q, gen, want));
            && Of(k, l'.gone) == Of(k, l.gone) + Of(k, ReadDiscards(l.q, gen)) + (if k == gen then out else [])
            && Of(k, l'.read) == Of(k, l.read) + (if k == gen then out else [])
            && Of(k, l'.discarded) == Of(k, l.discarded) + Of(k, ReadDiscards(l.q, gen))
            && (k >= gen ==> Of(k, ReadDiscards(l.q, gen)) == [])
  {
    var d, t := ReadDiscards(l.q, gen), ReadTakes(l.q, gen, want);
    ReadPartsOf(l.q, gen, want, k);
    OfConcat(k, l.gone, d);
    OfConcat(k, l.gone + d, t);
    OfConcat(k, l.read, t);
    OfConcat(k, l.discarded, d);
  }

  lemma LedgerWriteBalanced(l: Ledger, cap: nat, gen: nat, samples: seq<Sample>, k: nat)
    requires WellFormed(l.q, cap) && Balanced(l) && !Refused(l.q, gen)
    ensures var l' := LedgerWrite(l, cap, gen, samples);
            && Subseq(Of(k, l'.read), Of(k, l'.gone))
            && |Of(k, l'.gone)| == |Of(k, l'.read)| + |Of(k, l'.evicted)| + |Of(k, l'.discarded)|
  {
    var lost := (l.q.items + Tag(gen, samples))[..WriteDropped(l.q, cap, gen, samples)];
    LedgerWriteOf(l, cap, gen, samples, k);
    SubseqSkip(Of(k, l.read), Of(k, l.gone), Of(k, lost));
  }

  lemma LedgerWriteFifo(l: Ledger, cap: nat, gen: nat, samples: seq<Sample>)
    requires l.accepted == l.gone + l.q.items && !Refused(l.q, gen)
    ensures var l' := LedgerWrite(l, cap, gen, samples);
            l'.accepted == l'.gone + l'.q.items
  {
    var all := l.q.items + Tag(gen, samples);
    assert LedgerWrite(l, cap, gen, samples).accepted == l.gone + all;
  }

  lemma LedgerWriteInv(l: Ledger, cap: nat, gen: nat, samples: seq<Sample>)
    requires LedgerInv(l, cap)
    ensures LedgerInv(LedgerWrite(l, cap, gen, samples), cap)
  {
    if !Refused(l.q, gen) {
      var l' := LedgerWrite(l, cap, gen, samples);
      WriteKeepsNewest(l.q, cap, gen, samples);
      LedgerWriteFifo(l, cap, gen, samples);
      forall k: nat
        ensures Subseq(Of(k, l'.read), Of(k, l'.gone))
        ensures |Of(k, l'.gone)| == |Of(k, l'.read)| + |Of(k, l'.evicted)| + |Of(k, l'.discarded)|
      {
        LedgerWriteBalanced(l, cap, gen, samples, k);
      }
      LedgerWriteReports(l, cap, gen, samples);
    }
  }

  lemma LedgerWriteReports(l: Ledger, cap: nat, gen: nat, samples: seq<Sample>)
    requires ReportedOnce(l)
    ensures ReportedOnce(LedgerWrite(l, cap, gen, samples))
  {
    var l' := LedgerWrite(l, cap, gen, samples);
    if !Refused(l.q, gen) && WriteDropped(l.q, cap, gen, samples) > 0 {
      if l.q.lastDrop == Some(gen) {
        assert gen in l.reports;
        assert l'.reports == l.reports;
      } else {
        assert l'.reports == l.reports + [gen];
      }
    }
  }

  lemma LedgerReadBalanced(l: Ledger, cap: nat, gen: nat, want: nat, k: nat)
    requires WellFormed(l.q, cap) && Balanced(l)
    ensures var l' := LedgerRead(l, gen, want);
            && Subseq(Of(k, l'.read), Of(k, l'.gone))
            && |Of(k, l'.gone)| == |Of(k, l'.read)| + |Of(k, l'.evicted)| + |Of(k, l'.discarded)|
  {
    var d, t := ReadDiscards(l.q, gen), ReadTakes(l.q, gen, want);
    LedgerReadOf(l, cap, gen, want, k);
    SubseqSkip(Of(k, l.read), Of(k, l.gone), Of(k, d));
    if k == gen {
      SubseqKeep(Of(k, l.read), Of(k, l.gone) + Of(k, d), Samples(t));
    } else {
      assert Of(k, l.gone) + Of(k, d) + [] == Of(k, l.gone) + Of(k, d);
      assert Of(k, l.read) + [] == Of(k, l.read);
    }
  }

  lemma LedgerReadInv(l: Ledger, cap: nat, gen: nat, want: nat)
    requires LedgerInv(l, cap)
    ensures LedgerInv(LedgerRead(l, gen, want), cap)
  {
    var l' := LedgerRead(l, gen, want);
    ReadKeepsWellFormed(l.q, cap, gen, want);
    forall k: nat
      ensures Subseq(Of(k, l'.read), Of(k, l'.gone))
      ensures |Of(k, l'.gone)| == |Of(k, l'.read)| + |Of(k, l'.evicted)| + |Of(k, l'.discarded)|
    {
      LedgerReadBalanced(l, cap, gen, want, k);
    }
    LedgerReadFifo(l, gen, want);
  }

  lemma LedgerReadFifo(l: Ledger, gen: nat, want: nat)
    requires l.accepted == l.gone + l.q.items
    ensures var l' := LedgerRead(l, gen, want);
            l'.accepted == l'.gone + l'.q.items && l'.reports == l.reports
  {
    var n := OlderRun(l.q.items, gen);
    TailOfTail(l.q.items, n, OwnRun(l.q.items[n..], gen, want));
    Regroup(l.gone, ReadDiscards(l.q, gen), ReadTakes(l.q, gen, want), AfterRead(l.q, gen, want).items);
  }

  lemma Regroup<T>(a: seq<T>, b: seq<T>, c: seq<T>, d: seq<T>)
    ensures a + (b + c + d) == a + b + c + d
  {
  }

  datatype RingOp = WriteOp(gen: nat, samples: seq<Sample>) | ReadOp(gen: nat, want: nat)

  function Run(ops: seq<RingOp>, cap: nat): Ledger {
    if ops == [] then NEW_LEDGER
    else
      var l := Run(ops[..|ops| - 1], cap);
      match ops[|ops| - 1]
      case WriteOp(gen, samples) => LedgerWrite(l, cap, gen, samples)
      case ReadOp(gen, want) => LedgerRead(l, gen, want)
  }

  lemma {:induction false} RunInv(ops: seq<RingOp>, cap: nat)
    ensures LedgerInv(Run(ops, cap), cap)
    decreases |ops|
  {
    if ops == [] {
      var l := NEW_LEDGER;
      assert LedgerInv(l, cap);
    } else {
      RunInv(ops[..|ops| - 1], cap);
      var l := Run(ops[..|ops| - 1], cap);
      match ops[|ops| - 1]
      case WriteOp(gen, samples) => LedgerWriteInv(l, cap, gen, samples);
      case ReadOp(gen, want) => LedgerReadInv(l, cap, gen, want);
    }
  }

  /** Over any run of writes and reads: what went in is what was read, evicted, discarded
      or is still buffered (per generation), reads come out in order, and a generation is
      reported as overflowing exactly once if it ever overflowed and never otherwise. */
  lemma EverySampleAccountedFor(ops: seq<RingOp>, cap: nat, gen: nat)
    ensures var l := Run(ops, cap);
            && |Of(gen, l.accepted)| ==
                 |Of(gen, l.read)| + |Of(gen, l.evicted)| + |Of(gen, l.discarded)| + |Of(gen, l.q.items)|
            && Subseq(Of(gen, l.read), Of(gen, l.accepted))
            && multiset(l.reports)[gen] == (if gen in l.overflowed then 1 else 0)
  {
    RunInv(ops, cap);
    var l := Run(ops, cap);
    OfConcat(gen, l.gone, l.q.items);
    SubseqSkip(Of(gen, l.read), Of(gen, l.gone), Of(gen, l.q.items));
    IncreasingCount(l.reports, gen);
  }

  lemma {:induction false} IncreasingCount(s: seq<nat>, g: nat)
    requires forall i, j :: 0 <= i < j < |s| ==> s[i] < s[j]
    ensures multiset(s)[g] == (if g in s then 1 else 0)
    decreases |s|
  {
    if s != [] {
      var s' := s[..|s| - 1];
      assert s == s' + [s[|s| - 1]];
      IncreasingCount(s', g);
    }
  }

  /** Whether `generation` has finished capturing, given the newest armed and ended ones. */
  predicate UtteranceEnded(newestArmed: nat, newestEnded: nat, generation: nat) {
    newestArmed > generation || newestEnded >= generation
  }

  /** The first `n` items are all of `gen`. */
  ghost predicate AllOf(items: seq<Tagged>, n: nat, gen: nat) {
    n <= |items| && forall i :: 0 <= i < n ==> items[i].gen == gen
  }

  lemma {:induction false} OwnRunIs(items: seq<Tagged>, gen: nat, want: nat, n: nat)
    requires AllOf(items, n, gen) && n <= want
    requires n < |items| && n < want ==> items[n].gen != gen
    ensures OwnRun(items, gen, want) == n
  {
    if n > 0 {
      OwnRunIs(items[1..], gen, want - 1, n - 1);
    }
  }

  // ---- the ring itself ----

  /** A buffer whose first `n` places have been given the first `n` samples. */
  function Overwritten(before: seq<Sample>, items: seq<Tagged>, n: nat): (r: seq<Sample>)
    requires n <= |items| && n <= |before|
    ensures |r| == |before|
  {
    Samples(items[..n]) + before[n..]
  }

  lemma OverwrittenIs(before: seq<Sample>, items: seq<Tagged>, n: nat, after: seq<Sample>)
    requires n <= |items| && n <= |before| == |after|
    requires forall i :: 0 <= i < n ==> after[i] == items[i].sample
    requires forall i :: n <= i < |after| ==> after[i] == before[i]
    ensures after == Overwritten(before, items, n)
  {
  }

  lemma OverwrittenParts(before: seq<Sample>, items: seq<Tagged>, n: nat)
    requires n <= |items| && n <= |before|
    ensures Overwritten(before, items, n)[..n] == Samples(items[..n])
    ensures Overwritten(before, items, n)[n..] == before[n..]
  {
  }

  lemma TagNext(before: seq<Tagged>, gen: nat, input: seq<Sample>, i: nat, d: nat, more: nat)
    requires i < |input| && d <= |before| + i && more <= |before| + i + 1 - d
    ensures ((before + Tag(gen, input[..i]))[d..] + [Tagged(input[i], gen)])[more..]
         == (before + Tag(gen, input[..i + 1]))[d + more..]
  {
    var old' := before + Tag(gen, input[..i]);
    assert before + Tag(gen, input[..i + 1]) == old' + [Tagged(input[i], gen)];
    assert old'[d..] + [Tagged(input[i], gen)] == (old' + [Tagged(input[i], gen)])[d..];
  }

  lemma Wrapped(x: nat, cap: nat)
    requires 0 < cap && x < 2 * cap
    ensures x % cap == if x < cap then x else x - cap
  {
    if x >= cap {
      assert x == (x - cap) + cap * 1;
      assert x / cap == 1;
    }
  }

  class AudioRing {
    const samples: array<Sample>
    const generations: array<nat>
    var head: nat
    var len: nat
    var newestGeneration: nat
    var lastDropGeneration: Option<nat>

    function Capacity(): nat
      reads this
    {
      samples.Length
    }

    /** The buffered samples, oldest first. */
    ghost var items: seq<Tagged>

    ghost predicate Valid()
      reads this`head, this`len, this`items, samples, generations
    {
      && 0 < samples.Length == generations.Length
      && head < samples.Length
      && len <= samples.Length
      && |items| == len
      && forall i :: 0 <= i < len ==> items[i] == Tagged(samples[Slot(i)], generations[Slot(i)])
    }

    /** Position in the arrays of the `i`th oldest sample. */
    ghost function Slot(i: nat): (k: nat)
      reads this`head
      requires head < samples.Length && i < samples.Length
      ensures k < samples.Length
    {
      if head + i < samples.Length then head + i else head + i - samples.Length
    }

    ghost function Contents(): Queue
      reads this
    {
      Queue(items, newestGeneration, lastDropGeneration)
    }

    constructor (n: nat)
      requires n > 0
      ensures Valid() && Capacity() == n && Contents() == EMPTY
      ensures fresh(samples) && fresh(generations)
    {
      samples := new Sample[n](_ => 0);
      generations := new nat[n](_ => 0);
      head, len, newestGeneration, lastDropGeneration := 0, 0, 0, None;
      items := [];
    }

    method Clear()
      requires Valid()
      modifies this
      ensures Valid() && Contents() == Queue([], old(newestGeneration), None)
    {
      head, len, lastDropGeneration := 0, 0, None;
      items := [];
    }

    method HeadGeneration() returns (g: Option<nat>)
      requires Valid()
      ensures g == if items == [] then None else Some(items[0].gen)
    {
      if len == 0 {
        return None;
      }
      return Some(generations[head]);
    }

    /** Forgets the oldest sample. */
    method DropHead()
      requires Valid() && len > 0
      modifies this`head, this`len, this`items
      ensures Valid() && items == old(items)[1..]
      ensures len == old(len) - 1
    {
      Wrapped(head + 1, samples.Length);
      head := (head + 1) % samples.Length;
      len := len - 1;
      items := items[1..];
    }

    method EvictUntilRoomFor(needed: nat) returns (dropped: nat)
      requires Valid() && needed <= samples.Length
      modifies this`head, this`len, this`items
      ensures Valid() && len + needed <= samples.Length
      ensures dropped == Excess(old(len) + needed, samples.Length)
      ensures items == old(items)[dropped..]
    {
      dropped := 0;
      while len > 0 && len + needed > samples.Length
        invariant Valid() && dropped <= old(len) && len == old(len) - dropped
        invariant dropped == 0 || len + needed >= samples.Length
        invariant items == old(items)[dropped..]
        decreases len
      {
        DropHead();
        dropped := dropped + 1;
      }
    }

    method Push(sample: Sample, generation: nat)
      requires Valid() && len < samples.Length
      modifies this`len, this`items, samples, generations
      ensures Valid() && items == old(items) + [Tagged(sample, generation)]
    {
      Wrapped(head + len, samples.Length);
      var tail := (head + len) % samples.Length;
      samples[tail] := sample;
      generations[tail] := generation;
      len := len + 1;
      items := items + [Tagged(sample, generation)];
    }

    method FinishWrite(generation: nat, dropped: nat) returns (result: WriteResult)
      modifies this`lastDropGeneration
      ensures result == WriteResult(dropped, dropped > 0 && old(lastDropGeneration) != Some(generation))
      ensures lastDropGeneration == if dropped > 0 then Some(generation) else old(lastDropGeneration)
    {
      var firstDrop := dropped > 0 && lastDropGeneration != Some(generation);
      if dropped > 0 {
        lastDropGeneration := Some(generation);
      }
      result := WriteResult(dropped, firstDrop);
    }

    /** One round of the write loop: make room, then append. */
    method WriteOne(sample: Sample, generation: nat) returns (dropped: nat)
      requires Valid()
      modifies this`head, this`len, this`items, samples, generations
      ensures Valid() && dropped == Excess(old(len) + 1, samples.Length)
      ensures items == (old(items) + [Tagged(sample, generation)])[dropped..]
    {
      dropped := EvictUntilRoomFor(1);
      ghost var kept := items;
      Push(sample, generation);
      assert kept + [Tagged(sample, generation)] == (old(items) + [Tagged(sample, generation)])[dropped..];
    }

    /** The write loop: appends `input` sample by sample, counting what falls off. */
    method WriteAll(generation: nat, input: seq<Sample>) returns (dropped: nat)
      requires Valid()
      modifies this`head, this`len, this`items, samples, generations
      ensures Valid() && dropped == Excess(|old(items)| + |input|, samples.Length)
      ensures items == (old(items) + Tag(generation, input))[dropped..]
    {
      ghost var before := items;
      dropped := 0;
      var i := 0;
      while i < |input|
        invariant Valid() && i <= |input|
        invariant dropped == Excess(|before| + i, samples.Length) && len == |before| + i - dropped
        invariant items == (before + Tag(generation, input[..i]))[dropped..]
      {
        ghost var d := dropped;
        var more := WriteOne(input[i], generation);
        TagNext(before, generation, input, i, d, more);
        dropped := dropped + more;
        i := i + 1;
      }
      assert input[..i] == input;
    }

    /** Appends `input` tagged with `generation`, overwriting the oldest samples. */
    method Write(generation: nat, input: seq<Sample>) returns (result: WriteResult)
      requires Valid()
      modifies this, samples, generations
      ensures Valid()
      ensures Contents() == AfterWrite(old(Contents()), samples.Length, generation, input)
      ensures result == WriteReport(old(Contents()), samples.Length, generation, input)
    {
      if generation < newestGeneration {
        return WriteResult(0, false);
      }
      newestGeneration := generation;
      var dropped := WriteAll(generation, input);
      result := FinishWrite(generation, dropped);
    }

    /** Discards whatever generations older than `generation` left at the head. */
    method DiscardOlder(generation: nat)
      requires Valid()
      modifies this`head, this`len, this`items
      ensures Valid() && items == old(items)[OlderRun(old(items), generation)..]
    {
      ghost var before := items;
      ghost var k := 0;
      while len > 0 && generations[head] < generation
        invariant Valid() && k <= |before| && items == before[k..]
        invariant OlderRun(before, generation) == k + OlderRun(before[k..], generation)
        decreases len
      {
        assert items[0].gen == generations[head];
        assert before[k..][1..] == before[k + 1..];
        DropHead();
        k := k + 1;
      }
      assert len > 0 ==> items[0].gen == generations[head];
    }

    /** The `n`th oldest sample and its generation. */
    method Peek(n: nat) returns (tagged: Tagged)
      requires Valid() && n < len
      ensures tagged == items[n]
    {
      Wrapped(head + n, samples.Length);
      var index := (head + n) % samples.Length;
      assert index == Slot(n);
      tagged := Tagged(samples[index], generations[index]);
    }

    /** How many of the oldest samples belong to `generation`, at most `out.Length`; copied to `out`. */
    method CopyOwn(generation: nat, out: array<Sample>) returns (n: nat)
      requires Valid() && out != samples && out as object != generations
      modifies out
      ensures Valid() && n == OwnRun(items, generation, out.Length)
      ensures out[..] == Overwritten(old(out[..]), items, n)
    {
      n := 0;
      while n < out.Length && n < len
        invariant n <= out.Length && n <= len && Valid()
        invariant AllOf(items, n, generation)
        invariant forall i :: 0 <= i < n ==> out[i] == items[i].sample
        invariant forall i :: n <= i < out.Length ==> out[i] == old(out[i])
      {
        var tagged := Peek(n);
        if tagged.gen != generation {
          break;
        }
        out[n] := tagged.sample;
        n := n + 1;
      }
      OwnRunIs(items, generation, out.Length, n);
      OverwrittenIs(old(out[..]), items, n, out[..]);
    }

    /** Removes up to `out.Length` of the oldest samples of `generation` into `out`, after
        discarding whatever older generations left at the head. */
    method Read(generation: nat, out: array<Sample>) returns (n: nat)
      requires Valid() && out != samples && out as object != generations
      modifies this`head, this`len, this`items, out
      ensures Valid()
      ensures Contents() == AfterRead(old(Contents()), generation, out.Length)
      ensures n <= out.Length
      ensures out[..n] == Samples(ReadTakes(old(Contents()), generation, out.Length))
      ensures out[n..] == old(out[n..])
    {
      DiscardOlder(generation);
      n := CopyOwn(generation, out);
      OverwrittenParts(old(out[..]), items, n);
      Consume(n);
    }

    method Consume(n: nat)
      requires Valid() && n <= len
      modifies this`head, this`len, this`items
      ensures Valid() && items == old(items)[n..]
    {
      Wrapped(head + n, samples.Length);
      head := (head + n) % samples.Length;
      len := len - n;
      items := items[n..];
    }
  }
}
