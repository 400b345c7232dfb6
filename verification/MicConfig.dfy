/** The microphone settings (terminal-model/src/mic_config.rs), their store and its repair
    (`read_and_reconcile` in src/mic.rs). */
module MicConfig {
  import opened Sequences
  import opened Limits
  import opened Strings

  const DEFAULT_RATE_HZ: nat := 16_000
  const DEFAULT_BITS: nat := 32
  const DEFAULT_EDGE_FLIP := false

  /** Configuration keys: `ptt_bits`, `ptt_rate`, `ptt_edge`, and everyone else's. */
  datatype Key = BitsKey | RateKey | EdgeKey | OtherKey(name: string)

  const MIN_MIC_BCLK_HZ: nat := 1_024_000
  const MAX_MIC_BCLK_HZ: nat := 4_096_000
  const MIN_SLOT_BITS: nat := 8
  const MAX_SLOT_BITS: nat := 32

  /** Whether a slot width and sample rate clock the mic inside its documented window; a
      product too large for 32 bits is outside it. */
  predicate SettingsValid(bits: nat, rate: nat) {
    && rate != 0 && MIN_SLOT_BITS <= bits <= MAX_SLOT_BITS
    && rate * bits <= MAX_U32 && rate * bits * 2 <= MAX_U32
    && MIN_MIC_BCLK_HZ <= rate * bits * 2 <= MAX_MIC_BCLK_HZ
  }

  datatype MicSettings = MicSettings(bits: nat, rate: nat, edgeFlip: bool)

  datatype Resolved = Resolved(settings: MicSettings, raw: MicSettings, fellBack: bool)

  // ---- parsing and resolving ----

  function ParseU32(value: string): Option<nat> {
    ParseDigits(Trim(value))
  }

  function ParseBool(value: string): Option<bool> {
    var v := Trim(value);
    if v == "1" || v == "true" || v == "on" || v == "yes" then Some(true)
    else if v == "0" || v == "false" || v == "off" || v == "no" then Some(false)
    else None
  }

  predicate Owns(key: Key) {
    !key.OtherKey?
  }

  function NatOr(stored: Option<string>, default: nat): nat {
    match stored
    case None => default
    case Some(v) => (match ParseU32(v) case None => default case Some(n) => n)
  }

  function BoolOr(stored: Option<string>, default: bool): bool {
    match stored
    case None => default
    case Some(v) => (match ParseBool(v) case None => default case Some(b) => b)
  }

  function Resolve(bits: Option<string>, rate: Option<string>, edge: Option<string>): Resolved {
    var raw := MicSettings(NatOr(bits, DEFAULT_BITS), NatOr(rate, DEFAULT_RATE_HZ), BoolOr(edge, DEFAULT_EDGE_FLIP));
    if SettingsValid(raw.bits, raw.rate) then Resolved(raw, raw, false)
    else Resolved(raw.(bits := DEFAULT_BITS, rate := DEFAULT_RATE_HZ), raw, true)
  }

  function FormatBool(b: bool): string {
    if b then "1" else "0"
  }

  function EffectiveSetting(key: Key, settings: MicSettings): Option<string> {
    if key == BitsKey then Some(Format(settings.bits))
    else if key == RateKey then Some(Format(settings.rate))
    else if key == EdgeKey then Some(FormatBool(settings.edgeFlip))
    else None
  }

  // ---- reconciling ----

  datatype Fix = Fix(key: Key, value: string)

  datatype ClockPairFix = ClockPairFix(bits: string, rate: string)

  datatype Repairs = Repairs(resolved: Resolved, fixes: seq<Fix>, pair: Option<ClockPairFix>)

  /** A stored number the next recording will not use. */
  predicate NatStale(stored: Option<string>, effective: nat) {
    stored.Some? && ParseU32(stored.value) != Some(effective)
  }

  predicate BoolStale(stored: Option<string>, effective: bool) {
    stored.Some? && ParseBool(stored.value) != Some(effective)
  }

  /** The single-key fixes for the stale keys; a stale clock pair is not among them. */
  function FixList(bits: bool, rate: bool, edge: bool, e: MicSettings): seq<Fix> {
    (if bits && !rate then [Fix(BitsKey, Format(e.bits))] else []) +
    (if rate && !bits then [Fix(RateKey, Format(e.rate))] else []) +
    (if edge then [Fix(EdgeKey, FormatBool(e.edgeFlip))] else [])
  }

  /** The repairs a store needs; both clock keys are one repair when both are stale. */
  function Reconcile(bits: Option<string>, rate: Option<string>, edge: Option<string>): Repairs {
    var resolved := Resolve(bits, rate, edge);
    var e := resolved.settings;
    var bitsStale, rateStale := NatStale(bits, e.bits), NatStale(rate, e.rate);
    Repairs(
      resolved,
      FixList(bitsStale, rateStale, BoolStale(edge, e.edgeFlip), e),
      if bitsStale && rateStale then Some(ClockPairFix(Format(e.bits), Format(e.rate))) else None)
  }

  // ---- validating ----

  datatype Refusal = NotANumber | NotABool | BadClock(bits: nat, rate: nat) | WouldReactivate

  datatype Check = Accepted | Refused(why: Refusal)

  function ValidateSetting(current: MicSettings, key: Key, value: string): Check {
    if key == BitsKey then
      match ParseU32(value)
      case None => Refused(NotANumber)
      case Some(bits) => ClockCheck(bits, current.rate)
    else if key == RateKey then
      match ParseU32(value)
      case None => Refused(NotANumber)
      case Some(rate) => ClockCheck(current.bits, rate)
    else if key == EdgeKey then
      match ParseBool(value)
      case None => Refused(NotABool)
      case Some(_) => ClockCheck(current.bits, current.rate)
    else Accepted
  }

  function ClockCheck(bits: nat, rate: nat): Check {
    if SettingsValid(bits, rate) then Accepted else Refused(BadClock(bits, rate))
  }

  /** Whether storing `value` would change the effective value of the other clock key. */
  predicate ChangesOtherClockKey(store: MicSettings, effective: MicSettings, key: Key, value: string) {
    if key == BitsKey && ParseU32(value).Some? then
      var rate := if SettingsValid(ParseU32(value).value, store.rate) then store.rate else DEFAULT_RATE_HZ;
      rate != effective.rate
    else if key == RateKey && ParseU32(value).Some? then
      var bits := if SettingsValid(store.bits, ParseU32(value).value) then store.bits else DEFAULT_BITS;
      bits != effective.bits
    else false
  }

  function ValidateWithStore(store: MicSettings, effective: MicSettings, key: Key, value: string): Check {
    match ValidateSetting(effective, key, value)
    case Refused(why) => Refused(why)
    case Accepted => if ChangesOtherClockKey(store, effective, key, value) then Refused(WouldReactivate) else Accepted
  }

  // ---- what a store means ----

  type Items = map<Key, string>

  function Lookup(items: Items, key: Key): Option<string> {
    if key in items then Some(items[key]) else None
  }

  function ResolveItems(items: Items): Resolved {
    Resolve(Lookup(items, BitsKey), Lookup(items, RateKey), Lookup(items, EdgeKey))
  }

  /** The settings the next recording uses. */
  function Effective(items: Items): MicSettings {
    ResolveItems(items).settings
  }

  function RepairsOf(items: Items): Repairs {
    Reconcile(Lookup(items, BitsKey), Lookup(items, RateKey), Lookup(items, EdgeKey))
  }

  /** The stored value of `key` is not the one in effect. */
  predicate Stale(items: Items, key: Key) {
    var e := Effective(items);
    if key == BitsKey then NatStale(Lookup(items, key), e.bits)
    else if key == RateKey then NatStale(Lookup(items, key), e.rate)
    else key == EdgeKey && BoolStale(Lookup(items, key), e.edgeFlip)
  }

  lemma ClockBounds(bits: nat, rate: nat)
    requires SettingsValid(bits, rate)
    ensures rate <= MAX_U32
  {
    assert rate * bits >= rate * 1;
  }

  /** Whatever is stored, the settings in effect clock the mic inside its window. */
  lemma EffectiveIsInWindow(items: Items)
    ensures var e := Effective(items);
            && SettingsValid(e.bits, e.rate)
            && e.bits <= MAX_U32 && e.rate <= MAX_U32
  {
    ClockBounds(Effective(items).bits, Effective(items).rate);
  }

  /** A slot narrower or wider than 32 bits never clocks legally at 16 kHz. */
  lemma OnlyDefaultAtDefaultRate(bits: nat)
    ensures SettingsValid(bits, DEFAULT_RATE_HZ) <==> bits == DEFAULT_BITS
  {
  }

  // ---- every repair write keeps the settings in effect ----

  /** Both clock keys of `items` are stale, and `pair` is their repair. */
  predicate PairIsStale(items: Items, e: MicSettings, pair: ClockPairFix) {
    && Stale(items, BitsKey) && Stale(items, RateKey) && e == Effective(items)
    && pair == ClockPairFix(Format(e.bits), Format(e.rate))
  }

  /** Only a rejected clock leaves both its keys stale, so the default is in effect. */
  lemma StalePairIsDefault(items: Items)
    requires Stale(items, BitsKey) && Stale(items, RateKey)
    ensures RateKey in items && BitsKey in items
    ensures Effective(items).bits == DEFAULT_BITS && Effective(items).rate == DEFAULT_RATE_HZ
  {
  }

  /** Storing the default rate while the default is in effect. */
  lemma DefaultRateStays(items: Items, value: string)
    requires ParseU32(value) == Some(DEFAULT_RATE_HZ)
    requires Effective(items).bits == DEFAULT_BITS && Effective(items).rate == DEFAULT_RATE_HZ
    ensures Effective(items[RateKey := value]) == Effective(items)
    ensures Stale(items[RateKey := value], EdgeKey) == Stale(items, EdgeKey)
  {
    OnlyDefaultAtDefaultRate(ResolveItems(items).raw.bits);
  }

  /** Storing the default width as well. */
  lemma DefaultBitsStay(items: Items, value: string)
    requires ParseU32(value) == Some(DEFAULT_BITS)
    requires Lookup(items, RateKey).Some? && ParseU32(items[RateKey]) == Some(DEFAULT_RATE_HZ)
    ensures var items' := items[BitsKey := value];
            && Effective(items') == MicSettings(DEFAULT_BITS, DEFAULT_RATE_HZ, Effective(items).edgeFlip)
            && !Stale(items', BitsKey) && !Stale(items', RateKey)
            && Stale(items', EdgeKey) == Stale(items, EdgeKey)
  {
    OnlyDefaultAtDefaultRate(DEFAULT_BITS);
  }

  lemma PairReadsBack(items: Items, e: MicSettings, pair: ClockPairFix)
    requires PairIsStale(items, e, pair)
    ensures ParseU32(pair.bits) == Some(DEFAULT_BITS) && ParseU32(pair.rate) == Some(DEFAULT_RATE_HZ)
    ensures e.bits == DEFAULT_BITS && e.rate == DEFAULT_RATE_HZ
  {
    StalePairIsDefault(items);
    ParseFormat(e.bits);
    ParseFormat(e.rate);
  }

  /** A stale clock pair is in effect as the default, and so it stays whichever of its two
      writes have landed. */
  lemma PairWritesKeepEffect(items: Items, e: MicSettings, pair: ClockPairFix)
    requires PairIsStale(items, e, pair)
    ensures RateKey in items && Effective(items) == e
    ensures e.bits == DEFAULT_BITS && e.rate == DEFAULT_RATE_HZ
    ensures Effective(items[RateKey := pair.rate]) == e
    ensures Effective(items[RateKey := pair.rate][BitsKey := pair.bits]) == e
  {
    StalePairIsDefault(items);
    PairReadsBack(items, e, pair);
    DefaultRateStays(items, pair.rate);
    DefaultBitsStay(items[RateKey := pair.rate], pair.bits);
  }

  lemma BitsWriteKeepsEffect(items: Items)
    requires Stale(items, BitsKey) && !Stale(items, RateKey)
    ensures var items' := items[BitsKey := Format(Effective(items).bits)];
            && Effective(items') == Effective(items) && !Stale(items', BitsKey)
            && (forall k :: k != BitsKey ==> Stale(items', k) == Stale(items, k))
  {
    EffectiveIsInWindow(items);
    ParseFormat(Effective(items).bits);
  }

  lemma RateWriteKeepsEffect(items: Items)
    requires Stale(items, RateKey) && !Stale(items, BitsKey)
    ensures var items' := items[RateKey := Format(Effective(items).rate)];
            && Effective(items') == Effective(items) && !Stale(items', RateKey)
            && (forall k :: k != RateKey ==> Stale(items', k) == Stale(items, k))
  {
    EffectiveIsInWindow(items);
    ParseFormat(Effective(items).rate);
  }

  lemma EdgeWriteKeepsEffect(items: Items)
    ensures var items' := items[EdgeKey := FormatBool(Effective(items).edgeFlip)];
            && Effective(items') == Effective(items) && !Stale(items', EdgeKey)
            && (forall k :: k != EdgeKey ==> Stale(items', k) == Stale(items, k))
  {
    BoolRoundTrip(Effective(items).edgeFlip);
  }

  /** Rewriting one stale key on its own with the value in effect keeps every setting. */
  lemma SingleWriteKeepsEffect(items: Items, key: Key)
    requires Stale(items, key) && (key != EdgeKey ==> !(Stale(items, BitsKey) && Stale(items, RateKey)))
    ensures EffectiveSetting(key, Effective(items)).Some?
    ensures var items' := items[key := EffectiveSetting(key, Effective(items)).value];
            && Effective(items') == Effective(items) && !Stale(items', key)
            && (forall k :: k != key ==> Stale(items', k) == Stale(items, k))
  {
    if key == BitsKey {
      BitsWriteKeepsEffect(items);
    } else if key == RateKey {
      RateWriteKeepsEffect(items);
    } else {
      EdgeWriteKeepsEffect(items);
    }
  }

  /** With both its writes landed, a repaired pair is what is in effect. */
  lemma WrittenPairIsFresh(items: Items, e: MicSettings, pair: ClockPairFix)
    requires PairIsStale(items, e, pair)
    ensures var items' := items[RateKey := pair.rate][BitsKey := pair.bits];
            && !Stale(items', BitsKey) && !Stale(items', RateKey)
            && Stale(items', EdgeKey) == Stale(items, EdgeKey)
  {
    PairReadsBack(items, e, pair);
    StalePairIsDefault(items);
    DefaultRateStays(items, pair.rate);
    DefaultBitsStay(items[RateKey := pair.rate], pair.bits);
  }

  lemma BoolRoundTrip(b: bool)
    ensures ParseBool(FormatBool(b)) == Some(b)
  {
    assert Trim("1") == "1" && Trim("0") == "0";
  }

  // ---- a whole repair ----

  /** The keys of other modules are as they were. */
  ghost predicate OthersKept(before: Items, after: Items) {
    forall k :: !Owns(k) ==> Lookup(after, k) == Lookup(before, k)
  }

  /** The fixes left to apply: each for a stale key, with the value in effect. */
  ghost predicate Pending(items: Items, fixes: seq<Fix>, e: MicSettings) {
    && Effective(items) == e
    && (forall j :: 0 <= j < |fixes| ==>
          && Stale(items, fixes[j].key) && EffectiveSetting(fixes[j].key, e) == Some(fixes[j].value)
          && (fixes[j].key != EdgeKey ==> !(Stale(items, BitsKey) && Stale(items, RateKey))))
    && (forall i, j :: 0 <= i < j < |fixes| ==> fixes[i].key != fixes[j].key)
  }

  /** Every stale key has its fix among `fixes`. */
  ghost predicate Covers(items: Items, fixes: seq<Fix>) {
    forall k :: Stale(items, k) ==> HasFix(fixes, k)
  }

  /** Fixing the first key leaves the others to fix. */
  lemma CoversNext(items: Items, items': Items, fixes: seq<Fix>)
    requires fixes != [] && Covers(items, fixes) && !Stale(items', fixes[0].key)
    requires forall k :: k != fixes[0].key ==> Stale(items', k) == Stale(items, k)
    ensures Covers(items', fixes[1..])
  {
    forall k | Stale(items', k)
      ensures HasFix(fixes[1..], k)
    {
      assert Stale(items, k) && HasFix(fixes, k);
      var j :| 0 <= j < |fixes| && fixes[j].key == k;
      assert fixes[1..][j - 1].key == k;
    }
  }

  lemma PendingNext(items: Items, fixes: seq<Fix>, e: MicSettings)
    requires Pending(items, fixes, e) && fixes != []
    ensures Pending(items, fixes[1..], e)
    ensures var items' := items[fixes[0].key := fixes[0].value];
            && Pending(items', fixes[1..], e) && (Covers(items, fixes) ==> Covers(items', fixes[1..]))
  {
    var items' := items[fixes[0].key := fixes[0].value];
    SingleWriteKeepsEffect(items, fixes[0].key);
    if Covers(items, fixes) {
      CoversNext(items, items', fixes);
    }
  }

  /** Whether `key` is one of the flagged keys. */
  predicate Flagged(key: Key, bits: bool, rate: bool, edge: bool) {
    match key
    case BitsKey => bits
    case RateKey => rate
    case EdgeKey => edge
    case OtherKey(_) => false
  }

  predicate HasFix(fixes: seq<Fix>, key: Key) {
    exists j :: 0 <= j < |fixes| && fixes[j].key == key
  }

  /** The single-key fixes are exactly those of the flagged keys, once each, with the values
      in effect. */
  lemma FixListExact(bits: bool, rate: bool, edge: bool, e: MicSettings)
    requires !(bits && rate)
    ensures var fixes := FixList(bits, rate, edge, e);
            && (forall j :: 0 <= j < |fixes| ==>
                  Flagged(fixes[j].key, bits, rate, edge) && EffectiveSetting(fixes[j].key, e) == Some(fixes[j].value))
            && (forall i, j :: 0 <= i < j < |fixes| ==> fixes[i].key != fixes[j].key)
            && (forall k :: Flagged(k, bits, rate, edge) ==> HasFix(fixes, k))
  {
    var fixes := FixList(bits, rate, edge, e);
    if bits || rate {
      assert fixes[0].key == if bits then BitsKey else RateKey;
    }
    if edge {
      assert fixes[|fixes| - 1].key == EdgeKey;
    }
  }

  lemma RepairsAre(items: Items)
    ensures var r, e := RepairsOf(items), Effective(items);
            && r.resolved == ResolveItems(items)
            && r.fixes == FixList(Stale(items, BitsKey), Stale(items, RateKey), Stale(items, EdgeKey), e)
            && r.pair == (if Stale(items, BitsKey) && Stale(items, RateKey)
                          then Some(ClockPairFix(Format(e.bits), Format(e.rate))) else None)
    ensures forall k :: Stale(items, k) ==
              Flagged(k, Stale(items, BitsKey), Stale(items, RateKey), Stale(items, EdgeKey))
  {
  }

  lemma PairRepairs(items: Items)
    requires RepairsOf(items).pair.Some?
    ensures var r, e := RepairsOf(items), Effective(items);
            && PairIsStale(items, e, r.pair.value)
            && r.fixes == (if Stale(items, EdgeKey) then [Fix(EdgeKey, FormatBool(e.edgeFlip))] else [])
  {
    RepairsAre(items);
  }

  lemma SingleRepairsPending(items: Items)
    requires RepairsOf(items).pair.None?
    ensures Pending(items, RepairsOf(items).fixes, Effective(items))
    ensures Covers(items, RepairsOf(items).fixes)
  {
    RepairsAre(items);
    FixListExact(Stale(items, BitsKey), Stale(items, RateKey), Stale(items, EdgeKey), Effective(items));
  }

  /** Once the pair is dealt with, only a stale edge is left to fix. */
  lemma EdgePending(items: Items, e: MicSettings, fixes: seq<Fix>)
    requires Effective(items) == e
    requires fixes == if Stale(items, EdgeKey) then [Fix(EdgeKey, FormatBool(e.edgeFlip))] else []
    ensures Pending(items, fixes, e)
    ensures !Stale(items, BitsKey) && !Stale(items, RateKey) ==> Covers(items, fixes)
  {
    assert Stale(items, EdgeKey) ==> fixes[0].key == EdgeKey;
  }

  /** A store with nothing stale resolves to itself and needs no repair. */
  lemma NothingStaleIsConsistent(items: Items)
    requires forall k :: !Stale(items, k)
    ensures ResolveItems(items).raw == Effective(items) && !ResolveItems(items).fellBack
    ensures RepairsOf(items).fixes == [] && RepairsOf(items).pair == None
  {
    assert !Stale(items, BitsKey) && !Stale(items, RateKey) && !Stale(items, EdgeKey);
  }

  lemma CoversNone(items: Items)
    requires Covers(items, [])
    ensures forall k :: !Stale(items, k)
  {
  }

  /** The keys a repair attempt left unreconciled, as the console flags them. */
  function Unreconciled(fixes: seq<Fix>, pair: bool): seq<Key> {
    if fixes == [] then (if pair then [BitsKey, RateKey] else [])
    else [fixes[0].key] + Unreconciled(fixes[1..], pair)
  }

  lemma {:induction false} UnreconciledHas(fixes: seq<Fix>, pair: bool, k: Key)
    ensures k in Unreconciled(fixes, pair) <==> HasFix(fixes, k) || (pair && (k == BitsKey || k == RateKey))
  {
    if fixes != [] {
      var rest := fixes[1..];
      UnreconciledHas(rest, pair, k);
      if HasFix(rest, k) {
        var j :| 0 <= j < |rest| && rest[j].key == k;
        assert fixes[j + 1].key == k;
      }
      if HasFix(fixes, k) && fixes[0].key != k {
        var j :| 0 <= j < |fixes| && fixes[j].key == k;
        assert rest[j - 1].key == k;
      }
    }
  }

  /** The list flags exactly the keys whose stored value is not the one in effect. */
  lemma UnreconciledIsStale(items: Items, k: Key)
    ensures k in Unreconciled(RepairsOf(items).fixes, RepairsOf(items).pair.Some?) <==> Stale(items, k)
  {
    var b, r, e := Stale(items, BitsKey), Stale(items, RateKey), Stale(items, EdgeKey);
    RepairsAre(items);
    UnreconciledHas(RepairsOf(items).fixes, b && r, k);
    FlaggedHasFix(b, r, e, Effective(items), k);
  }

  lemma FlaggedHasFix(b: bool, r: bool, e: bool, s: MicSettings, k: Key)
    ensures Flagged(k, b, r, e) <==> HasFix(FixList(b, r, e, s), k) || (b && r && (k == BitsKey || k == RateKey))
  {
    FixListExact(b && !r, r && !b, e, s);
    assert FixList(b && !r, r && !b, e, s) == FixList(b, r, e, s);
  }

  // ---- the store and its repair ----

  datatype Outcome = Outcome(stored: MicSettings, resolved: Resolved, unreconciled: seq<Key>)

  /** The persisted settings. `writeOk` says which writes land; one that does not leaves the
      stored value. `disturbed` tells whether any write ever changed the settings in effect. */
  class ConfigStore {
    var items: Items
    var writes: nat
    const writeOk: nat -> bool
    ghost var disturbed: bool

    constructor (items: Items, writeOk: nat -> bool)
      ensures this.items == items && this.writeOk == writeOk && writes == 0 && !disturbed
    {
      this.items, this.writeOk, writes, disturbed := items, writeOk, 0, false;
    }

    ghost predicate AllLanded(from: nat)
      reads this
    {
      forall w :: from <= w < writes ==> writeOk(w)
    }

    method Store(key: Key, value: string) returns (ok: bool)
      modifies this
      ensures ok == writeOk(old(writes)) && writes == old(writes) + 1
      ensures items == if ok then old(items)[key := value] else old(items)
      ensures disturbed == (old(disturbed) || Effective(items) != Effective(old(items)))
    {
      ghost var before := items;
      ok := writeOk(writes);
      writes := writes + 1;
      if ok {
        items := items[key := value];
      }
      disturbed := disturbed || Effective(items) != Effective(before);
    }

    /** A write that would leave the settings in effect as `e` leaves them so, landed or not. */
    method StoreKeeping(key: Key, value: string, ghost e: MicSettings) returns (ok: bool)
      requires Effective(items) == e && Effective(items[key := value]) == e
      modifies this
      ensures ok == writeOk(old(writes)) && writes == old(writes) + 1
      ensures items == if ok then old(items)[key := value] else old(items)
      ensures Effective(items) == e && disturbed == old(disturbed)
    {
      ok := Store(key, value);
    }

    /** The second write of a stale clock pair; when it fails the rate is put back. */
    method FinishPair(pair: ClockPairFix, original: string, ghost before: Items, ghost e: MicSettings)
      requires items == before[RateKey := pair.rate] && Effective(before) == Effective(items) == e
      requires Effective(items[BitsKey := pair.bits]) == e && Lookup(before, RateKey) == Some(original)
      modifies this
      ensures Effective(items) == e && disturbed == old(disturbed) && writes > old(writes)
      ensures items == before[RateKey := pair.rate][BitsKey := pair.bits] ||
              items == before[RateKey := pair.rate] || items == before
      ensures AllLanded(old(writes)) ==> items == before[RateKey := pair.rate][BitsKey := pair.bits]
    {
      var ok := StoreKeeping(BitsKey, pair.bits, e);
      if !ok {
        assert items[RateKey := original] == before;
        var _ := StoreKeeping(RateKey, original, e);
      }
    }

    /** Rewrites a stale clock pair, rate first; a failed second write puts the rate back. */
    method RepairPair(pair: ClockPairFix, ghost before: Items, ghost e: MicSettings)
      requires items == before && PairIsStale(before, e, pair)
      modifies this
      ensures Effective(items) == e && disturbed == old(disturbed) && writes > old(writes)
      ensures OthersKept(before, items) && Lookup(items, EdgeKey) == Lookup(before, EdgeKey)
      ensures AllLanded(old(writes)) ==> items == before[RateKey := pair.rate][BitsKey := pair.bits]
    {
      PairWritesKeepEffect(before, e, pair);
      var original := items[RateKey];
      var ok := StoreKeeping(RateKey, pair.rate, e);
      if ok {
        FinishPair(pair, original, before, e);
      }
    }

    /** Applies the first of the pending fixes; a failed one is left for the report. */
    method ApplyFix(fixes: seq<Fix>, ghost e: MicSettings)
      requires fixes != [] && Pending(items, fixes, e)
      modifies this
      ensures Pending(items, fixes[1..], e) && disturbed == old(disturbed) && writes == old(writes) + 1
      ensures Covers(old(items), fixes) && writeOk(old(writes)) ==> Covers(items, fixes[1..])
      ensures OthersKept(old(items), items)
    {
      PendingNext(items, fixes, e);
      var _ := StoreKeeping(fixes[0].key, fixes[0].value, e);
    }

    /** Applies single-key fixes one by one. */
    method ApplyFixes(fixes: seq<Fix>, ghost e: MicSettings)
      requires Pending(items, fixes, e)
      modifies this
      ensures Effective(items) == e && disturbed == old(disturbed) && writes >= old(writes)
      ensures Covers(old(items), fixes) && AllLanded(old(writes)) ==> Covers(items, [])
      ensures OthersKept(old(items), items)
    {
      ghost var before, start := items, writes;
      var rest := fixes;
      while rest != []
        invariant Pending(items, rest, e) && disturbed == old(disturbed) && writes >= start
        invariant Covers(before, fixes) && AllLanded(start) ==> Covers(items, rest)
        invariant OthersKept(before, items)
      {
        ApplyFix(rest, e);
        rest := rest[1..];
      }
    }

    /** Reads, reconciles and re-reads the settings. Whatever is stored and whichever writes
        fail - a rollback included - no write changes the settings in effect; when all land
        the store agrees with them; and the report names exactly the keys that do not. */
    method ReadAndReconcile() returns (outcome: Outcome)
      modifies this
      ensures Effective(items) == Effective(old(items)) && disturbed == old(disturbed)
      ensures writes >= old(writes)
      ensures AllLanded(old(writes)) ==>
                && (forall k :: !Stale(items, k)) && ResolveItems(items).raw == Effective(items)
                && RepairsOf(items).fixes == [] && RepairsOf(items).pair == None
      ensures OthersKept(old(items), items)
      ensures outcome.resolved == ResolveItems(items) && outcome.stored == outcome.resolved.raw
      ensures forall k :: k in outcome.unreconciled <==> Stale(items, k)
    {
      ghost var before, e, start := items, Effective(items), writes;
      var repairs := RepairsOf(items);
      if repairs.pair.None? {
        SingleRepairsPending(items);
      } else {
        PairRepairs(items);
        RepairPair(repairs.pair.value, before, e);
        PairWritesKeepEffect(before, e, repairs.pair.value);
        WrittenPairIsFresh(before, e, repairs.pair.value);
        EdgePending(items, e, repairs.fixes);
      }
      ApplyFixes(repairs.fixes, e);
      if AllLanded(start) {
        CoversNone(items);
        NothingStaleIsConsistent(items);
      }
      forall k ensures k in Unreconciled(RepairsOf(items).fixes, RepairsOf(items).pair.Some?) <==> Stale(items, k) {
        UnreconciledIsStale(items, k);
      }
      repairs := RepairsOf(items);
      outcome := Outcome(repairs.resolved.raw, repairs.resolved, Unreconciled(repairs.fixes, repairs.pair.Some?));
    }

    /** `config set`: repairs, checks the value against the stored and the effective settings,
        and stores it. */
    method ConfigSet(key: Key, value: string) returns (check: Check, stored: bool)
      modifies this
      ensures check.Refused? ==> !stored && Effective(items) == Effective(old(items))
      ensures key.OtherKey? ==> Effective(items) == Effective(old(items))
      ensures var e, e' := Effective(old(items)), Effective(items);
              && (key != BitsKey ==> e'.bits == e.bits)
              && (key != RateKey ==> e'.rate == e.rate)
              && (key != EdgeKey ==> e'.edgeFlip == e.edgeFlip)
      ensures if stored then Lookup(items, key) == Some(value) else Effective(items) == Effective(old(items))
      ensures check.Accepted? ==> ValidateSetting(Effective(old(items)), key, value).Accepted?
      ensures AllLanded(old(writes)) ==> check == ValidateSetting(Effective(old(items)), key, value)
      ensures AllLanded(old(writes)) && check.Accepted? ==>
                stored && Effective(items) == Requested(Effective(old(items)), key, value)
    {
      var outcome := ReadAndReconcile();
      check := ValidateWithStore(outcome.stored, outcome.resolved.settings, key, value);
      stored := false;
      if ResolveItems(items).raw == Effective(items) {
        ConsistentCheck(items, key, value);
      }
      if check.Accepted? {
        AcceptedSetKeepsOthers(items, key, value);
        if ResolveItems(items).raw == Effective(items) {
          SetOnConsistentStoreTakesEffect(items, key, value);
        }
        stored := Store(key, value);
      }
    }
  }

  // ---- what an accepted set does ----

  /** The check `config set` makes, on the store it makes it on. */
  function SetCheck(items: Items, key: Key, value: string): Check {
    ValidateWithStore(ResolveItems(items).raw, Effective(items), key, value)
  }

  /** An accepted set never changes the other clock setting or the edge (or, for the edge,
      the clock), however unreconciled the store is. */
  lemma AcceptedSetKeepsOthers(items: Items, key: Key, value: string)
    requires SetCheck(items, key, value).Accepted?
    ensures var e, e' := Effective(items), Effective(items[key := value]);
            && (key != BitsKey ==> e'.bits == e.bits)
            && (key != RateKey ==> e'.rate == e.rate)
            && (key != EdgeKey ==> e'.edgeFlip == e.edgeFlip)
  {
    match key
    case BitsKey => assert ParseU32(value).Some?;
    case RateKey => assert ParseU32(value).Some?;
    case _ =>
  }

  /** What a set would make effective, when it takes effect. */
  function Requested(e: MicSettings, key: Key, value: string): MicSettings
    requires ValidateSetting(e, key, value).Accepted?
  {
    match key
    case BitsKey => e.(bits := ParseU32(value).value)
    case RateKey => e.(rate := ParseU32(value).value)
    case EdgeKey => e.(edgeFlip := ParseBool(value).value)
    case OtherKey(_) => e
  }

  /** An accepted set takes effect exactly when the clock pair it stores is inside the window
      - the other clock value being the stored one, not the effective one - or asks for the
      default that is in effect anyway. */
  lemma SetTakesEffectIff(items: Items, key: Key, value: string)
    requires SetCheck(items, key, value).Accepted?
    ensures var raw, e := ResolveItems(items).raw, Effective(items);
            Effective(items[key := value]) == Requested(e, key, value) <==>
              match key
              case BitsKey => SettingsValid(ParseU32(value).value, raw.rate) || ParseU32(value).value == DEFAULT_BITS
              case RateKey => SettingsValid(raw.bits, ParseU32(value).value) || ParseU32(value).value == DEFAULT_RATE_HZ
              case EdgeKey => true
              case OtherKey(_) => true
  {
    AcceptedSetKeepsOthers(items, key, value);
  }

  /** On a store that agrees with the settings in effect the guard refuses nothing more. */
  lemma ConsistentCheck(items: Items, key: Key, value: string)
    requires ResolveItems(items).raw == Effective(items)
    ensures SetCheck(items, key, value) == ValidateSetting(Effective(items), key, value)
  {
  }

  /** On a store that agrees with the settings in effect, an accepted set makes exactly the
      given value effective. */
  lemma SetOnConsistentStoreTakesEffect(items: Items, key: Key, value: string)
    requires ResolveItems(items).raw == Effective(items) && SetCheck(items, key, value).Accepted?
    ensures Effective(items[key := value]) == Requested(Effective(items), key, value)
  {
    SetTakesEffectIff(items, key, value);
  }

  /** Setting the rate to its reported value is always accepted, so an unreconciled clock can
      be repaired from the console. */
  lemma RateRepairIsAccepted(items: Items)
    ensures SetCheck(items, RateKey, Format(Effective(items).rate)).Accepted?
  {
    EffectiveIsInWindow(items);
    ParseFormat(Effective(items).rate);
    OnlyDefaultAtDefaultRate(ResolveItems(items).raw.bits);
  }

  /** Setting the slot width to its reported value is not: it is refused exactly when the
      stored rate differs from the one in effect but is legal at that width. */
  lemma BitsRepairIsAcceptedIff(items: Items)
    ensures var raw, e := ResolveItems(items).raw, Effective(items);
            SetCheck(items, BitsKey, Format(e.bits)).Accepted? <==>
              raw.rate == e.rate || !SettingsValid(e.bits, raw.rate)
  {
    EffectiveIsInWindow(items);
    ParseFormat(Effective(items).bits);
  }

  lemma WidthRefused(items: Items, bits: nat, rate: nat)
    requires bits == 64 && rate == 32_000
    requires Lookup(items, BitsKey) == Some(Format(bits)) && Lookup(items, RateKey) == Some(Format(rate))
    ensures Effective(items).bits == DEFAULT_BITS
    ensures SetCheck(items, BitsKey, Format(Effective(items).bits)) == Refused(WouldReactivate)
  {
    ParseFormat(bits);
    ParseFormat(rate);
    ParseFormat(Effective(items).bits);
  }

  /** A store where it is refused: 64-bit slots at a rate of 32 kHz. */
  lemma BitsRepairCanBeRefused(items: Items)
    requires Lookup(items, BitsKey) == Some(Format(64)) && Lookup(items, RateKey) == Some(Format(32_000))
    ensures Effective(items).bits == DEFAULT_BITS
    ensures SetCheck(items, BitsKey, Format(Effective(items).bits)) == Refused(WouldReactivate)
  {
    WidthRefused(items, 64, 32_000);
  }
}
