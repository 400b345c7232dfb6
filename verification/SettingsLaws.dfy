/** What the microphone settings' texts and numbers mean: which values are read, which clocks
    are inside the window, which sets are accepted. */
module SettingsLaws {
  import opened Sequences
  import opened Limits
  import opened Strings
  import opened MicConfig

  // ---- reading values ----

  /** A number is read with white space around it and with a plus sign. */
  lemma NumbersAreRead(a: string, plus: bool, n: nat, b: string)
    requires IsBlank(a) && IsBlank(b) && n <= MAX_U32
    ensures ParseU32(a + ((if plus then "+" else "") + Format(n)) + b) == Some(n)
  {
    ParsePadded(a, plus, n, b);
  }

  /** Every way to write a switch, and no other, in lower case. */
  const ON_WORDS: set<string> := {"1", "true", "on", "yes"}
  const OFF_WORDS: set<string> := {"0", "false", "off", "no"}

  lemma WordsAreTrimmed(w: string)
    requires w in ON_WORDS || w in OFF_WORDS
    ensures IsTrimmed(w)
  {
  }

  /** The words for on and off are read with white space around them ... */
  lemma SwitchWordsAreRead(a: string, w: string, b: string)
    requires IsBlank(a) && IsBlank(b)
    ensures w in ON_WORDS ==> ParseBool(a + w + b) == Some(true)
    ensures w in OFF_WORDS ==> ParseBool(a + w + b) == Some(false)
  {
    if w in ON_WORDS || w in OFF_WORDS {
      WordsAreTrimmed(w);
      TrimOf(a, w, b);
    }
  }

  /** ... and nothing else is. */
  lemma OnlySwitchWordsAreRead(a: string, w: string, b: string)
    requires IsBlank(a) && IsTrimmed(w) && IsBlank(b)
    ensures ParseBool(a + w + b) == Some(true) <==> w in ON_WORDS
    ensures ParseBool(a + w + b) == Some(false) <==> w in OFF_WORDS
  {
    TrimOf(a, w, b);
  }

  // ---- the clock window ----

  lemma Doubled(product: nat)
    ensures 1_024_000 <= product * 2 <= 4_096_000 <==> 512_000 <= product <= 2_048_000
  {
  }

  /** A slot width and rate are legal exactly when the width is 8 to 32 bits and a channel takes
      between 512,000 and 2,048,000 bits a second, the bit clock being twice that. */
  lemma WindowInNumbers(bits: nat, rate: nat)
    ensures SettingsValid(bits, rate) <==> 8 <= bits <= 32 && 512_000 <= rate * bits <= 2_048_000
  {
    Doubled(rate * bits);
  }

  /** So with slots of 32 bits exactly the rates from 16 to 64 kHz. */
  lemma WindowAtDefaultWidth(rate: nat)
    ensures SettingsValid(DEFAULT_BITS, rate) <==> 16_000 <= rate <= 64_000
  {
  }

  // ---- what a store means ----

  /** Missing and unreadable values mean the defaults: 32 bits, 16 kHz, no flip. */
  lemma UnreadableMeansDefault(items: Items)
    requires forall k :: Owns(k) && k in items ==> ParseU32(items[k]).None? && ParseBool(items[k]).None?
    ensures Effective(items) == MicSettings(32, 16_000, false) && !ResolveItems(items).fellBack
  {
    WindowAtDefaultWidth(16_000);
    assert forall k :: Owns(k) && k in items ==> Lookup(items, k) == Some(items[k]);
  }

  /** Readable values inside the window are in effect as they are stored; a pair outside it is
      replaced by the default pair as a whole. */
  lemma ReadableIsInEffect(items: Items, bits: nat, rate: nat, edge: bool)
    requires Lookup(items, BitsKey).Some? && ParseU32(items[BitsKey]) == Some(bits)
    requires Lookup(items, RateKey).Some? && ParseU32(items[RateKey]) == Some(rate)
    requires Lookup(items, EdgeKey).Some? && ParseBool(items[EdgeKey]) == Some(edge)
    ensures Effective(items) ==
              if 8 <= bits <= 32 && 512_000 <= rate * bits <= 2_048_000 then MicSettings(bits, rate, edge)
              else MicSettings(32, 16_000, edge)
  {
    WindowInNumbers(bits, rate);
  }

  /** On a store that agrees with what is in effect, a set of the slot width or the rate is
      accepted exactly when it is a number that is legal with the other one in effect, and a set
      of the edge exactly when it is a switch word. */
  lemma AcceptedIff(items: Items, value: string)
    requires ResolveItems(items).raw == Effective(items)
    ensures var e, n := Effective(items), ParseU32(value);
            && (SetCheck(items, BitsKey, value).Accepted? <==>
                  n.Some? && 8 <= n.value <= 32 && 512_000 <= e.rate * n.value <= 2_048_000)
            && (SetCheck(items, RateKey, value).Accepted? <==>
                  n.Some? && 512_000 <= n.value * e.bits <= 2_048_000)
            && (SetCheck(items, EdgeKey, value).Accepted? <==> ParseBool(value).Some?)
  {
    ConsistentCheck(items, BitsKey, value);
    ConsistentCheck(items, RateKey, value);
    ConsistentCheck(items, EdgeKey, value);
    EffectiveIsInWindow(items);
    var e := Effective(items);
    WindowInNumbers(e.bits, e.rate);
    if ParseU32(value).Some? {
      WindowInNumbers(ParseU32(value).value, e.rate);
      WindowInNumbers(e.bits, ParseU32(value).value);
    }
  }
}
