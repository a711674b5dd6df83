/** `_hash`, the key every `switch` of the configuration code dispatches on: the XOR of the
    bytes of a C string, byte i shifted left by i % 8. Case labels are `_hash` of the
    recognised names, so a key is accepted when its hash equals a label's hash. */
module Dispatch {
  import opened Wrappers
  import opened Text

  /** A `char` promoted to `int`: sign extension (char is signed on the usual targets). */
  function Widen(c: byte): bv32 {
    if c < 0x80 then c as bv32 else (c as bv32) | 0xFFFF_FF00
  }

  /** x << (i % 8) on a 32-bit int (two's complement, as C++20 defines it). */
  function Shift(x: bv32, i: nat): bv32 {
    match i % 8
    case 0 => x
    case 1 => x << 1
    case 2 => x << 2
    case 3 => x << 3
    case 4 => x << 4
    case 5 => x << 5
    case 6 => x << 6
    case _ => x << 7
  }

  /** The XOR of the shifted bytes of s from position i up to the first NUL byte (the end of
      the C string `c_str()` gives) or the end of s. */
  function HashFrom(s: Bytes, i: nat): bv32
    requires i <= |s|
    decreases |s| - i
  {
    if i == |s| || s[i] == 0 then 0 else Shift(Widen(s[i]), i) ^ HashFrom(s, i + 1)
  }

  /** `_hash(value)`; None is the NULL pointer. */
  function HashOf(value: Option<Bytes>): bv32 {
    match value
    case None => 0
    case Some(s) => HashFrom(s, 0)
  }

  /** `switch (_hash(key)) { case c: ... }` enters case c. */
  predicate Selects(key: Bytes, c: bv32) {
    HashOf(Some(key)) == c
  }

  /** `_hash` as the source computes it: one pass over the C string. */
  method Hash(value: Option<Bytes>) returns (h: bv32)
    ensures h == HashOf(value)
    ensures value == None || value == Some([]) ==> h == 0
  {
    if value == None {
      return 0;
    }
    var s := value.value;
    var cstr := s + [0];
    h := 0;
    var i := 0;
    while cstr[i] != 0
      invariant 0 <= i <= |s|
      invariant forall k :: 0 <= k < i ==> s[k] != 0
      invariant h ^ HashFrom(s, i) == HashFrom(s, 0)
      decreases |s| - i
    {
      h := h ^ Shift(Widen(cstr[i]), i);
      i := i + 1;
    }
  }

  // The names the switches of the configuration code recognise.
  const KRAKEN: Bytes := [0x6B, 0x72, 0x61, 0x6B, 0x65, 0x6E]        // "kraken"
  const SHAPESHIFT: Bytes :=                                           // "shapeshift"
    [0x73, 0x68, 0x61, 0x70, 0x65, 0x73, 0x68, 0x69, 0x66, 0x74]
  const HODL: Bytes := [0x48, 0x4F, 0x44, 0x4C]                        // "HODL"
  const BUYLOWANDHODL: Bytes :=                                        // "BUYLOWANDHODL"
    [0x42, 0x55, 0x59, 0x4C, 0x4F, 0x57, 0x41, 0x4E, 0x44, 0x48, 0x4F, 0x44, 0x4C]
  const DOLLARCOSTAVERAGING: Bytes :=                                  // "DOLLARCOSTAVERAGING"
    [0x44, 0x4F, 0x4C, 0x4C, 0x41, 0x52, 0x43, 0x4F, 0x53, 0x54,
     0x41, 0x56, 0x45, 0x52, 0x41, 0x47, 0x49, 0x4E, 0x47]
  const SMALLCHANGES: Bytes :=                                         // "SMALLCHANGES"
    [0x53, 0x4D, 0x41, 0x4C, 0x4C, 0x43, 0x48, 0x41, 0x4E, 0x47, 0x45, 0x53]

  // The case labels: `_hash` of those names, which the C++ compiler evaluates (the lemmas
  // below prove each value). A switch refuses two equal labels, and these four differ.
  const KRAKEN_CASE: bv32 := 0x9C3
  const SHAPESHIFT_CASE: bv32 := 0x2499
  const HODL_CASE: bv32 := 0x3A6
  const BUYLOWANDHODL_CASE: bv32 := 0x3DB4
  const DOLLARCOSTAVERAGING_CASE: bv32 := 0x5CC
  const SMALLCHANGES_CASE: bv32 := 0x3EC1

  /** "krakenaaaaaaaaaaaaaaaa": "kraken" followed by two equal 8-byte blocks, whose bytes
      cancel pairwise because positions p and p + 8 are shifted alike. */
  const KRAKEN_TWIN: Bytes :=
    [0x6B, 0x72, 0x61, 0x6B, 0x65, 0x6E, 0x61, 0x61, 0x61, 0x61, 0x61,
     0x61, 0x61, 0x61, 0x61, 0x61, 0x61, 0x61, 0x61, 0x61, 0x61, 0x61]

  lemma KrakenCase()
    ensures HashOf(Some(KRAKEN)) == KRAKEN_CASE
  {
    assert HashFrom(KRAKEN, 5) == 0xdc0;
    assert HashFrom(KRAKEN, 4) == 0xb90;
    assert HashFrom(KRAKEN, 3) == 0x8c8;
    assert HashFrom(KRAKEN, 2) == 0x94c;
    assert HashFrom(KRAKEN, 1) == 0x9a8;
  }

  lemma ShapeshiftCase()
    ensures HashOf(Some(SHAPESHIFT)) == SHAPESHIFT_CASE
  {
    assert HashFrom(SHAPESHIFT, 9) == 0xe8;
    assert HashFrom(SHAPESHIFT, 8) == 0x8e;
    assert HashFrom(SHAPESHIFT, 7) == 0x340e;
    assert HashFrom(SHAPESHIFT, 6) == 0x2e0e;
    assert HashFrom(SHAPESHIFT, 5) == 0x206e;
    assert HashFrom(SHAPESHIFT, 4) == 0x263e;
    assert HashFrom(SHAPESHIFT, 3) == 0x25be;
    assert HashFrom(SHAPESHIFT, 2) == 0x243a;
    assert HashFrom(SHAPESHIFT, 1) == 0x24ea;
  }

  /** Each strategy name reaches its own case, and no other since the four labels differ. */
  lemma StrategyCases()
    ensures HashOf(Some(HODL)) == HODL_CASE
    ensures HashOf(Some(BUYLOWANDHODL)) == BUYLOWANDHODL_CASE
    ensures HashOf(Some(DOLLARCOSTAVERAGING)) == DOLLARCOSTAVERAGING_CASE
    ensures HashOf(Some(SMALLCHANGES)) == SMALLCHANGES_CASE
    ensures HODL_CASE != BUYLOWANDHODL_CASE && HODL_CASE != DOLLARCOSTAVERAGING_CASE && HODL_CASE != SMALLCHANGES_CASE
    ensures BUYLOWANDHODL_CASE != DOLLARCOSTAVERAGING_CASE && BUYLOWANDHODL_CASE != SMALLCHANGES_CASE
    ensures DOLLARCOSTAVERAGING_CASE != SMALLCHANGES_CASE
  {
    HodlCase();
    BuyLowAndHodlCase();
    DollarCostAveragingCase();
    SmallChangesCase();
  }

  lemma HodlCase()
    ensures HashOf(Some(HODL)) == HODL_CASE
  {
    assert HashFrom(HODL, 3) == 0x260;
    assert HashFrom(HODL, 2) == 0x370;
    assert HashFrom(HODL, 1) == 0x3ee;
  }

  lemma BuyLowAndHodlCase()
    ensures HashOf(Some(BUYLOWANDHODL)) == BUYLOWANDHODL_CASE
  {
    assert HashFrom(BUYLOWANDHODL, 12) == 0x4c0;
    assert HashFrom(BUYLOWANDHODL, 11) == 0x6e0;
    assert HashFrom(BUYLOWANDHODL, 10) == 0x7dc;
    assert HashFrom(BUYLOWANDHODL, 9) == 0x74c;
    assert HashFrom(BUYLOWANDHODL, 8) == 0x708;
    assert HashFrom(BUYLOWANDHODL, 7) == 0x2008;
    assert HashFrom(BUYLOWANDHODL, 6) == 0x3048;
    assert HashFrom(BUYLOWANDHODL, 5) == 0x3aa8;
    assert HashFrom(BUYLOWANDHODL, 4) == 0x3e58;
    assert HashFrom(BUYLOWANDHODL, 3) == 0x3c38;
    assert HashFrom(BUYLOWANDHODL, 2) == 0x3d5c;
    assert HashFrom(BUYLOWANDHODL, 1) == 0x3df6;
  }

  lemma DollarCostAveragingCase()
    ensures HashOf(Some(DOLLARCOSTAVERAGING)) == DOLLARCOSTAVERAGING_CASE
  {
    assert HashFrom(DOLLARCOSTAVERAGING, 18) == 0x11c;
    assert HashFrom(DOLLARCOSTAVERAGING, 17) == 0x180;
    assert HashFrom(DOLLARCOSTAVERAGING, 16) == 0x1c9;
    assert HashFrom(DOLLARCOSTAVERAGING, 15) == 0x2249;
    assert HashFrom(DOLLARCOSTAVERAGING, 14) == 0x3209;
    assert HashFrom(DOLLARCOSTAVERAGING, 13) == 0x3849;
    assert HashFrom(DOLLARCOSTAVERAGING, 12) == 0x3c19;
    assert HashFrom(DOLLARCOSTAVERAGING, 11) == 0x3ea9;
    assert HashFrom(DOLLARCOSTAVERAGING, 10) == 0x3fad;
    assert HashFrom(DOLLARCOSTAVERAGING, 9) == 0x3f05;
    assert HashFrom(DOLLARCOSTAVERAGING, 8) == 0x3f56;
    assert HashFrom(DOLLARCOSTAVERAGING, 7) == 0x18d6;
    assert HashFrom(DOLLARCOSTAVERAGING, 6) == 0x816;
    assert HashFrom(DOLLARCOSTAVERAGING, 5) == 0x256;
    assert HashFrom(DOLLARCOSTAVERAGING, 4) == 0x646;
    assert HashFrom(DOLLARCOSTAVERAGING, 3) == 0x426;
    assert HashFrom(DOLLARCOSTAVERAGING, 2) == 0x516;
    assert HashFrom(DOLLARCOSTAVERAGING, 1) == 0x588;
  }

  lemma SmallChangesCase()
    ensures HashOf(Some(SMALLCHANGES)) == SMALLCHANGES_CASE
  {
    assert HashFrom(SMALLCHANGES, 11) == 0x298;
    assert HashFrom(SMALLCHANGES, 10) == 0x38c;
    assert HashFrom(SMALLCHANGES, 9) == 0x302;
    assert HashFrom(SMALLCHANGES, 8) == 0x34c;
    assert HashFrom(SMALLCHANGES, 7) == 0x23cc;
    assert HashFrom(SMALLCHANGES, 6) == 0x31cc;
    assert HashFrom(SMALLCHANGES, 5) == 0x39ac;
    assert HashFrom(SMALLCHANGES, 4) == 0x3d6c;
    assert HashFrom(SMALLCHANGES, 3) == 0x3f0c;
    assert HashFrom(SMALLCHANGES, 2) == 0x3e08;
    assert HashFrom(SMALLCHANGES, 1) == 0x3e92;
  }

  /** The hash ends at the first NUL byte: whatever follows it is not hashed. */
  lemma {:induction false} HashStopsAtNul(s: Bytes, t: Bytes, i: nat)
    requires i <= |s|
    ensures HashFrom(s + [0] + t, i) == HashFrom(s, i)
    decreases |s| - i
  {
    var u := s + [0] + t;
    assert u[i] == if i < |s| then s[i] else 0;
    if i < |s| && s[i] != 0 {
      HashStopsAtNul(s, t, i + 1);
    }
  }

  /** Dispatch compares hashes, not names: a key other than "kraken" enters its case. */
  lemma KrakenTwinSelectsKraken()
    ensures KRAKEN_TWIN != KRAKEN && Selects(KRAKEN_TWIN, KRAKEN_CASE)
  {
    assert HashFrom(KRAKEN_TWIN, 21) == 0xc20;
    assert HashFrom(KRAKEN_TWIN, 20) == 0xa30;
    assert HashFrom(KRAKEN_TWIN, 19) == 0x938;
    assert HashFrom(KRAKEN_TWIN, 18) == 0x8bc;
    assert HashFrom(KRAKEN_TWIN, 17) == 0x87e;
    assert HashFrom(KRAKEN_TWIN, 16) == 0x81f;
    assert HashFrom(KRAKEN_TWIN, 15) == 0x389f;
    assert HashFrom(KRAKEN_TWIN, 14) == 0x20df;
    assert HashFrom(KRAKEN_TWIN, 13) == 0x2cff;
    assert HashFrom(KRAKEN_TWIN, 12) == 0x2aef;
    assert HashFrom(KRAKEN_TWIN, 11) == 0x29e7;
    assert HashFrom(KRAKEN_TWIN, 10) == 0x2863;
    assert HashFrom(KRAKEN_TWIN, 9) == 0x28a1;
    assert HashFrom(KRAKEN_TWIN, 8) == 0x28c0;
    assert HashFrom(KRAKEN_TWIN, 7) == 0x1840;
    assert HashFrom(KRAKEN_TWIN, 6) == 0x0;
    assert HashFrom(KRAKEN_TWIN, 5) == 0xdc0;
    assert HashFrom(KRAKEN_TWIN, 4) == 0xb90;
    assert HashFrom(KRAKEN_TWIN, 3) == 0x8c8;
    assert HashFrom(KRAKEN_TWIN, 2) == 0x94c;
    assert HashFrom(KRAKEN_TWIN, 1) == 0x9a8;
  }
}
