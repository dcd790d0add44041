/** The phenomemory platform header of gosiuml: the flag-bit layout of a token,
    the `MemFlags` register triple and its read-modify-write operations, the
    bit-manipulation macros and the packed bitfield records.

    The C operations are atomic; here every operation is one sequential update
    of a `bv32` word, which is what an atomic read-modify-write amounts to when
    each call is observed as one indivisible step. */
module PhenoPlatform {

  // ---------------------------------------------------------------------------
  // Constants
  // ---------------------------------------------------------------------------

  const MAX_MEMORY_ZONES: nat := 16
  const ZONE_MASK: bv8 := 0x0F

  /** A shift amount that `1U << bit` accepts on a 32-bit word. */
  type BitPos = b: bv32 | b < 32

  const FLAG_NIL_BIT: BitPos := 0
  const FLAG_ALLOCATED_BIT: BitPos := 1
  const FLAG_LOCKED_BIT: BitPos := 2
  const FLAG_DIRTY_BIT: BitPos := 3
  const FLAG_COHERENT_BIT: BitPos := 4
  const FLAG_PROCESSING_BIT: BitPos := 5
  const FLAG_SHARED_BIT: BitPos := 6

  /** The seven named flag positions, in declaration order. */
  const FLAG_BITS: seq<BitPos> := [FLAG_NIL_BIT, FLAG_ALLOCATED_BIT, FLAG_LOCKED_BIT,
                                   FLAG_DIRTY_BIT, FLAG_COHERENT_BIT, FLAG_PROCESSING_BIT,
                                   FLAG_SHARED_BIT]

  const REF_COUNT_SHIFT: bv32 := 8
  const REF_COUNT_MASK: bv32 := 0xFF00
  const DEGRADATION_SHIFT: bv32 := 16
  const DEGRADATION_MASK: bv32 := 0x3FF0000

  /** The flag positions are distinct and sit below the reference-count field,
      the two masks are the field widths shifted into place, and the fields
      they describe do not overlap. */
  lemma FlagLayout()
    ensures forall i, j :: 0 <= i < j < |FLAG_BITS| ==> FLAG_BITS[i] != FLAG_BITS[j]
    ensures forall i :: 0 <= i < |FLAG_BITS| ==> FLAG_BITS[i] < REF_COUNT_SHIFT
    ensures REF_COUNT_MASK == 0xFF << REF_COUNT_SHIFT
    ensures DEGRADATION_MASK == 0x3FF << DEGRADATION_SHIFT
    ensures REF_COUNT_MASK & DEGRADATION_MASK == 0
    ensures forall i :: 0 <= i < |FLAG_BITS| ==> Bit(FLAG_BITS[i]) & (REF_COUNT_MASK | DEGRADATION_MASK) == 0
    ensures ZONE_MASK as nat == MAX_MEMORY_ZONES - 1
  {
  }

  // ---------------------------------------------------------------------------
  // Pure bit operations on a flag word
  // ---------------------------------------------------------------------------

  /** `1U << bit` */
  function Bit(b: BitPos): bv32 {
    1 << b
  }

  /** `(word & (1U << bit)) != 0`, the value `test_flag` reads. */
  predicate TestBit(w: bv32, b: BitPos) {
    w & Bit(b) != 0
  }

  /** The word `set_flag` leaves behind: bit `b` set, every other bit as it was. */
  function SetBit(w: bv32, b: BitPos): (r: bv32)
    ensures TestBit(r, b)
    ensures forall c: BitPos :: c != b ==> TestBit(r, c) == TestBit(w, c)
  {
    assert forall c: BitPos | c != b :: TestBit(w | Bit(b), c) == TestBit(w, c) by {
      forall c: BitPos | c != b
        ensures TestBit(w | Bit(b), c) == TestBit(w, c)
      {
        SetLeavesOtherBit(w, b, c);
      }
    }
    w | Bit(b)
  }

  lemma SetLeavesOtherBit(w: bv32, b: BitPos, c: BitPos)
    requires c != b
    ensures TestBit(w | Bit(b), c) == TestBit(w, c)
  {
  }

  /** The word `clear_flag` leaves behind: bit `b` clear, every other bit as it was. */
  function ClearBit(w: bv32, b: BitPos): (r: bv32)
    ensures !TestBit(r, b)
    ensures forall c: BitPos :: c != b ==> TestBit(r, c) == TestBit(w, c)
  {
    ClearedBitReadsClear(w, b);
    assert forall c: BitPos | c != b :: TestBit(w & !Bit(b), c) == TestBit(w, c) by {
      forall c: BitPos | c != b
        ensures TestBit(w & !Bit(b), c) == TestBit(w, c)
      {
        ClearLeavesOtherBit(w, b, c);
      }
    }
    w & !Bit(b)
  }

  lemma ClearedBitReadsClear(w: bv32, b: BitPos)
    ensures !TestBit(w & !Bit(b), b)
  {
  }

  lemma ClearLeavesOtherBit(w: bv32, b: BitPos, c: BitPos)
    requires c != b
    ensures TestBit(w & !Bit(b), c) == TestBit(w, c)
  {
  }

  /** `test_and_set_flag`: the fetch-or leaves the bit set, and the call reports
      true exactly when the bit was clear before, i.e. when the caller acquired it. */
  function TestAndSet(w: bv32, b: BitPos): (r: (bool, bv32))
    ensures r.0 <==> !TestBit(w, b)
    ensures TestBit(r.1, b) && r.1 == SetBit(w, b)
  {
    var oldVal := w;
    (oldVal & Bit(b) == 0, w | Bit(b))
  }

  /** Two consecutive test-and-set calls on one bit never both acquire it. */
  lemma TestAndSetExclusive(w: bv32, b: BitPos)
    ensures !(TestAndSet(w, b).0 && TestAndSet(TestAndSet(w, b).1, b).0)
    ensures !TestAndSet(TestAndSet(w, b).1, b).0
  {
  }

  /** Setting then clearing a bit that was clear restores the word. */
  lemma SetClearRoundTrip(w: bv32, b: BitPos)
    requires !TestBit(w, b)
    ensures ClearBit(SetBit(w, b), b) == w
  {
  }

  // ---------------------------------------------------------------------------
  // The MemFlags register triple
  // ---------------------------------------------------------------------------

  /** `MemFlags`: three independent 32-bit words. */
  class MemFlags {
    var flags: bv32
    var refCount: bv32
    var degradationMetrics: bv32

    /** The allocator hands out tokens with every flag word zero. */
    constructor ()
      ensures flags == 0 && refCount == 0 && degradationMetrics == 0
    {
      flags, refCount, degradationMetrics := 0, 0, 0;
    }

    method SetFlag(b: BitPos)
      modifies this
      ensures flags == SetBit(old(flags), b)
      ensures refCount == old(refCount) && degradationMetrics == old(degradationMetrics)
    {
      flags := SetBit(flags, b);
    }

    method ClearFlag(b: BitPos)
      modifies this
      ensures flags == ClearBit(old(flags), b)
      ensures refCount == old(refCount) && degradationMetrics == old(degradationMetrics)
    {
      flags := ClearBit(flags, b);
    }

    predicate TestFlag(b: BitPos)
      reads this
    {
      TestBit(flags, b)
    }

    method TestAndSetFlag(b: BitPos) returns (acquired: bool)
      modifies this
      ensures acquired == TestAndSet(old(flags), b).0 && flags == TestAndSet(old(flags), b).1
      ensures refCount == old(refCount) && degradationMetrics == old(degradationMetrics)
    {
      var r := TestAndSet(flags, b);
      acquired, flags := r.0, r.1;
    }

    /** `atomic_fetch_add(&ref_count, 1)` on an unsigned 32-bit word, which wraps. */
    method IncrementRefCount()
      modifies this
      ensures refCount == old(refCount) + 1
      ensures flags == old(flags) && degradationMetrics == old(degradationMetrics)
    {
      refCount := refCount + 1;
    }

    /** Returns the value after the decrement; `bv32` subtraction wraps, so 0 - 1 is 0xFFFFFFFF. */
    method DecrementRefCount() returns (r: bv32)
      modifies this
      ensures refCount == old(refCount) - 1 && r == refCount
      ensures flags == old(flags) && degradationMetrics == old(degradationMetrics)
    {
      var before := refCount;
      refCount := refCount - 1;
      r := before - 1;
    }

    function GetRefCount(): bv32
      reads this
    {
      refCount
    }

    /** The `atomic_store` of the degradation-metrics word. */
    method StoreDegradationMetrics(v: bv32)
      modifies this
      ensures degradationMetrics == v
      ensures flags == old(flags) && refCount == old(refCount)
    {
      degradationMetrics := v;
    }
  }

  /** Incrementing and then decrementing the reference count restores it, and
      the decrement reports the restored value. */
  method RefCountRoundTrip(f: MemFlags) returns (r: bv32)
    modifies f
    ensures f.refCount == old(f.refCount) && r == f.GetRefCount()
    ensures f.flags == old(f.flags) && f.degradationMetrics == old(f.degradationMetrics)
  {
    f.IncrementRefCount();
    r := f.DecrementRefCount();
  }

  /** Setting a flag through a register and testing it reads back true; clearing reads back false. */
  method SetThenTest(f: MemFlags, b: BitPos, other: BitPos) returns (wasSet: bool, cleared: bool)
    requires other != b
    modifies f
    ensures wasSet && !cleared
    ensures f.TestFlag(other) == old(f.TestFlag(other))
    ensures f.refCount == old(f.refCount) && f.degradationMetrics == old(f.degradationMetrics)
  {
    f.SetFlag(b);
    wasSet := f.TestFlag(b);
    f.ClearFlag(b);
    cleared := f.TestFlag(b);
  }

  // ---------------------------------------------------------------------------
  // Bit-manipulation macros on bytes
  // ---------------------------------------------------------------------------

  /** A rotate count for which both shifts of `ROTATE_LEFT` on a byte are defined. */
  type RotateAmount = n: bv32 | n <= 8

  /** `ROTATE_LEFT(val, n)` applied to a `uint8_t` and stored back into one: the
      shifts are done on the promoted `int` and the result is truncated to 8
      bits. The right shift by `8 - n` is defined for `0 <= n <= 8`. */
  function RotateLeftMacro(v: bv8, n: RotateAmount): bv8
  {
    var promoted: bv32 := ((v as bv32) << n) | ((v as bv32) >> (8 - n));
    (promoted & 0xFF) as bv8
  }

  /** For 1 <= n <= 7 the macro is a true 8-bit rotation; for n = 0 and n = 8 it
      returns the byte unchanged. */
  lemma RotateLeftIsRotation(v: bv8, n: RotateAmount)
    ensures RotateLeftMacro(v, n) == v.RotateLeft((n % 8) as nat)
  {
    if n == 0 {
    } else if n == 1 {
    } else if n == 2 {
    } else if n == 3 {
    } else if n == 4 {
    } else if n == 5 {
    } else if n == 6 {
    } else if n == 7 {
    } else {
    }
  }

  /** Four rotations by two bring every byte back. */
  lemma RotateByTwoFourTimes(v: bv8)
    ensures RotateLeftMacro(RotateLeftMacro(RotateLeftMacro(RotateLeftMacro(v, 2), 2), 2), 2) == v
  {
  }

  /** A bit position inside a byte. */
  type BytePos = b: bv8 | b < 8

  /** `BIT_SET(val, bit)` on a byte-sized field, for bit positions inside the byte. */
  function BitSet8(v: bv8, bit: BytePos): bv8
  {
    v | ((1 as bv8) << bit)
  }

  // ---------------------------------------------------------------------------
  // Bitfield records
  // ---------------------------------------------------------------------------

  function Sum(s: seq<nat>): nat {
    if s == [] then 0 else s[0] + Sum(s[1..])
  }

  /** Declared widths of `PhenoTokenType`, the value header and the degradation metrics. */
  const TOKEN_TYPE_WIDTHS: seq<nat> := [4, 3, 8, 8, 4, 5]
  const VALUE_HEADER_WIDTHS: seq<nat> := [16, 4, 3, 1, 16, 24]
  const METRICS_WIDTHS: seq<nat> := [10, 10, 6, 6]

  /** The widths add up to the sizes the declarations document. */
  lemma BitfieldWidths()
    ensures Sum(TOKEN_TYPE_WIDTHS) == 32
    ensures Sum(VALUE_HEADER_WIDTHS) == 64
    ensures Sum(METRICS_WIDTHS) == 32
  {
    assert Sum(TOKEN_TYPE_WIDTHS[5..]) == 5;
    assert Sum(TOKEN_TYPE_WIDTHS[3..]) == 17;
    assert Sum(VALUE_HEADER_WIDTHS[5..]) == 24;
    assert Sum(VALUE_HEADER_WIDTHS[3..]) == 41;
    assert Sum(METRICS_WIDTHS[2..]) == 12;
  }

  /** `PhenoTokenType`; every field has exactly its declared width. */
  datatype TokenType = TokenType(category: bv4, nodeLevel: bv3, clusterId: bv8,
                                 frameRef: bv8, degradation: bv4, reserved: bv5)

  /** The fields placed from the least significant bit upward in declaration
      order (the layout GCC uses on the System V ABIs). */
  function PackTokenType(t: TokenType): (w: bv32)
    ensures UnpackTokenType(w) == t
  {
    (t.category as bv32)
    | ((t.nodeLevel as bv32) << 4)
    | ((t.clusterId as bv32) << 7)
    | ((t.frameRef as bv32) << 15)
    | ((t.degradation as bv32) << 23)
    | ((t.reserved as bv32) << 27)
  }

  function UnpackTokenType(w: bv32): (t: TokenType)
  {
    TokenType((w & 0xF) as bv4, ((w >> 4) & 0x7) as bv3, ((w >> 7) & 0xFF) as bv8,
              ((w >> 15) & 0xFF) as bv8, ((w >> 23) & 0xF) as bv4, ((w >> 27) & 0x1F) as bv5)
  }

  /** Every 32-bit word is the packing of exactly one token type. */
  lemma TokenTypeFillsWord(w: bv32)
    ensures PackTokenType(UnpackTokenType(w)) == w
  {
  }

  /** The header of `PhenoTokenValue`. Its widths sum to 64, but an
      `unsigned int` bitfield cannot straddle a 32-bit unit under the
      System V x86-64 ABI (and under MSVC): `data_size` through `encrypted`
      fill bits 0-23 of the first unit, `frame_id` starts the second unit
      and `timestamp` the third, so the header takes 12 bytes. */
  datatype ValueHeader = ValueHeader(dataSize: bv16, encoding: bv4, compression: bv3,
                                     encrypted: bv1, frameId: bv16, timestamp: bv24)

  /** The twelve header bytes as one little-endian 96-bit word; the padding
      bits 24-31, 48-63 and 88-95 stay zero. */
  function PackValueHeader(h: ValueHeader): (w: bv96)
    ensures UnpackValueHeader(w) == h
    ensures (w >> 24) & 0xFF == 0 && (w >> 48) & 0xFFFF == 0 && w >> 88 == 0
  {
    (h.dataSize as bv96)
    | ((h.encoding as bv96) << 16)
    | ((h.compression as bv96) << 20)
    | ((h.encrypted as bv96) << 23)
    | ((h.frameId as bv96) << 32)
    | ((h.timestamp as bv96) << 64)
  }

  function UnpackValueHeader(w: bv96): ValueHeader
  {
    ValueHeader((w & 0xFFFF) as bv16, ((w >> 16) & 0xF) as bv4, ((w >> 20) & 0x7) as bv3,
                ((w >> 23) & 0x1) as bv1, ((w >> 32) & 0xFFFF) as bv16,
                ((w >> 64) & 0xFF_FFFF) as bv24)
  }

  /** The degradation-metrics record; `retryCount` is six bits wide. */
  datatype Metrics = Metrics(score: bv10, confidence: bv10, retryCount: bv6, priority: bv6)

  function PackMetrics(m: Metrics): (w: bv32)
    ensures UnpackMetrics(w) == m
  {
    (m.score as bv32)
    | ((m.confidence as bv32) << 10)
    | ((m.retryCount as bv32) << 20)
    | ((m.priority as bv32) << 26)
  }

  function UnpackMetrics(w: bv32): Metrics
  {
    Metrics((w & 0x3FF) as bv10, ((w >> 10) & 0x3FF) as bv10,
            ((w >> 20) & 0x3F) as bv6, ((w >> 26) & 0x3F) as bv6)
  }

  /** The four metrics fields cover the whole word: packing what a word
      unpacks to gives the word back. */
  lemma MetricsFillWord(w: bv32)
    ensures PackMetrics(UnpackMetrics(w)) == w
  {
  }

  /** Whatever word is stored, the retry-count field reads at most 63, and
      the all-zero word (what recovery stores) unpacks to all-zero fields. */
  lemma MetricsRetryBound(w: bv32)
    ensures UnpackMetrics(w).retryCount as int <= 63
    ensures UnpackMetrics(0) == Metrics(0, 0, 0, 0)
  {
  }
}
