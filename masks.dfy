// State masks of the StateLayout container: the reserved states, the
// derivation of application-defined ("custom") states, and the overlap test
// that decides whether a child belongs to a state.
//
// A Java `int` is a 32-bit two's-complement value, so a mask is a `bv32`:
// `-1` is all ones, `<<` drops the bits shifted past bit 31, and `&` is the
// bitwise conjunction of the two's-complement patterns.
module StateMasks {

  type Mask = bv32

  /**
   * A Java `int` argument, as its two's-complement bit pattern: `-1` is
   * 0xFFFF_FFFF, and `+ 1` wraps at 2^32 as Java's does.
   */
  type JavaInt = bv32

  /** A bit position, 0 being the least significant. */
  type BitIndex = k: bv32 | k < 32

  const STATE_NONE: Mask := 0x00
  const STATE_DEFAULT: Mask := 0x01
  const STATE_CONTENT: Mask := 0x02
  const STATE_EMPTY: Mask := 0x04
  const STATE_ERROR: Mask := 0x08
  const STATE_LOADING: Mask := 0x10

  /** The bits taken by the five non-NONE reserved states. */
  const RESERVED: Mask := STATE_DEFAULT | STATE_CONTENT | STATE_EMPTY | STATE_ERROR | STATE_LOADING

  /** The mask of a child whose layout parameters were never tagged: Java's `-1`. */
  const UNSET: Mask := 0xFFFF_FFFF

  /** Bit `k` of `x` is set. */
  predicate HasBit(x: Mask, k: BitIndex)
  {
    (x >> k) & 1 == 1
  }

  /**
   * The state bit derived for application-defined state number `i`.
   * Java shifts an `int` by the low five bits of the distance only, so the
   * distance is `(i + 1) & 31`, and bits shifted past bit 31 are lost.
   */
  function Custom(i: JavaInt): Mask
  {
    STATE_LOADING << ((i + 1) & 31)
  }

  /** `flag` and `state` overlap (CommonBit says what that means bit by bit). */
  function HasFlag(state: Mask, flag: Mask): bool
  {
    state & flag != 0
  }

  // ---------------------------------------------------------------------
  // Bits of a conjunction

  lemma AndBit(a: Mask, b: Mask, k: BitIndex)
    ensures HasBit(a & b, k) <==> HasBit(a, k) && HasBit(b, k)
  {
  }

  /** A nonzero mask whose bits below `k` are clear has a set bit at `k` or above. */
  lemma {:induction false} SomeBitFrom(x: Mask, k: BitIndex)
    requires x >> k != 0
    ensures exists j: BitIndex :: k <= j && HasBit(x, j)
    decreases 32 - k
  {
    if !HasBit(x, k) {
      SomeBitFrom(x, k + 1);
    }
  }

  /** Two masks overlap exactly when they have a set bit in common: overlap, not equality. */
  lemma CommonBit(a: Mask, b: Mask)
    ensures HasFlag(a, b) <==> exists k: BitIndex :: HasBit(a, k) && HasBit(b, k)
  {
    if a & b != 0 {
      SomeBitFrom(a & b, 0);
      var j: BitIndex :| HasBit(a & b, j);
      AndBit(a, b, j);
      assert HasBit(a, j) && HasBit(b, j);
    } else {
      forall k: BitIndex ensures !(HasBit(a, k) && HasBit(b, k)) {
        AndBit(a, b, k);
      }
    }
  }

  // ---------------------------------------------------------------------
  // Custom states

  /** For 0 <= i <= 26 the custom state is the single bit 2^(5+i). */
  lemma CustomIsSingleBit(i: JavaInt)
    requires i <= 26
    ensures Custom(i) == (1 as Mask) << (i + 5)
  {
  }

  /** A custom state in range is a real state sharing no bit with a reserved one. */
  lemma CustomAvoidsReserved(i: JavaInt)
    requires i <= 26
    ensures Custom(i) != STATE_NONE
    ensures Custom(i) & RESERVED == 0
    ensures !HasFlag(Custom(i), STATE_DEFAULT) && !HasFlag(Custom(i), STATE_CONTENT)
    ensures !HasFlag(Custom(i), STATE_EMPTY) && !HasFlag(Custom(i), STATE_ERROR)
    ensures !HasFlag(Custom(i), STATE_LOADING)
  {
  }

  /** Distinct custom states in range are disjoint, hence distinct. */
  lemma CustomInjective(i: JavaInt, j: JavaInt)
    requires i <= 26 && j <= 26
    ensures Custom(i) == Custom(j) <==> i == j
    ensures i != j ==> !HasFlag(Custom(i), Custom(j))
  {
  }

  /**
   * Outside 0..26 the derivation wraps: the bit is shifted out (27..30 give
   * NONE) or the distance is reduced mod 32 (31 and -1 give LOADING).
   */
  lemma CustomWraps()
    ensures forall i: JavaInt :: 27 <= i <= 30 ==> Custom(i) == STATE_NONE
    ensures Custom(31) == STATE_LOADING
    ensures Custom(0xFFFF_FFFF) == STATE_LOADING
  {
  }

  /** A child left untagged (`-1`) overlaps every state except NONE. */
  lemma UnsetOverlapsEveryState(s: Mask)
    ensures HasFlag(UNSET, s) <==> s != STATE_NONE
  {
  }

  /** NONE overlaps no mask. */
  lemma NoneOverlapsNothing(m: Mask)
    ensures !HasFlag(m, STATE_NONE)
  {
  }

  /**
   * Combined states: a query for CONTENT|LOADING holds in LOADING and in
   * CONTENT but not in EMPTY; a child tagged custom(0)|LOADING overlaps
   * LOADING, custom(0) and their union.
   */
  lemma CombinedStates()
    ensures HasFlag(STATE_LOADING, STATE_CONTENT | STATE_LOADING)
    ensures HasFlag(STATE_CONTENT, STATE_CONTENT | STATE_LOADING)
    ensures !HasFlag(STATE_EMPTY, STATE_CONTENT | STATE_LOADING)
    ensures HasFlag(Custom(0) | STATE_LOADING, STATE_LOADING)
    ensures HasFlag(Custom(0) | STATE_LOADING, Custom(0))
    ensures HasFlag(Custom(0) | STATE_LOADING, Custom(0) | STATE_LOADING)
  {
  }
}
