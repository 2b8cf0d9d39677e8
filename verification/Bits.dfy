/** Bitwise OR on two's-complement integers of any width, as the bit_or aggregation folds it. */
module Bits {
  function Abs(a: int): nat { if a < 0 then -a else a }

  function BitOr(a: int, b: int): int
    decreases Abs(a) + Abs(b)
  {
    if a == 0 then b
    else if b == 0 then a
    else if a == -1 || b == -1 then -1
    else 2 * BitOr(a / 2, b / 2) + (if a % 2 == 1 || b % 2 == 1 then 1 else 0)
  }

  /** The low bit and the remaining bits of an OR, also for 0 and -1. */
  lemma {:induction false} OrBits(a: int, b: int)
    ensures BitOr(a, b) / 2 == BitOr(a / 2, b / 2)
    ensures BitOr(a, b) % 2 == if a % 2 == 1 || b % 2 == 1 then 1 else 0
  {
  }

  lemma {:induction false} OrAssociative(a: int, b: int, c: int)
    ensures BitOr(BitOr(a, b), c) == BitOr(a, BitOr(b, c))
    decreases Abs(a) + Abs(b) + Abs(c)
  {
    if (a == 0 || a == -1) && (b == 0 || b == -1) && (c == 0 || c == -1) {
    } else {
      OrAssociative(a / 2, b / 2, c / 2);
      OrBits(a, b);
      OrBits(BitOr(a, b), c);
      OrBits(b, c);
      OrBits(a, BitOr(b, c));
    }
  }
}
