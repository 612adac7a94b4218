/** 32-bit words, and sizes as the allocators round them. */
module Words {

  const WORD: nat := 0x1_0000_0000
  const HALF_WORD: nat := 0x8000_0000
  const HALF_TICKS: nat := 0x7FFF_FFFF  // RT_TICK_MAX / 2
  const ALIGN: nat := 4

  /** RT_ALIGN: the addition wraps, so the last three values round to zero. */
  function AlignUp(x: nat): (r: nat)
    requires x < WORD
    ensures r % ALIGN == 0
    ensures x + ALIGN <= WORD ==> x <= r < x + ALIGN
    ensures x + ALIGN > WORD ==> r == 0
  {
    (x + ALIGN - 1) % WORD / ALIGN * ALIGN
  }

  /** RT_ALIGN_DOWN. */
  function AlignDown(x: nat): (r: nat)
    ensures r % ALIGN == 0 && r <= x < r + ALIGN
  {
    x / ALIGN * ALIGN
  }
}
