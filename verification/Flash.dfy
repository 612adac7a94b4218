/** The serial flash driver's write path (w25qxx.c): programs are split so that none
    crosses a page, blank sectors are programmed as they are, and for the others the driver
    asks for an erase first.

    Programming and erasing are taken from the chip: a program can only clear bits, and an
    address that runs past the end of a page wraps to the start of the same page; an erase
    blanks the sector in which the address lies. Addresses have 24 bits.
 */
module Flash {

  const PAGE_BYTES: nat := 256
  const SECTOR_BYTES: nat := 4096
  const BLANK: bv8 := 0xFF
  const CHIP_BYTES: nat := 0x100_0000

  /** A program command: first address and length. */
  datatype Program = Program(addr: nat, size: nat)

  function And(a: bv8, b: bv8): bv8 {
    a & b
  }

  lemma BlankTakes(b: bv8)
    ensures And(BLANK, b) == b
  {
  }

  /** Where byte k of a program at addr lands. */
  function Lands(addr: nat, k: nat): nat {
    addr / PAGE_BYTES * PAGE_BYTES + (addr % PAGE_BYTES + k) % PAGE_BYTES
  }

  lemma LandsInside(addr: nat, k: nat)
    requires addr % PAGE_BYTES + k < PAGE_BYTES
    ensures Lands(addr, k) == addr + k
  {
  }

  /** The programs cover addr to addr + size in order, and none leaves its page. */
  ghost predicate Tiles(log: seq<Program>, addr: nat, size: nat)
    decreases |log|
  {
    if log == [] then size == 0
    else
      && log[0].addr == addr && log[0].size <= size
      && addr % PAGE_BYTES + log[0].size <= PAGE_BYTES
      && Tiles(log[1..], addr + log[0].size, size - log[0].size)
  }

  lemma {:induction false} TilesSnoc(log: seq<Program>, addr: nat, size: nat, n: nat)
    requires Tiles(log, addr, size) && (addr + size) % PAGE_BYTES + n <= PAGE_BYTES
    ensures Tiles(log + [Program(addr + size, n)], addr, size + n)
    decreases |log|
  {
    var all := log + [Program(addr + size, n)];
    if log == [] {
      assert all[1..] == [];
    } else {
      TilesSnoc(log[1..], addr + log[0].size, size - log[0].size, n);
      assert all[1..] == log[1..] + [Program(addr + size, n)];
    }
  }

  lemma {:induction false} TilesJoin(a: seq<Program>, b: seq<Program>, addr: nat, m: nat, n: nat)
    requires Tiles(a, addr, m) && Tiles(b, addr + m, n)
    ensures Tiles(a + b, addr, m + n)
    decreases |a|
  {
    if a == [] {
      assert a + b == b;
    } else {
      TilesJoin(a[1..], b, addr + a[0].size, m - a[0].size, n);
      assert (a + b)[1..] == a[1..] + b;
    }
  }

  /** Memory after data was programmed over addr..addr + |data|: bits are only cleared,
      and all other bytes are unchanged. */
  ghost predicate Cleared(before: seq<bv8>, after: seq<bv8>, data: seq<bv8>, addr: nat) {
    && |after| == |before|
    && (forall a :: 0 <= a < |before| && !(addr <= a < addr + |data|) ==> after[a] == before[a])
    && (forall k :: 0 <= k < |data| && addr + k < |before| ==> after[addr + k] == And(before[addr + k], data[k]))
  }

  /** All bits of the mask are set. */
  predicate HasBits(w: bv8, mask: bv8) {
    w & mask == mask
  }

  lemma AndBits(a: bv8, b: bv8, mask: bv8)
    ensures HasBits(And(a, b), mask) <==> HasBits(a, mask) && HasBits(b, mask)
  {
  }

  /** A program sets no bit: bits are set afterwards if they were and, in the range, the data
      has them too. */
  lemma ClearedBits(before: seq<bv8>, after: seq<bv8>, data: seq<bv8>, addr: nat, a: nat, mask: bv8)
    requires Cleared(before, after, data, addr) && a < |before|
    ensures HasBits(after[a], mask) <==>
      HasBits(before[a], mask) && (addr <= a < addr + |data| ==> HasBits(data[a - addr], mask))
  {
    if addr <= a < addr + |data| {
      assert after[addr + (a - addr)] == And(before[a], data[a - addr]);
      AndBits(before[a], data[a - addr], mask);
    }
    hide HasBits;
  }

  lemma ClearedJoin(m0: seq<bv8>, m1: seq<bv8>, m2: seq<bv8>, a: seq<bv8>, b: seq<bv8>, addr: nat)
    requires Cleared(m0, m1, a, addr) && Cleared(m1, m2, b, addr + |a|)
    ensures Cleared(m0, m2, a + b, addr)
  {
    forall k | 0 <= k < |a + b| && addr + k < |m0|
      ensures m2[addr + k] == And(m0[addr + k], (a + b)[k])
    {
      if k >= |a| {
        assert (a + b)[k] == b[k - |a|] && addr + k == addr + |a| + (k - |a|);
        assert m2[addr + |a| + (k - |a|)] == And(m1[addr + |a| + (k - |a|)], b[k - |a|]);
      }
    }
  }

  lemma ClearedStart(m: seq<bv8>, addr: nat)
    ensures Cleared(m, m, [], addr) && Tiles([], addr, 0)
  {
  }

  /** The next n of size bytes end with the page or with the data. */
  ghost predicate Piece(addr: nat, n: nat, size: nat) {
    && n <= size && (size > 0 ==> n > 0) && addr % PAGE_BYTES + n <= PAGE_BYTES
    && (n == size || (addr + n) % PAGE_BYTES == 0)
  }

  lemma FirstPiece(addr: nat, size: nat)
    ensures var n := PAGE_BYTES - addr % PAGE_BYTES; Piece(addr, if size <= n then size else n, size)
  {
  }

  lemma NextPiece(addr: nat, n: nat, size: nat)
    requires Piece(addr, n, size) && n != size
    ensures Piece(addr + n, if size - n > PAGE_BYTES then PAGE_BYTES else size - n, size - n)
  {
  }

  lemma PieceInPage(addr: nat, n: nat, size: nat)
    requires Piece(addr, n, size)
    ensures n <= PAGE_BYTES && n <= size && addr % PAGE_BYTES + n <= PAGE_BYTES && (n == 0 ==> size == 0)
  {
  }

  class Chip {
    const mem: array<bv8>
    ghost var log: seq<Program>  // program commands so far

    ghost predicate Valid()
      reads this
    {
      mem.Length % SECTOR_BYTES == 0 && mem.Length <= CHIP_BYTES
    }

    constructor (mem: array<bv8>)
      requires mem.Length % SECTOR_BYTES == 0 && mem.Length <= CHIP_BYTES
      ensures Valid() && this.mem == mem && log == []
    {
      this.mem := mem;
      log := [];
    }

    /** W25QXX_PageProgram and what the chip does with it. */
    method PageProgram(buf: seq<bv8>, addr: nat)
      requires Valid() && addr < mem.Length
      modifies mem, this`log
      ensures |buf| > PAGE_BYTES ==> log == old(log) && mem[..] == old(mem[..])
      ensures |buf| <= PAGE_BYTES ==> log == old(log) + [Program(addr, |buf|)]
      ensures addr % PAGE_BYTES + |buf| <= PAGE_BYTES ==> Cleared(old(mem[..]), mem[..], buf, addr)
      ensures forall a :: 0 <= a < mem.Length && a / PAGE_BYTES != addr / PAGE_BYTES ==> mem[a] == old(mem[a])
    {
      if |buf| > PAGE_BYTES { return; }
      for k := 0 to |buf|
        invariant log == old(log)
        invariant forall a :: 0 <= a < mem.Length && a / PAGE_BYTES != addr / PAGE_BYTES ==> mem[a] == old(mem[a])
        invariant addr % PAGE_BYTES + |buf| <= PAGE_BYTES ==> Cleared(old(mem[..]), mem[..], buf[..k], addr)
      {
        SamePage(addr, k, mem.Length);
        mem[Lands(addr, k)] := And(mem[Lands(addr, k)], buf[k]);
        if addr % PAGE_BYTES + |buf| <= PAGE_BYTES {
          LandsInside(addr, k);
        }
      }
      assert buf[..|buf|] == buf;
      log := log + [Program(addr, |buf|)];
    }

    /** W25QXX_Write_NoCheck; size is a 16-bit length. */
    method WriteNoCheck(buf: seq<bv8>, address: nat)
      requires Valid() && |buf| < 0x10000 && address + |buf| <= mem.Length && address < mem.Length
      modifies mem, this`log
      ensures Cleared(old(mem[..]), mem[..], buf, address)
      ensures old(log) <= log && Tiles(log[|old(log)|..], address, |buf|)
    {
      hide Cleared, Tiles, Piece;
      var addr: nat, size: nat, at: nat := address, |buf|, 0;
      var pageRem: nat := PAGE_BYTES - addr % PAGE_BYTES;
      FirstPiece(addr, size);
      if size <= pageRem { pageRem := size; }
      ghost var done := [];
      ClearedStart(mem[..], address);
      assert buf[..0] == [];
      var more := true;
      while more
        invariant at + size == |buf| && addr == address + at
        invariant if more then addr < mem.Length && Piece(addr, pageRem, size) else size == 0
        invariant Cleared(old(mem[..]), mem[..], buf[..at], address)
        invariant log == old(log) + done && Tiles(done, address, at)
        decreases size, more
      {
        PieceInPage(addr, pageRem, size);
        ghost var before := mem[..];
        PageProgram(buf[at..at + pageRem], addr);
        ClearedJoin(old(mem[..]), before, mem[..], buf[..at], buf[at..at + pageRem], address);
        assert buf[..at] + buf[at..at + pageRem] == buf[..at + pageRem];
        TilesSnoc(done, address, at, pageRem);
        done := done + [Program(addr, pageRem)];
        if size == pageRem {
          addr, at, size := addr + pageRem, at + pageRem, 0;
          more := false;
        } else {
          NextPiece(addr, pageRem, size);
          addr, at := addr + pageRem, at + pageRem;
          size := size - pageRem;
          pageRem := if size > PAGE_BYTES then PAGE_BYTES else size;
        }
      }
      assert buf[..at] == buf;
      assert log[|old(log)|..] == done;
    }

    /** Read the sector into the shared buffer and look for a byte that is not blank. */
    method Scan(secPos: nat, secOff: nat, secRem: nat, addr: nat) returns (i: nat)
      requires Valid() && addr == secPos * SECTOR_BYTES + secOff && addr < mem.Length && secOff + secRem <= SECTOR_BYTES
      ensures i <= secRem && addr + secRem <= mem.Length
      ensures forall a :: addr <= a < addr + i ==> mem[a] == BLANK
      ensures i < secRem ==> mem[addr + i] != BLANK
    {
      SectorInside(secPos, secOff, addr, mem.Length);
      var sector := mem[secPos * SECTOR_BYTES..secPos * SECTOR_BYTES + SECTOR_BYTES];
      i := 0;
      while i < secRem && sector[secOff + i] == BLANK
        invariant i <= secRem && forall a :: addr <= a < addr + i ==> mem[a] == BLANK
      {
        i := i + 1;
      }
    }

    /** W25QXX_SectorErase and what the chip does with it. */
    method SectorErase(addr: nat)
      requires Valid() && addr < mem.Length
      modifies mem
      ensures var s := addr / SECTOR_BYTES * SECTOR_BYTES;
        forall a :: 0 <= a < mem.Length ==> mem[a] == if s <= a < s + SECTOR_BYTES then BLANK else old(mem[a])
    {
      var s := addr / SECTOR_BYTES * SECTOR_BYTES;
      SectorInside(addr / SECTOR_BYTES, addr % SECTOR_BYTES, addr, mem.Length);
      for k := 0 to SECTOR_BYTES
        invariant forall a :: 0 <= a < mem.Length ==> mem[a] == if s <= a < s + k then BLANK else old(mem[a])
      {
        mem[s + k] := BLANK;
      }
    }

    /** The branch of W25QXX_Write for a range that is not blank: it asks for the erase of the
        byte address pos, which lies in sector 0, and programs sector pos. */
    method Rewrite(pos: nat, off: nat, data: seq<bv8>)
      requires Valid() && pos * SECTOR_BYTES + SECTOR_BYTES <= mem.Length && off + |data| <= SECTOR_BYTES
      modifies mem, this`log
      ensures Rewritten(old(mem[..]), mem[..], pos, off, data)
    {
      var s := pos * SECTOR_BYTES;
      var sector := mem[s..s + SECTOR_BYTES];
      FirstSector(pos, mem.Length);
      SectorErase(pos);
      ghost var erased := mem[..];
      var merged := sector[..off] + data + sector[off + |data|..];
      WriteNoCheck(merged, s);
      RewritesSector(old(mem[..]), erased, mem[..], pos, off, data, merged);
    }

    /** W25QXX_Write. The range reads back as the buffer with every other byte unchanged
        exactly when Survives says so; for a blank range it does. */
    method Write(buf: seq<bv8>, address: nat) returns (ghost dirty: set<nat>)
      requires Valid() && |buf| < 0x10000 && address + |buf| <= mem.Length && address < mem.Length
      modifies mem, this`log
      ensures forall p :: p in dirty <==> IsDirty(old(mem[..]), address, |buf|, p)
      ensures Written(old(mem[..]), mem[..], buf, address, dirty)
      ensures Stored(old(mem[..]), mem[..], buf, address) <==> Survives(old(mem[..]), buf, address, dirty)
      ensures (forall a :: address <= a < address + |buf| ==> old(mem[..])[a] == BLANK) ==>
        && Stored(old(mem[..]), mem[..], buf, address)
        && old(log) <= log && Tiles(log[|old(log)|..], address, |buf|)
    {
      hide Tiles, Written, IsDirty, Rewritten, Survives, Stored, Cleared;
      var secPos: nat, secOff: nat := address / SECTOR_BYTES, address % SECTOR_BYTES;
      var secRem: nat := SECTOR_BYTES - secOff;
      var addr: nat, size: nat, at: nat := address, |buf|, 0;
      if size <= secRem { secRem := size; }
      ghost var before := mem[..];
      ghost var programs := [];
      dirty := {};
      WrittenStart(before, address);
      ClearedStart(before, address);
      assert buf[..0] == [];
      var more := true;
      while more
        invariant at + size == |buf| && addr == address + at && secRem <= size
        invariant more ==>
          addr < mem.Length && addr == secPos * SECTOR_BYTES + secOff && secOff + secRem <= SECTOR_BYTES &&
          (size > 0 ==> secRem > 0)
        invariant more ==> (secRem == size || secOff + secRem == SECTOR_BYTES) && (at > 0 ==> secOff == 0)
        invariant !more ==> size == 0
        invariant Written(before, mem[..], buf[..at], address, dirty)
        invariant forall p :: p in dirty <==> IsDirty(before, address, at, p)
        invariant dirty == {} ==> log == old(log) + programs && Tiles(programs, address, at)
        decreases size, more
      {
        var i := Scan(secPos, secOff, secRem, addr);
        ghost var mid, log0 := mem[..], log;
        SectorInside(secPos, secOff, addr, mem.Length);
        if i < secRem {
          DirtyMore(before, mid, buf, address, dirty, at, secRem, secPos, secOff, i);
          Rewrite(secPos, secOff, buf[at..at + secRem]);
          WrittenDirty(before, mid, mem[..], buf, address, dirty, at, secRem, secPos, secOff);
          dirty := dirty + {secPos};
        } else {
          CleanMore(before, mid, buf, address, dirty, at, secRem, secPos, secOff);
          WriteNoCheck(buf[at..at + secRem], addr);
          WrittenClean(before, mid, mem[..], buf, address, dirty, at, secRem, secPos, secOff);
          if dirty == {} { TilesJoin(programs, log[|log0|..], address, at, secRem); }
          programs := programs + log[|log0|..];
        }
        addr, at := addr + secRem, at + secRem;
        if size == secRem {
          size := 0;
          secRem := 0;
          more := false;
        } else {
          secPos, secOff := secPos + 1, 0;
          size := size - secRem;
          secRem := if size > SECTOR_BYTES then SECTOR_BYTES else size;
        }
      }
      assert buf[..at] == buf;
      StoredIff(before, mem[..], buf, address, dirty);
      BlankSurvives(before, buf, address, dirty);
      if dirty == {} { assert log[|old(log)|..] == programs; }
    }
  }

  // ----- what a write leaves in memory -----

  /** Byte a lies in sector p. */
  predicate InSector(a: int, p: nat) {
    p * SECTOR_BYTES <= a < p * SECTOR_BYTES + SECTOR_BYTES
  }

  lemma SectorOnce(a: int, p: nat, q: nat)
    requires InSector(a, p) && InSector(a, q)
    ensures p == q
  {
  }

  /** Sector p holds a byte of the range that is not blank. */
  ghost predicate IsDirty(before: seq<bv8>, addr: nat, n: nat, p: nat) {
    exists a :: addr <= a < addr + n && a < |before| && InSector(a, p) && before[a] != BLANK
  }

  /** A sector other than the first is dirty. */
  ghost predicate Hits(dirty: set<nat>) {
    exists p :: p in dirty && p > 0
  }

  /** Sector 0 is blank if a later sector was dirty. Elsewhere dirty sectors hold what was
      there ANDed with the data, other sectors the data, and bytes outside the range what
      they held. */
  ghost predicate Written(before: seq<bv8>, after: seq<bv8>, data: seq<bv8>, addr: nat, dirty: set<nat>) {
    && |after| == |before|
    && forall a :: 0 <= a < |before| ==> after[a] == WrittenByte(before, data, addr, dirty, a)
  }

  ghost function WrittenByte(before: seq<bv8>, data: seq<bv8>, addr: nat, dirty: set<nat>, a: nat): bv8
    requires a < |before|
  {
    if a < SECTOR_BYTES && Hits(dirty) then BLANK
    else if !(addr <= a < addr + |data|) then before[a]
    else if a >= SECTOR_BYTES && a / SECTOR_BYTES in dirty then And(before[a], data[a - addr])
    else data[a - addr]
  }

  /** What the branch for a range that is not blank leaves. */
  ghost predicate Rewritten(before: seq<bv8>, after: seq<bv8>, pos: nat, off: nat, data: seq<bv8>) {
    |after| == |before| && forall a :: 0 <= a < |before| ==> after[a] == RewrittenByte(before, pos, off, data, a)
  }

  ghost function RewrittenByte(before: seq<bv8>, pos: nat, off: nat, data: seq<bv8>, a: nat): bv8
    requires a < |before|
  {
    var s := pos * SECTOR_BYTES + off;
    if pos > 0 && a < SECTOR_BYTES then BLANK
    else if !(s <= a < s + |data|) then before[a]
    else if pos == 0 then data[a - s] else And(before[a], data[a - s])
  }

  /** The range holds the data and all other bytes are unchanged. */
  ghost predicate Stored(before: seq<bv8>, after: seq<bv8>, data: seq<bv8>, addr: nat) {
    && |after| == |before|
    && forall a :: 0 <= a < |before| ==> after[a] == if addr <= a < addr + |data| then data[a - addr] else before[a]
  }

  /** Of a write over dirty sectors other than the first: sector 0 is to be blank, and the
      data clears bits only. */
  ghost predicate Survives(before: seq<bv8>, data: seq<bv8>, addr: nat, dirty: set<nat>) {
    forall a :: 0 <= a < |before| ==> SurvivesAt(before, data, addr, dirty, a)
  }

  ghost predicate SurvivesAt(before: seq<bv8>, data: seq<bv8>, addr: nat, dirty: set<nat>, a: nat)
    requires a < |before|
  {
    && (a < SECTOR_BYTES && Hits(dirty) ==> BLANK == if addr <= a < addr + |data| then data[a - addr] else before[a])
    && (a >= SECTOR_BYTES && addr <= a < addr + |data| && a / SECTOR_BYTES in dirty ==>
      And(before[a], data[a - addr]) == data[a - addr])
  }

  lemma StoredIff(before: seq<bv8>, after: seq<bv8>, data: seq<bv8>, addr: nat, dirty: set<nat>)
    requires Written(before, after, data, addr, dirty)
    ensures Stored(before, after, data, addr) <==> Survives(before, data, addr, dirty)
  {
    hide Hits;
    if Stored(before, after, data, addr) {
      forall a | 0 <= a < |before|
        ensures SurvivesAt(before, data, addr, dirty, a)
      {
        assert after[a] == WrittenByte(before, data, addr, dirty, a);
      }
    }
    if Survives(before, data, addr, dirty) {
      forall a | 0 <= a < |before|
        ensures after[a] == if addr <= a < addr + |data| then data[a - addr] else before[a]
      {
        assert after[a] == WrittenByte(before, data, addr, dirty, a) && SurvivesAt(before, data, addr, dirty, a);
      }
    }
  }

  /** A write to a dirty sector other than the first loses what sector 0 holds. */
  lemma FirstSectorLost(before: seq<bv8>, data: seq<bv8>, addr: nat, dirty: set<nat>, a: nat)
    requires Hits(dirty) && a < SECTOR_BYTES && a < |before| && before[a] != BLANK && !(addr <= a < addr + |data|)
    ensures !Survives(before, data, addr, dirty)
  {
    assert !SurvivesAt(before, data, addr, dirty, a);
  }

  lemma BlankSurvives(before: seq<bv8>, data: seq<bv8>, addr: nat, dirty: set<nat>)
    requires forall p :: p in dirty <==> IsDirty(before, addr, |data|, p)
    requires addr + |data| <= |before|
    ensures (forall a :: addr <= a < addr + |data| ==> before[a] == BLANK) ==>
      dirty == {} && Survives(before, data, addr, dirty)
  {
    if forall a :: addr <= a < addr + |data| ==> before[a] == BLANK {
      forall p
        ensures p !in dirty
      {
        assert !IsDirty(before, addr, |data|, p);
      }
      assert dirty == {} && !Hits(dirty);
    }
  }

  lemma WrittenStart(before: seq<bv8>, addr: nat)
    ensures Written(before, before, [], addr, {})
    ensures forall p :: !IsDirty(before, addr, 0, p)
  {
  }

  lemma FirstSector(pos: nat, n: nat)
    requires pos * SECTOR_BYTES + SECTOR_BYTES <= n <= CHIP_BYTES
    ensures pos < SECTOR_BYTES && pos < n && pos / SECTOR_BYTES == 0
  {
  }

  /** A byte of sector 0 and the data merged into it are programmed on blank flash; any other
      sector is programmed over what it holds. */
  lemma RewritesSector(before: seq<bv8>, erased: seq<bv8>, after: seq<bv8>, pos: nat, off: nat,
                       data: seq<bv8>, merged: seq<bv8>)
    requires var s := pos * SECTOR_BYTES;
      && s + SECTOR_BYTES <= |before| && off + |data| <= SECTOR_BYTES
      && merged == before[s..s + SECTOR_BYTES][..off] + data + before[s..s + SECTOR_BYTES][off + |data|..]
      && |erased| == |before| && Cleared(erased, after, merged, s)
    requires forall a :: 0 <= a < |before| ==> erased[a] == if a < SECTOR_BYTES then BLANK else before[a]
    ensures Rewritten(before, after, pos, off, data)
  {
    var s := pos * SECTOR_BYTES;
    forall a | 0 <= a < |before|
      ensures after[a] == RewrittenByte(before, pos, off, data, a)
    {
      if s <= a < s + SECTOR_BYTES {
        var k := a - s;
        assert after[s + k] == And(erased[s + k], merged[k]);
        assert merged[k] == if off <= k < off + |data| then data[k - off] else before[a];
        BlankTakes(merged[k]);
        AndSelf(before[a]);
      }
    }
  }

  lemma AndSelf(b: bv8)
    ensures And(b, b) == b
  {
  }

  /** `at` bytes are written, and the next n lie in sector pos, from its start on unless they
      are the first. */
  ghost predicate Reached(before: seq<bv8>, mid: seq<bv8>, buf: seq<bv8>, addr: nat, dirty: set<nat>, at: nat, n: nat,
                          pos: nat, off: nat) {
    && at + n <= |buf| && addr + |buf| <= |before| && addr + at == pos * SECTOR_BYTES + off && off + n <= SECTOR_BYTES
    && (at > 0 ==> off == 0)
    && Written(before, mid, buf[..at], addr, dirty)
    && forall p :: p in dirty <==> IsDirty(before, addr, at, p)
  }

  /** Sectors ahead are neither dirty nor touched. */
  lemma Ahead(before: seq<bv8>, mid: seq<bv8>, buf: seq<bv8>, addr: nat, dirty: set<nat>, at: nat, n: nat, pos: nat,
              off: nat)
    requires Reached(before, mid, buf, addr, dirty, at, n, pos, off)
    ensures forall p :: p in dirty ==> p < pos
    ensures forall a :: addr + at <= a < addr + at + n ==> mid[a] == before[a]
    ensures pos == 0 ==> at == 0 && dirty == {}
  {
    forall p | p in dirty
      ensures p < pos
    {
      assert IsDirty(before, addr, at, p);
    }
    assert pos == 0 ==> forall p :: p !in dirty;
    hide IsDirty;
  }

  lemma SectorDiv(a: nat, p: nat)
    requires InSector(a, p)
    ensures a / SECTOR_BYTES == p
  {
  }

  lemma DirtyMore(before: seq<bv8>, mid: seq<bv8>, buf: seq<bv8>, addr: nat, dirty: set<nat>, at: nat, n: nat,
                  pos: nat, off: nat, i: nat)
    requires Reached(before, mid, buf, addr, dirty, at, n, pos, off) && i < n && mid[addr + at + i] != BLANK
    ensures forall p :: p in dirty + {pos} <==> IsDirty(before, addr, at + n, p)
  {
    Ahead(before, mid, buf, addr, dirty, at, n, pos, off);
    hide Written;
    forall p: nat
      ensures p in dirty + {pos} <==> IsDirty(before, addr, at + n, p)
    {
      if p in dirty {
        assert IsDirty(before, addr, at, p);
      }
      if p == pos {
        assert InSector(addr + at + i, pos) && before[addr + at + i] != BLANK;
      }
      if IsDirty(before, addr, at + n, p) {
        var a :| addr <= a < addr + at + n && a < |before| && InSector(a, p) && before[a] != BLANK;
        if a >= addr + at {
          assert InSector(a, pos);
          SectorOnce(a, p, pos);
        } else {
          assert IsDirty(before, addr, at, p);
        }
      }
    }
  }

  lemma CleanMore(before: seq<bv8>, mid: seq<bv8>, buf: seq<bv8>, addr: nat, dirty: set<nat>, at: nat, n: nat,
                  pos: nat, off: nat)
    requires Reached(before, mid, buf, addr, dirty, at, n, pos, off)
    requires forall a :: addr + at <= a < addr + at + n ==> mid[a] == BLANK
    ensures forall p :: p in dirty <==> IsDirty(before, addr, at + n, p)
  {
    Ahead(before, mid, buf, addr, dirty, at, n, pos, off);
    hide Written;
    forall p: nat
      ensures p in dirty <==> IsDirty(before, addr, at + n, p)
    {
      if IsDirty(before, addr, at + n, p) {
        var a :| addr <= a < addr + at + n && a < |before| && InSector(a, p) && before[a] != BLANK;
        assert a < addr + at;
        assert IsDirty(before, addr, at, p);
      }
    }
  }

  lemma WrittenDirty(before: seq<bv8>, mid: seq<bv8>, after: seq<bv8>, buf: seq<bv8>, addr: nat, dirty: set<nat>,
                     at: nat, n: nat, pos: nat, off: nat)
    requires Reached(before, mid, buf, addr, dirty, at, n, pos, off) && Rewritten(mid, after, pos, off, buf[at..at + n])
    ensures Written(before, after, buf[..at + n], addr, dirty + {pos})
  {
    Ahead(before, mid, buf, addr, dirty, at, n, pos, off);
    hide IsDirty;
    assert Hits(dirty + {pos}) <==> Hits(dirty) || pos > 0;
    hide Hits;
    forall a | 0 <= a < |before|
      ensures after[a] == WrittenByte(before, buf[..at + n], addr, dirty + {pos}, a)
    {
      assert mid[a] == WrittenByte(before, buf[..at], addr, dirty, a);
      if addr + at <= a < addr + at + n {
        assert InSector(a, pos);
        SectorDiv(a, pos);
      } else if addr <= a < addr + at {
        assert a / SECTOR_BYTES != pos;
      }
    }
  }

  lemma WrittenClean(before: seq<bv8>, mid: seq<bv8>, after: seq<bv8>, buf: seq<bv8>, addr: nat, dirty: set<nat>,
                     at: nat, n: nat, pos: nat, off: nat)
    requires Reached(before, mid, buf, addr, dirty, at, n, pos, off) && Cleared(mid, after, buf[at..at + n], addr + at)
    requires forall a :: addr + at <= a < addr + at + n ==> mid[a] == BLANK
    ensures Written(before, after, buf[..at + n], addr, dirty)
  {
    Ahead(before, mid, buf, addr, dirty, at, n, pos, off);
    hide IsDirty;
    assert pos == 0 ==> !Hits(dirty);
    hide Hits;
    forall a | 0 <= a < |before|
      ensures after[a] == WrittenByte(before, buf[..at + n], addr, dirty, a)
    {
      assert mid[a] == WrittenByte(before, buf[..at], addr, dirty, a);
      if addr + at <= a < addr + at + n {
        assert InSector(a, pos);
        SectorDiv(a, pos);
        assert after[addr + at + (a - addr - at)] == And(mid[a], buf[a - addr]);
        BlankTakes(buf[a - addr]);
      }
    }
  }

  lemma SamePage(addr: nat, k: nat, n: nat)
    requires addr < n && n % SECTOR_BYTES == 0
    ensures Lands(addr, k) < n && Lands(addr, k) / PAGE_BYTES == addr / PAGE_BYTES
  {
  }

  lemma SectorInside(pos: nat, off: nat, addr: nat, n: nat)
    requires addr == pos * SECTOR_BYTES + off && addr < n && n % SECTOR_BYTES == 0
    ensures pos * SECTOR_BYTES + SECTOR_BYTES <= n
  {
  }
}
