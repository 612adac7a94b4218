/** The two-level ready bitmap that the scheduler uses for more than 32 priorities: a
    byte for each eight priorities, and a group with a bit for each byte.
 */
module ReadyTable {

  import opened Bits

  const LEVELS: nat := 256

  /** Priority p has its bit in byte p / 8. */
  ghost predicate Marked(table: seq<bv32>, p: nat)
    requires |table| == 32 && p < LEVELS
  {
    Bit(table[p / 8], p % 8)
  }

  /** Only the low eight bits are used. */
  ghost predicate IsByte(b: bv32) {
    forall q :: 8 <= q < 32 ==> !Bit(b, q)
  }

  ghost predicate Fits(table: seq<bv32>, group: bv32, ready: set<nat>) {
    && |table| == 32
    && (forall p :: p in ready ==> p < LEVELS)
    && (forall p :: 0 <= p < LEVELS ==> (p in ready <==> Marked(table, p)))
    && (forall n :: 0 <= n < 32 ==> IsByte(table[n]))
    && (forall n :: 0 <= n < 32 ==> (Bit(group, n) <==> table[n] != 0))
  }

  lemma ByteOf(p: nat, n: nat, q: nat)
    requires p < LEVELS && n == p / 8 && q == p % 8
    ensures n < 32 && q < 8 && p == n * 8 + q
  {
  }

  lemma ByteAt(n: nat, q: nat)
    requires n < 32 && q < 8
    ensures (n * 8 + q) / 8 == n && (n * 8 + q) % 8 == q && n * 8 + q < LEVELS
  {
  }

  lemma MarkedAt(table: seq<bv32>, n: nat, q: nat)
    requires |table| == 32 && n < 32 && q < 8
    ensures n * 8 + q < LEVELS && (Marked(table, n * 8 + q) <==> Bit(table[n], q))
  {
    ByteAt(n, q);
  }

  /** The lowest bit of the first non-zero byte is the least ready priority. */
  lemma LookupIsLeast(table: seq<bv32>, group: bv32, ready: set<nat>, p: nat)
    requires Fits(table, group, ready) && p in ready
    ensures 1 <= Ffs(group) <= 32
    ensures 1 <= Ffs(table[Ffs(group) - 1]) <= 8
    ensures var least := (Ffs(group) - 1) * 8 + Ffs(table[Ffs(group) - 1]) - 1; least in ready && least <= p
  {
    hide Bit, Ffs;
    ByteOf(p, p / 8, p % 8);
    NoBits(table[p / 8]);
    NoBits(group);
    FfsIsLowest(group);
    var n := Ffs(group) - 1;
    NoBits(table[n]);
    FfsIsLowest(table[n]);
    var q := Ffs(table[n]) - 1;
    MarkedAt(table, n, q);
    assert Marked(table, p);
  }

  lemma MarkFits(table: seq<bv32>, group: bv32, ready: set<nat>, p: nat)
    requires Fits(table, group, ready) && p < LEVELS
    ensures p / 8 < 32 && p % 8 < 8
    ensures var n := p / 8; Fits(table[n := With(table[n], Mask(p % 8))], With(group, Mask(n)), ready + {p})
  {
    hide Bit, Mask, With, Minus;
    var n := p / 8;
    var table' := table[n := With(table[n], Mask(p % 8))];
    ByteOf(p, n, p % 8);
    forall r | 0 <= r < LEVELS
      ensures r in ready + {p} <==> Marked(table', r)
    {
      ByteOf(r, r / 8, r % 8);
      BitUpdate(table[n], p % 8, r % 8);
      assert r in ready <==> Marked(table, r);
    }
    forall m | 0 <= m < 32
      ensures Bit(With(group, Mask(n)), m) <==> table'[m] != 0
    {
      BitUpdate(group, n, m);
      BitUpdate(table[n], p % 8, p % 8);
      NoBits(table'[n]);
    }
    forall q | 8 <= q < 32
      ensures !Bit(table'[n], q)
    {
      BitUpdate(table[n], p % 8, q);
    }
  }

  lemma ClearFits(table: seq<bv32>, group: bv32, ready: set<nat>, p: nat)
    requires Fits(table, group, ready) && p < LEVELS
    ensures p / 8 < 32 && p % 8 < 8
    ensures var n := p / 8; var b := Minus(table[n], Mask(p % 8));
            Fits(table[n := b], if b == 0 then Minus(group, Mask(n)) else group, ready - {p})
  {
    hide Bit, Mask, With, Minus;
    var n := p / 8;
    var b := Minus(table[n], Mask(p % 8));
    var table' := table[n := b];
    ByteOf(p, n, p % 8);
    forall r | 0 <= r < LEVELS
      ensures r in ready - {p} <==> Marked(table', r)
    {
      ByteOf(r, r / 8, r % 8);
      BitUpdate(table[n], p % 8, r % 8);
      assert r in ready <==> Marked(table, r);
    }
    forall q | 0 <= q < 32
      ensures Bit(b, q) ==> Bit(table[n], q)
    {
      BitUpdate(table[n], p % 8, q);
    }
    NoBits(b);
    NoBits(table[n]);
    forall m | 0 <= m < 32
      ensures Bit(if b == 0 then Minus(group, Mask(n)) else group, m) <==> table'[m] != 0
    {
      BitUpdate(group, n, m);
    }
  }

  class Table {
    var table: array<bv32>  // rt_thread_ready_table
    var group: bv32         // rt_thread_ready_priority_group
    ghost var ready: set<nat>

    ghost predicate Valid()
      reads this, table
    {
      table.Length == 32 && Fits(table[..], group, ready)
    }

    /** rt_schedule_insert_thread: the priority has a ready thread. */
    method Mark(p: nat)
      requires Valid() && p < LEVELS
      modifies this`group, this`ready, table
      ensures Valid() && ready == old(ready) + {p}
    {
      hide Fits, Mask, With, Minus;
      MarkFits(table[..], group, ready, p);
      var number := p / 8;
      table[number] := With(table[number], Mask(p % 8));
      group := With(group, Mask(number));
      ready := ready + {p};
      assert table[..] == old(table[..])[number := table[number]];
    }

    /** rt_schedule_remove_thread: the last thread of the priority left. */
    method Clear(p: nat)
      requires Valid() && p < LEVELS
      modifies this`group, this`ready, table
      ensures Valid() && ready == old(ready) - {p}
    {
      hide Fits, Mask, With, Minus;
      ClearFits(table[..], group, ready, p);
      var number := p / 8;
      table[number] := Minus(table[number], Mask(p % 8));
      if table[number] == 0 {
        group := Minus(group, Mask(number));
      }
      ready := ready - {p};
      assert table[..] == old(table[..])[number := table[number]];
    }

    /** The look-up of rt_schedule: the least ready priority. */
    method Highest() returns (p: nat)
      requires Valid() && ready != {}
      ensures p in ready && forall q :: q in ready ==> p <= q
    {
      hide Fits, Ffs;
      ghost var some :| some in ready;
      LookupIsLeast(table[..], group, ready, some);
      var number := Ffs(group) - 1;
      p := number * 8 + Ffs(table[number]) - 1;
      forall q | q in ready
        ensures p <= q
      {
        LookupIsLeast(table[..], group, ready, q);
      }
    }
  }
}
