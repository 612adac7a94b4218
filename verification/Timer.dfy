/** Timers of the system tick: a skip list of rows ordered by time under 32-bit
    wrap-around.

    rows[0] is the sparsest row, the last row holds every started timer. A row is
    the sequence of timers that its ring links after the row head, so position -1
    stands for the head. Absolute time (`now`, `due`) is ghost: the code only sees
    it modulo 2^32.
 */
module Timer {

  import opened Lists
  import opened Words

  const SLACK: nat := 3           // how far overdue a started timer may be

  type Tid = int

  /** What a timeout function may do to timers. */
  datatype Op = Start(id: Tid) | Stop(id: Tid) | SetTime(id: Tid, ticks: nat) | SetMode(id: Tid, periodic: bool)

  datatype Timer = Timer(initTick: nat, timeoutTick: nat, periodic: bool, active: bool, script: seq<Op>)

  /** Ghost record of a start: when the timer is due and how many starts came before. */
  datatype Key = Key(due: int, order: nat)

  type Keys = map<Tid, Key>

  datatype Fired = Fired(id: Tid, key: Key, at: int, stranded: bool)

  function Sub(a: nat, b: nat): (r: nat)
    requires a < WORD && b < WORD
    ensures r < WORD && (b + r) % WORD == a
  {
    (a - b) % WORD
  }

  // ----- order -----

  predicate KeyLess(a: Key, b: Key) {
    a.due < b.due || (a.due == b.due && a.order < b.order)
  }

  ghost predicate Before(keys: Keys, a: Tid, b: Tid) {
    a in keys && b in keys && KeyLess(keys[a], keys[b])
  }

  /** Earlier timeouts first, and among equal timeouts the one started first. */
  ghost predicate Ascending(row: seq<Tid>, keys: Keys) {
    && (forall i :: 0 <= i < |row| ==> row[i] in keys)
    && (forall i, j :: 0 <= i < j < |row| ==> Before(keys, row[i], row[j]))
  }

  ghost predicate Contained(a: seq<Tid>, b: seq<Tid>) {
    forall x :: x in a ==> x in b
  }

  ghost predicate SkipList(rows: seq<seq<Tid>>, keys: Keys) {
    && |rows| > 0
    && (forall r :: 0 <= r < |rows| ==> Ascending(rows[r], keys))
    && (forall r, s :: 0 <= r && s == r + 1 && s < |rows| ==> Contained(rows[r], rows[s]))
  }

  /** a occurs in b in the same order. */
  ghost predicate Sublist(a: seq<Tid>, b: seq<Tid>) {
    a == [] || (b != [] && if a[0] == b[0] then Sublist(a[1..], b[1..]) else Sublist(a, b[1..]))
  }

  /** In a skip list containment is enough: each sparser row is a sublist of the
      next one. */
  lemma {:induction false} ContainedIsSublist(a: seq<Tid>, b: seq<Tid>, keys: Keys)
    requires Ascending(a, keys) && Ascending(b, keys) && Contained(a, b)
    ensures Sublist(a, b)
  {
    if a != [] {
      assert a[0] in a;
      var k :| 0 <= k < |b| && b[k] == a[0];
      if k == 0 {
        forall x | x in a[1..]
          ensures x in b[1..]
        {
          var i :| 1 <= i < |a| && a[i] == x;
          assert x in a && Before(keys, a[0], a[i]);
        }
        ContainedIsSublist(a[1..], b[1..], keys);
      } else {
        forall x | x in a
          ensures x in b[1..]
        {
          var i :| 0 <= i < |a| && a[i] == x;
          assert Before(keys, b[0], b[k]);
          assert i > 0 ==> Before(keys, a[0], a[i]);
        }
        ContainedIsSublist(a, b[1..], keys);
      }
    }
  }

  // ----- removal -----

  lemma {:induction false} WithoutAscending(row: seq<Tid>, t: Tid, keys: Keys)
    requires Ascending(row, keys)
    ensures Ascending(Without(row, t), keys)
  {
    if row != [] {
      WithoutAscending(row[1..], t, keys);
      var w := Without(row[1..], t);
      forall j | 0 <= j < |w|
        ensures Before(keys, row[0], w[j])
      {
        assert w[j] in row[1..];
        var k :| 1 <= k < |row| && row[k] == w[j];
      }
    }
  }

  // ----- insertion -----

  /** t put into row by a linear scan: before the first timer that is due later. */
  ghost function Placed(row: seq<Tid>, keys: Keys, due: int, t: Tid): seq<Tid>
    requires forall i :: 0 <= i < |row| ==> row[i] in keys
  {
    if row == [] || keys[row[0]].due > due then [t] + row
    else [row[0]] + Placed(row[1..], keys, due, t)
  }

  /** k timers of row are due no later, and the next one is. */
  ghost predicate IsCut(row: seq<Tid>, keys: Keys, due: int, k: nat) {
    && k <= |row|
    && (forall i :: 0 <= i < |row| ==> row[i] in keys)
    && (forall i :: 0 <= i < k ==> keys[row[i]].due <= due)
    && (k < |row| ==> keys[row[k]].due > due)
  }

  /** t linked in after the first k timers of row. */
  lemma {:induction false} PlacedAtCut(row: seq<Tid>, keys: Keys, due: int, t: Tid, k: nat)
    requires IsCut(row, keys, due, k)
    ensures Placed(row, keys, due, t) == Splice(row, k, t)
  {
    if k > 0 {
      assert row[1..][..k - 1] == row[1..k];
      assert row[1..][k - 1..] == row[k..];
      PlacedAtCut(row[1..], keys, due, t, k - 1);
      PlacedBehind(row, keys, due, t);
      hide Placed;
      assert row[..k] == [row[0]] + row[1..k];
    }
  }

  lemma PlacedBehind(row: seq<Tid>, keys: Keys, due: int, t: Tid)
    requires (forall i :: 0 <= i < |row| ==> row[i] in keys) && row != [] && keys[row[0]].due <= due
    ensures Placed(row, keys, due, t) == [row[0]] + Placed(row[1..], keys, due, t)
  {
  }

  lemma PlacedAscending(row: seq<Tid>, keys: Keys, key: Key, t: Tid, k: nat)
    requires Ascending(row, keys) && IsCut(row, keys, key.due, k) && t !in row
    requires forall x :: x in row ==> keys[x].order < key.order
    ensures Ascending(Placed(row, keys, key.due, t), keys[t := key])
  {
    PlacedAtCut(row, keys, key.due, t, k);
    var p, g := row[..k] + [t] + row[k..], keys[t := key];
    forall i, j | 0 <= i < j < |p|
      ensures Before(g, p[i], p[j])
    {
      if i < k && j > k {
        assert Before(keys, row[i], row[j - 1]);
      } else if j == k {
        assert p[i] in row;
      } else if i == k {
        assert p[j] == row[j - 1];
        if j - 1 > k { assert Before(keys, row[k], row[j - 1]); }
      } else if i > k {
        assert Before(keys, row[i - 1], row[j - 1]);
      } else {
        assert Before(keys, row[i], row[j]);
      }
    }
  }

  // ----- 32-bit comparison -----

  /** A start at `now` is due at most HALF_TICKS - 1 ticks ahead, and nothing pending is
      more than SLACK ticks overdue. */
  ghost predicate InWindow(now: int, due: int) {
    now - SLACK <= due < now + HALF_TICKS
  }

  /** The unsigned difference orders every pending timer against a new one. */
  lemma DifferenceOrders(now: int, a: int, b: int)
    requires InWindow(now, a) && now <= b < now + HALF_TICKS
    ensures Sub(a % WORD, b % WORD) == 0 <==> a == b
    ensures 0 < Sub(a % WORD, b % WORD) < HALF_TICKS <==> a > b
  {
    var d := (a % WORD - b % WORD) % WORD;
    assert d == (a - b) % WORD;
    if a >= b {
      assert d == a - b;
    } else {
      assert d == a - b + WORD;
    }
  }

  /** An earlier timer is taken to be later, and the new one is placed before it, exactly
      when more than 2^31 + 1 ticks lie between them: overdue ticks of the one and period
      of the other together. With the longest period that is from 4 overdue ticks on. */
  lemma FarApartMisorders(now: int, overdue: nat, period: nat)
    requires period < HALF_TICKS && 0 < period + overdue < WORD
    ensures var a, b := now - overdue, now + period;
      0 < Sub(a % WORD, b % WORD) < HALF_TICKS <==> overdue + period > HALF_WORD + 1
    ensures period == HALF_TICKS - 1 ==> (overdue + period > HALF_WORD + 1 <==> overdue > SLACK)
  {
    var a, b := now - overdue, now + period;
    var d := (a % WORD - b % WORD) % WORD;
    assert d == (a - b) % WORD;
    assert d == a - b + WORD;
  }

  /** The unsigned difference tells whether a pending timer has expired. */
  lemma DifferenceExpires(now: int, a: int)
    requires InWindow(now, a)
    ensures Sub(now % WORD, a % WORD) < HALF_TICKS <==> a <= now
  {
    var d := (now % WORD - a % WORD) % WORD;
    assert d == (now - a) % WORD;
    if a <= now {
      assert d == now - a;
    } else {
      assert d == now - a + WORD;
    }
  }

  // ----- the timer list -----

  function Last(rows: seq<seq<Tid>>): seq<Tid>
    requires rows != []
  {
    rows[|rows| - 1]
  }

  /** How many rows above the bottom one a start enters: the counter value n is read
      `bits` at a time while those bits are zero. */
  function Height(n: nat, radix: nat, rows: nat): (h: nat)
    requires radix > 1
    ensures h <= rows
    decreases rows
  {
    if rows == 0 || n % radix != 0 then 0 else 1 + Height(n / radix, radix, rows - 1)
  }

  ghost function Power(radix: nat, k: nat): nat {
    if k == 0 then 1 else radix * Power(radix, k - 1)
  }

  lemma {:induction false} PowerPositive(radix: nat, k: nat)
    requires radix > 0
    ensures Power(radix, k) > 0
  {
    if k > 0 { PowerPositive(radix, k - 1); }
  }

  lemma DigitSplit(n: nat, radix: nat, p: nat)
    requires radix > 0 && p > 0
    ensures radix * p > 0
    ensures n % (radix * p) == 0 <==> n % radix == 0 && n / radix % p == 0
  {
    var m := n / radix;
    assert n == radix * m + n % radix;
    assert m == p * (m / p) + m % p;
    if n % radix == 0 && m % p == 0 {
      Exactly(n, m / p, radix * p);
    }
    if n % (radix * p) == 0 {
      var q := n / (radix * p);
      assert n == radix * (p * q);
      Exactly(n, p * q, radix);
      Exactly(m, q, p);
    }
  }

  lemma Exactly(x: nat, q: nat, m: nat)
    requires m > 0 && x == q * m
    ensures x % m == 0 && x / m == q
  {
    var d := x / m;
    if d < q { StepLess(d, q, m); }
  }

  lemma StepLess(i: nat, j: nat, m: nat)
    requires i < j
    ensures i * m + m <= j * m
  {
    assert (j - i) * m == j * m - i * m;
    assert (j - i - 1) * m >= 0;
  }

  /** A start reaches k rows above the bottom one exactly when the counter is a multiple of
      radix to the k. */
  lemma {:induction false} HeightIs(n: nat, radix: nat, rows: nat, k: nat)
    requires radix > 1 && k <= rows
    ensures Power(radix, k) > 0 && (k <= Height(n, radix, rows) <==> n % Power(radix, k) == 0)
    decreases k
  {
    PowerPositive(radix, k);
    if k > 0 {
      PowerPositive(radix, k - 1);
      DigitSplit(n, radix, Power(radix, k - 1));
      if n % radix == 0 { HeightIs(n / radix, radix, rows - 1, k - 1); }
    }
  }

  function Position(row: seq<Tid>, t: Tid): (k: nat)
    requires t in row
    ensures k < |row| && row[k] == t
  {
    if row[0] == t then 0 else 1 + Position(row[1..], t)
  }

  /** What rt_timer_start does to row r. */
  ghost function StartedRow(row: seq<Tid>, keys: Keys, due: int, t: Tid, enters: bool): seq<Tid>
    requires forall i :: 0 <= i < |row| ==> row[i] in keys
  {
    var w := Without(row, t);
    assert forall i :: 0 <= i < |w| ==> w[i] in keys by {
      forall i | 0 <= i < |w|
        ensures w[i] in keys
      {
        assert w[i] in row;
        var k :| 0 <= k < |row| && row[k] == w[i];
      }
    }
    if enters then Placed(w, keys, due, t) else w
  }

  lemma RowTimed(rows: seq<seq<Tid>>, keys: Keys, r: nat, x: Tid)
    requires SkipList(rows, keys) && r < |rows| && x in rows[r]
    ensures x in Last(rows)
    decreases |rows| - r
  {
    if r + 1 < |rows| {
      assert Contained(rows[r], rows[r + 1]);
      RowTimed(rows, keys, r + 1, x);
    }
  }

  lemma WithoutSkipList(rows: seq<seq<Tid>>, after: seq<seq<Tid>>, keys: Keys, t: Tid)
    requires SkipList(rows, keys) && |after| == |rows|
    requires forall r :: 0 <= r < |rows| ==> after[r] == Without(rows[r], t)
    ensures SkipList(after, keys)
  {
    forall r | 0 <= r < |rows|
      ensures Ascending(after[r], keys)
    {
      WithoutAscending(rows[r], t, keys);
    }
    forall r, s | 0 <= r && s == r + 1 && s < |rows|
      ensures Contained(after[r], after[s])
    {
      assert Contained(rows[r], rows[s]);
    }
  }

  /** Positions up to one that is due no later are all due no later. */
  lemma PrefixDue(row: seq<Tid>, keys: Keys, due: int, k: nat)
    requires Ascending(row, keys) && k < |row| && keys[row[k]].due <= due
    ensures forall i :: 0 <= i <= k ==> keys[row[i]].due <= due
  {
    forall i | 0 <= i < k
      ensures keys[row[i]].due <= due
    {
      assert Before(keys, row[i], row[k]);
    }
  }

  type Timers = map<Tid, Timer>

  /** A started timer is in the window and carries its due time modulo 2^32. */
  ghost predicate Timed(timers: Timers, keys: Keys, now: int, starts: nat, t: Tid) {
    && t in timers && t in keys
    && keys[t].due % WORD == timers[t].timeoutTick
    && InWindow(now, keys[t].due) && keys[t].order < starts
  }

  ghost predicate AllTimed(row: seq<Tid>, timers: Timers, keys: Keys, now: int, starts: nat) {
    forall t :: t in row ==> Timed(timers, keys, now, starts, t)
  }

  /** A timer carries the active flag iff it is started, or is adrift. */
  ghost predicate Flagged(timers: Timers, row: seq<Tid>, adrift: set<Tid>, t: Tid)
    requires t in timers
  {
    timers[t].active <==> t in row || t in adrift
  }

  ghost predicate AllFlagged(timers: Timers, row: seq<Tid>, temp: seq<Tid>, adrift: set<Tid>, but: set<Tid>) {
    && (forall t :: t in timers && t !in but ==> Flagged(timers, row, adrift, t))
    && (forall t :: t in temp ==> t in timers && t !in row)
    && (forall t :: t in adrift ==> t in timers && t !in row)
  }

  /** The timers that a script starts or stops. */
  function Handled(ops: seq<Op>): set<Tid> {
    set k | 0 <= k < |ops| && (ops[k].Start? || ops[k].Stop?) :: ops[k].id
  }

  /** The mode of t after a script. */
  function ModeAfter(ops: seq<Op>, t: Tid, periodic: bool): bool {
    if ops == [] then periodic
    else
      var last := ops[|ops| - 1];
      if last.SetMode? && last.id == t then last.periodic else ModeAfter(ops[..|ops| - 1], t, periodic)
  }

  /** The timer is periodic, and its timeout function leaves it one-shot without having
      started or stopped it. */
  predicate Stranded(timer: Timer, t: Tid) {
    timer.periodic && t !in Handled(timer.script) && !ModeAfter(timer.script, t, true)
  }

  /** The timers that were left so. */
  ghost function StrandedIn(f: seq<Fired>): set<Tid> {
    set k | 0 <= k < |f| && f[k].stranded :: f[k].id
  }

  lemma HandledMore(ops: seq<Op>, k: nat)
    requires k < |ops|
    ensures ops[..k + 1] == ops[..k] + [ops[k]]
    ensures Handled(ops[..k + 1]) == Handled(ops[..k]) + Handled([ops[k]])
    ensures forall t, periodic :: ModeAfter(ops[..k + 1], t, periodic) == ModeAfter([ops[k]], t,
      ModeAfter(ops[..k], t, periodic))
  {
    var more := ops[..k + 1];
    assert more == ops[..k] + [ops[k]] && more[..|more| - 1] == ops[..k];
    forall t
      ensures t in Handled(more) <==> t in Handled(ops[..k]) || t in Handled([ops[k]])
    {
      assert [ops[k]][0] == ops[k] == more[k];
      assert forall i :: 0 <= i < k ==> more[i] == ops[..k][i];
    }
    assert [ops[k]][..0] == [];
  }

  /** What a script does to the temporary list, to the timers adrift, and to the modes. */
  ghost predicate Effect(ops: seq<Op>, timers: Timers, temp: seq<Tid>, adrift: set<Tid>, timers': Timers,
                         temp': seq<Tid>, adrift': set<Tid>) {
    && adrift' == adrift - Handled(ops)
    && (forall x :: x in temp' ==> x in temp)
    && (forall x :: x in adrift ==> (x in temp' <==> x in temp && x in adrift'))
    && timers'.Keys == timers.Keys && forall x :: x in timers ==>
      timers'[x].periodic == ModeAfter(ops, x, timers[x].periodic)
  }

  /** What can be seen of a timer: whether it is started and when it is then due, its period,
      its mode and its flag. */
  datatype Mark = Mark(started: bool, due: int, period: nat, periodic: bool, active: bool)

  ghost function MarkOf(row: seq<Tid>, keys: Keys, timers: Timers, x: Tid): Mark
    requires x in timers
  {
    var t := timers[x];
    Mark(x in row, if x in row && x in keys then keys[x].due else 0, t.initTick, t.periodic, t.active)
  }

  /** A start makes a timer due one period from now, a stop of an active timer ends it, and a new
      period or mode leaves a started timer where it is. */
  ghost function AfterOp(op: Op, x: Tid, m: Mark, now: int): Mark {
    if op.id != x then m
    else match op
      case Start(_) => Mark(true, now + m.period, m.period, m.periodic, true)
      case Stop(_) => if m.active then Mark(false, 0, m.period, m.periodic, false) else m
      case SetTime(_, ticks) => m.(period := ticks)
      case SetMode(_, periodic) => m.(periodic := periodic)
  }

  ghost function After(ops: seq<Op>, x: Tid, m: Mark, now: int): Mark {
    if ops == [] then m else AfterOp(ops[|ops| - 1], x, After(ops[..|ops| - 1], x, m, now), now)
  }

  /** Every timer is as the operations leave it. */
  ghost predicate Marked(ops: seq<Op>, row: seq<Tid>, keys: Keys, timers: Timers, row': seq<Tid>, keys': Keys,
                         timers': Timers, now: int) {
    timers'.Keys == timers.Keys &&
      forall x :: x in timers ==> MarkOf(row', keys', timers', x) == After(ops, x, MarkOf(row, keys, timers, x), now)
  }

  lemma MarkedNone(row: seq<Tid>, keys: Keys, timers: Timers, now: int)
    ensures Marked([], row, keys, timers, row, keys, timers, now)
  {
  }

  lemma MarkedMore(ops: seq<Op>, k: nat, row: seq<Tid>, keys: Keys, timers: Timers, row1: seq<Tid>, keys1: Keys,
                   timers1: Timers, row2: seq<Tid>, keys2: Keys, timers2: Timers, now: int)
    requires k < |ops| && Marked(ops[..k], row, keys, timers, row1, keys1, timers1, now)
    requires Marked([ops[k]], row1, keys1, timers1, row2, keys2, timers2, now)
    ensures Marked(ops[..k + 1], row, keys, timers, row2, keys2, timers2, now)
  {
    assert ops[..k + 1][..k] == ops[..k];
    hide MarkOf, AfterOp;
    forall x | x in timers
      ensures MarkOf(row2, keys2, timers2, x) == After(ops[..k + 1], x, MarkOf(row, keys, timers, x), now)
    {
      AfterOne(ops[k], x, MarkOf(row1, keys1, timers1, x), now);
    }
  }

  lemma AfterOne(op: Op, x: Tid, m: Mark, now: int)
    ensures After([op], x, m, now) == AfterOp(op, x, m, now)
  {
    assert [op][..0] == [];
  }

  lemma MarkedStart(t: Tid, row: seq<Tid>, keys: Keys, timers: Timers, row': seq<Tid>, keys': Keys, timers': Timers,
                    key: Key, tick: nat, now: int)
    requires t in timers && key.due == now + timers[t].initTick && keys' == keys[t := key]
    requires timers' == timers[t := timers[t].(active := true, timeoutTick := tick)]
    requires forall x :: x in row' <==> x == t || x in row
    ensures Marked([Start(t)], row, keys, timers, row', keys', timers', now)
  {
    forall x | x in timers
      ensures MarkOf(row', keys', timers', x) == After([Start(t)], x, MarkOf(row, keys, timers, x), now)
    {
      AfterOne(Start(t), x, MarkOf(row, keys, timers, x), now);
    }
  }

  lemma MarkedStop(t: Tid, row: seq<Tid>, keys: Keys, timers: Timers, row': seq<Tid>, timers': Timers, now: int)
    requires t in timers
    requires if timers[t].active then timers' == timers[t := timers[t].(active := false)] && t !in row' &&
        forall x :: x != t ==> (x in row' <==> x in row)
      else timers' == timers && row' == row
    ensures Marked([Stop(t)], row, keys, timers, row', keys, timers', now)
  {
    forall x | x in timers
      ensures MarkOf(row', keys, timers', x) == After([Stop(t)], x, MarkOf(row, keys, timers, x), now)
    {
      AfterOne(Stop(t), x, MarkOf(row, keys, timers, x), now);
    }
  }

  lemma MarkedSet(op: Op, row: seq<Tid>, keys: Keys, timers: Timers, timers': Timers, now: int)
    requires op.id in timers && match op
      case SetTime(t, ticks) => timers' == timers[t := timers[t].(initTick := ticks)]
      case SetMode(t, periodic) => timers' == timers[t := timers[t].(periodic := periodic)]
      case _ => false
    ensures Marked([op], row, keys, timers, row, keys, timers', now)
  {
    forall x | x in timers
      ensures MarkOf(row, keys, timers', x) == After([op], x, MarkOf(row, keys, timers, x), now)
    {
      AfterOne(op, x, MarkOf(row, keys, timers, x), now);
    }
  }

  lemma StartDone(t: Tid, row: seq<Tid>, keys: Keys, timers: Timers, temp: seq<Tid>, adrift: set<Tid>,
                  row': seq<Tid>, keys': Keys, timers': Timers, temp': seq<Tid>, key: Key, tick: nat, now: int,
                  touched: set<Tid>)
    requires t in timers && key.due == now + timers[t].initTick > now && keys' == keys[t := key] && t in touched
    requires timers' == timers[t := timers[t].(active := true, timeoutTick := tick)] && temp' == Without(temp, t)
    requires forall x :: x in row' <==> x == t || x in row
    ensures Evolved(row, keys, timers, row', keys', timers', now, touched)
    ensures Effect([Start(t)], timers, temp, adrift, timers', temp', adrift - {t})
    ensures Marked([Start(t)], row, keys, timers, row', keys', timers', now)
  {
    hide Effect, Marked;
    EffectHandled(Start(t), timers, temp, adrift, timers', temp');
    MarkedStart(t, row, keys, timers, row', keys', timers', key, tick, now);
    StartEvolves(row, keys, timers, row', timers', key, t, now);
    EvolvedMore(row, keys, timers, row', keys', timers', now, {t}, touched);
  }

  lemma StopDone(t: Tid, row: seq<Tid>, keys: Keys, timers: Timers, temp: seq<Tid>, adrift: set<Tid>,
                 row': seq<Tid>, timers': Timers, temp': seq<Tid>, now: int, touched: set<Tid>)
    requires t in timers && t in touched
    requires if timers[t].active then timers' == timers[t := timers[t].(active := false)] && row' == Without(row, t) &&
        temp' == Without(temp, t)
      else timers' == timers && row' == row && temp' == temp && t !in adrift
    ensures Evolved(row, keys, timers, row', keys, timers', now, touched)
    ensures Effect([Stop(t)], timers, temp, adrift, timers', temp', adrift - {t})
    ensures Marked([Stop(t)], row, keys, timers, row', keys, timers', now)
  {
    hide Effect, Marked;
    EffectHandled(Stop(t), timers, temp, adrift, timers', temp');
    MarkedStop(t, row, keys, timers, row', timers', now);
    if timers[t].active {
      StopEvolves(row, keys, timers, row', timers', t, now);
      EvolvedMore(row, keys, timers, row', keys, timers', now, {t}, touched);
    } else {
      StayEvolves(row, keys, timers, timers', now);
      EvolvedMore(row, keys, timers, row', keys, timers', now, {}, touched);
    }
  }

  lemma SetDone(op: Op, row: seq<Tid>, keys: Keys, timers: Timers, temp: seq<Tid>, adrift: set<Tid>, timers': Timers,
                now: int, touched: set<Tid>)
    requires op.id in timers && match op
      case SetTime(t, ticks) => timers' == timers[t := timers[t].(initTick := ticks)]
      case SetMode(t, periodic) => timers' == timers[t := timers[t].(periodic := periodic)]
      case _ => false
    ensures Evolved(row, keys, timers, row, keys, timers', now, touched)
    ensures Effect([op], timers, temp, adrift, timers', temp, adrift)
    ensures Marked([op], row, keys, timers, row, keys, timers', now)
  {
    hide Effect, Marked;
    EffectSet(op, timers, temp, adrift, timers');
    MarkedSet(op, row, keys, timers, timers', now);
    StayEvolves(row, keys, timers, timers', now);
    EvolvedMore(row, keys, timers, row, keys, timers', now, {}, touched);
  }

  /** The timer that fires leaves the rows, runs its timeout function, and is started again if
      it is periodic then, and neither started nor stopped meanwhile. */
  ghost function Refired(ops: seq<Op>, x: Tid, m: Mark, now: int): Mark {
    var a := After(ops, x, m.(started := false, due := 0, active := m.periodic), now);
    if a.active && !a.started && a.periodic then a.(started := true, due := now + a.period) else a
  }

  /** Timer t fired, and the other timers are as its timeout function left them. */
  ghost predicate Round(t: Tid, row: seq<Tid>, keys: Keys, timers: Timers, row': seq<Tid>, keys': Keys,
                        timers': Timers, now: int)
    requires t in timers
  {
    && timers'.Keys == timers.Keys
    && (forall x :: x in timers && x != t ==>
          MarkOf(row', keys', timers', x) == After(timers[t].script, x, MarkOf(row, keys, timers, x), now))
    && MarkOf(row', keys', timers', t) == Refired(timers[t].script, t, MarkOf(row, keys, timers, t), now)
  }

  /** t was taken out, its script ran, and then it was started again or left alone. */
  lemma RoundIs(t: Tid, row: seq<Tid>, keys: Keys, timers: Timers, row1: seq<Tid>, timers1: Timers,
                row2: seq<Tid>, keys2: Keys, timers2: Timers, row3: seq<Tid>, keys3: Keys, timers3: Timers, now: int)
    requires t in timers && timers1 == timers[t := timers[t].(active := timers[t].periodic)]
    requires forall x :: x in row1 <==> x != t && x in row
    requires Marked(timers[t].script, row1, keys, timers1, row2, keys2, timers2, now)
    requires var again := timers2[t].active && t !in row2 && timers2[t].periodic;
      Marked(if again then [Start(t)] else [], row2, keys2, timers2, row3, keys3, timers3, now)
    ensures Round(t, row, keys, timers, row3, keys3, timers3, now)
  {
    var again := timers2[t].active && t !in row2 && timers2[t].periodic;
    forall x | x in timers
      ensures MarkOf(row3, keys3, timers3, x) ==
        if again then AfterOp(Start(t), x, MarkOf(row2, keys2, timers2, x), now) else MarkOf(row2, keys2, timers2, x)
    {
      AfterOne(Start(t), x, MarkOf(row2, keys2, timers2, x), now);
    }
  }

  lemma EffectNone(timers: Timers, temp: seq<Tid>, adrift: set<Tid>)
    ensures Effect([], timers, temp, adrift, timers, temp, adrift)
  {
  }

  lemma EffectMore(ops: seq<Op>, k: nat, timers: Timers, temp: seq<Tid>, adrift: set<Tid>,
                   timers1: Timers, temp1: seq<Tid>, adrift1: set<Tid>,
                   timers2: Timers, temp2: seq<Tid>, adrift2: set<Tid>)
    requires k < |ops| && Effect(ops[..k], timers, temp, adrift, timers1, temp1, adrift1)
    requires Effect([ops[k]], timers1, temp1, adrift1, timers2, temp2, adrift2)
    ensures Effect(ops[..k + 1], timers, temp, adrift, timers2, temp2, adrift2)
  {
    hide Handled, ModeAfter;
    HandledMore(ops, k);
  }

  /** A start, or a stop, which does nothing to an inactive timer. */
  lemma EffectHandled(op: Op, timers: Timers, temp: seq<Tid>, adrift: set<Tid>, timers': Timers, temp': seq<Tid>)
    requires op.Start? || op.Stop?
    requires temp' == Without(temp, op.id) || (op.id !in adrift && temp' == temp)
    requires timers'.Keys == timers.Keys && forall x :: x in timers ==> timers'[x].periodic == timers[x].periodic
    ensures Effect([op], timers, temp, adrift, timers', temp', adrift - {op.id})
  {
    hide Handled, ModeAfter;
    HandledOne(op);
  }

  lemma EffectSet(op: Op, timers: Timers, temp: seq<Tid>, adrift: set<Tid>, timers': Timers)
    requires op.SetTime? || op.SetMode?
    requires timers'.Keys == timers.Keys
    requires forall x :: x in timers ==>
      timers'[x].periodic == if op.SetMode? && x == op.id then op.periodic else timers[x].periodic
    ensures Effect([op], timers, temp, adrift, timers', temp, adrift)
  {
    hide Handled, ModeAfter;
    HandledOne(op);
  }

  lemma PeriodsPositive(timers: Timers, live: set<Tid>, touched: set<Tid>)
    requires WellScripted(timers, live, touched)
    ensures forall t :: t in timers && timers[t].periodic ==> timers[t].initTick >= 1
  {
  }

  lemma EvolvedShape(row: seq<Tid>, keys: Keys, timers: Timers, row': seq<Tid>, keys': Keys, timers': Timers, now: int,
                     touched: set<Tid>)
    requires Evolved(row, keys, timers, row', keys', timers', now, touched)
    ensures SameShape(timers, timers')
  {
  }

  lemma RowKeyed(rows: seq<seq<Tid>>, keys: Keys)
    requires SkipList(rows, keys)
    ensures forall x :: x in Last(rows) ==> x in keys
  {
  }

  lemma ScriptAllowed(timers: Timers, live: set<Tid>, touched: set<Tid>)
    requires WellScripted(timers, live, touched)
    ensures forall t :: t in timers ==> OpsAllowed(timers, timers[t].script, live, touched)
  {
  }

  lemma OneAllowed(timers: Timers, ops: seq<Op>, k: nat, live: set<Tid>, touched: set<Tid>, timers0: Timers)
    requires OpsAllowed(timers0, ops, live, touched) && timers.Keys == timers0.Keys && k < |ops|
    ensures OpsAllowed(timers, [ops[k]], live, touched)
  {
  }

  lemma HandledOne(op: Op)
    ensures Handled([op]) == if op.Start? || op.Stop? then {op.id} else {}
    ensures forall x, periodic :: ModeAfter([op], x, periodic) == if op.SetMode? && op.id == x then op.periodic
      else periodic
  {
    assert [op][0] == op && [op][..0] == [];
  }

  lemma StrandedMore(f: seq<Fired>, more: Fired)
    ensures StrandedIn(f + [more]) == StrandedIn(f) + if more.stranded then {more.id} else {}
  {
    var all := f + [more];
    forall t
      ensures t in StrandedIn(all) <==> t in StrandedIn(f) || (more.stranded && t == more.id)
    {
      assert all[|f|] == more;
      assert forall i :: 0 <= i < |f| ==> all[i] == f[i];
    }
  }

  lemma StrandedJoin(f: seq<Fired>, g: seq<Fired>)
    ensures StrandedIn(f + g) == StrandedIn(f) + StrandedIn(g)
  {
    var all := f + g;
    forall t
      ensures t in StrandedIn(all) <==> t in StrandedIn(f) || t in StrandedIn(g)
    {
      assert forall i :: 0 <= i < |f| ==> all[i] == f[i];
      assert forall i :: 0 <= i < |g| ==> all[|f| + i] == g[i];
      assert forall i :: |f| <= i < |all| ==> all[i] == g[i - |f|];
    }
  }

  lemma HeadIsEarliest(row: seq<Tid>, keys: Keys)
    requires Ascending(row, keys) && row != []
    ensures forall t :: t in row ==> t == row[0] || Before(keys, row[0], t)
  {
    forall t | t in row && t != row[0]
      ensures Before(keys, row[0], t)
    {
      var k :| 0 <= k < |row| && row[k] == t;
    }
  }

  // ----- what happens while timers expire -----

  /** The started timers whose time has come. */
  ghost function Expired(row: seq<Tid>, keys: Keys, now: int): set<Tid> {
    set t | t in row && t in keys && keys[t].due <= now
  }

  ghost predicate SameShape(a: Timers, b: Timers) {
    a.Keys == b.Keys && forall t :: t in a ==> b[t].script == a[t].script
  }

  /** Timeout functions start, stop and set timers of `touched` only, and start timers of
      `live` only; live timers, periodic ones among them, have a period of at least one
      tick and below half the tick range. */
  ghost predicate WellScripted(timers: Timers, live: set<Tid>, touched: set<Tid>) {
    && (forall t :: t in timers ==> OpsAllowed(timers, timers[t].script, live, touched))
    && (forall t :: t in timers && (t in live || timers[t].periodic) ==>
      t in live && 1 <= timers[t].initTick < HALF_TICKS)
  }

  ghost predicate OpsAllowed(timers: Timers, ops: seq<Op>, live: set<Tid>, touched: set<Tid>) {
    forall k :: 0 <= k < |ops| ==>
      && ops[k].id in timers && (ops[k].SetMode? || ops[k].id in touched)
      && (ops[k].Start? ==> ops[k].id in live)
      && (ops[k].SetTime? ==> 1 <= ops[k].ticks < HALF_TICKS)
      && (ops[k].SetMode? && ops[k].periodic ==> ops[k].id in live)
  }

  /** One or more operations of timeout functions at time now: nothing new expires,
      what stays expired keeps its key, and started timers outside `touched` stay
      as they are, without new ones. */
  ghost predicate Evolved(row: seq<Tid>, keys: Keys, timers: Timers, row': seq<Tid>, keys': Keys, timers': Timers,
                          now: int, touched: set<Tid>)
  {
    && SameShape(timers, timers')
    && (forall t :: t in row' && t in keys' && keys'[t].due <= now ==> t in row && t in keys && keys'[t] == keys[t])
    && (forall t :: t in row && t in keys && t !in touched ==> t in row' && t in keys' && keys'[t] == keys[t])
    && (forall t :: t in row' && t !in touched ==> t in row)
  }

  lemma EvolvedTrans(r0: seq<Tid>, k0: Keys, t0: Timers, r1: seq<Tid>, k1: Keys, t1: Timers, r2: seq<Tid>, k2: Keys,
                     t2: Timers,
                     now: int, touched: set<Tid>)
    requires Evolved(r0, k0, t0, r1, k1, t1, now, touched) && Evolved(r1, k1, t1, r2, k2, t2, now, touched)
    ensures Evolved(r0, k0, t0, r2, k2, t2, now, touched)
  {
  }

  /** Starting t with at least one tick expires nothing. */
  lemma StartEvolves(row: seq<Tid>, keys: Keys, timers: Timers, row': seq<Tid>, timers': Timers, key: Key, t: Tid,
                     now: int)
    requires SameShape(timers, timers') && key.due > now
    requires forall x :: x in row' <==> x == t || x in row
    ensures Evolved(row, keys, timers, row', keys[t := key], timers', now, {t})
  {
  }

  lemma StopEvolves(row: seq<Tid>, keys: Keys, timers: Timers, row': seq<Tid>, timers': Timers, t: Tid, now: int)
    requires SameShape(timers, timers')
    requires forall x :: x in row' <==> x != t && x in row
    ensures Evolved(row, keys, timers, row', keys, timers', now, {t})
  {
  }

  lemma StayEvolves(row: seq<Tid>, keys: Keys, timers: Timers, timers': Timers, now: int)
    requires SameShape(timers, timers')
    ensures Evolved(row, keys, timers, row, keys, timers', now, {})
  {
  }

  lemma EvolvedExpired(row: seq<Tid>, keys: Keys, timers: Timers, row': seq<Tid>, keys': Keys, timers': Timers,
                       now: int, touched: set<Tid>)
    requires Evolved(row, keys, timers, row', keys', timers', now, touched)
    ensures Expired(row', keys', now) <= Expired(row, keys, now)
  {
    forall t | t in Expired(row', keys', now)
      ensures t in Expired(row, keys, now)
    {
    }
  }

  lemma EvolvedKeys(row: seq<Tid>, keys: Keys, timers: Timers, row': seq<Tid>, keys': Keys, timers': Timers,
                    now: int, touched: set<Tid>)
    requires Evolved(row, keys, timers, row', keys', timers', now, touched)
    ensures timers'.Keys == timers.Keys
  {
  }

  lemma EvolvedMore(row: seq<Tid>, keys: Keys, timers: Timers, row': seq<Tid>, keys': Keys, timers': Timers,
                    now: int, touched: set<Tid>, more: set<Tid>)
    requires Evolved(row, keys, timers, row', keys', timers', now, touched) && touched <= more
    ensures Evolved(row, keys, timers, row', keys', timers', now, more)
  {
  }

  lemma NotExpired(row: seq<Tid>, keys: Keys, timers: Timers, row': seq<Tid>, keys': Keys, timers': Timers,
                   now: int, touched: set<Tid>, t: Tid)
    requires Evolved(row, keys, timers, row', keys', timers', now, touched) && t !in Expired(row, keys, now)
    ensures t !in Expired(row', keys', now)
  {
  }

  lemma MemberTimed(row: seq<Tid>, timers: Timers, keys: Keys, now: int, starts: nat, t: Tid)
    requires AllTimed(row, timers, keys, now, starts) && t in row
    ensures Timed(timers, keys, now, starts, t)
  {
  }

  lemma AllTimedFlag(row: seq<Tid>, timers: Timers, timers': Timers, keys: Keys, now: int, starts: nat)
    requires AllTimed(row, timers, keys, now, starts) && timers.Keys == timers'.Keys
    requires forall t :: t in timers ==> timers'[t].timeoutTick == timers[t].timeoutTick
    ensures AllTimed(row, timers', keys, now, starts)
  {
  }

  ghost predicate HasFired(f: seq<Fired>, t: Tid) {
    exists k :: 0 <= k < |f| && f[k].id == t
  }

  /** l extends l0 by timers that had expired at time now, each fired at time now, in
      the order of their keys. */
  ghost predicate Drained(l0: seq<Fired>, l: seq<Fired>, row: seq<Tid>, keys: Keys, now: int) {
    && l0 <= l
    && (forall k :: |l0| <= k < |l| ==>
      l[k].at == now && l[k].id in Expired(row, keys, now) && l[k].key == keys[l[k].id])
    && (forall i, j :: |l0| <= i < j < |l| ==> KeyLess(l[i].key, l[j].key))
  }

  /** What is still expired was expired at the beginning, and comes after what fired. */
  ghost predicate Draining(l0: seq<Fired>, l: seq<Fired>, r0: seq<Tid>, k0: Keys, row: seq<Tid>, keys: Keys, now: int) {
    && Drained(l0, l, r0, k0, now)
    && (forall t :: t in Expired(row, keys, now) ==> t in Expired(r0, k0, now) && keys[t] == k0[t])
    && (forall k, t :: |l0| <= k < |l| && t in Expired(row, keys, now) ==> KeyLess(l[k].key, keys[t]))
  }

  /** Timers outside `touched` either fired, having expired, or are as they were. */
  ghost predicate Fate(l0: seq<Fired>, l: seq<Fired>, r0: seq<Tid>, k0: Keys, row: seq<Tid>, keys: Keys, now: int,
                       touched: set<Tid>) {
    && l0 <= l
    && forall t :: t in r0 && t in k0 && t !in touched ==>
         (k0[t].due <= now && HasFired(l[|l0|..], t)) || (t in row && t in keys && keys[t] == k0[t])
  }

  lemma DrainStep(l0: seq<Fired>, l: seq<Fired>, r0: seq<Tid>, k0: Keys, row: seq<Tid>, keys: Keys, timers: Timers,
                  row': seq<Tid>, keys': Keys, timers': Timers, now: int, touched: set<Tid>, stranded: bool)
    requires Draining(l0, l, r0, k0, row, keys, now) && Fate(l0, l, r0, k0, row, keys, now, touched)
    requires row != [] && row[0] in Expired(row, keys, now) && row[0] !in Expired(row', keys', now)
    requires forall t :: t in row ==> t == row[0] || Before(keys, row[0], t)
    requires Evolved(row, keys, timers, row', keys', timers', now, touched + {row[0]})
    ensures var f := l + [Fired(row[0], keys[row[0]], now, stranded)];
      Draining(l0, f, r0, k0, row', keys', now) && Fate(l0, f, r0, k0, row', keys', now, touched)
    ensures Expired(row', keys', now) < Expired(row, keys, now)
  {
    var f := l + [Fired(row[0], keys[row[0]], now, stranded)];
    EvolvedExpired(row, keys, timers, row', keys', timers', now, touched + {row[0]});
    forall t | t in r0 && t in k0 && t !in touched
      ensures (k0[t].due <= now && HasFired(f[|l0|..], t)) || (t in row' && t in keys' && keys'[t] == k0[t])
    {
      if HasFired(l[|l0|..], t) {
        var k :| 0 <= k < |l[|l0|..]| && l[|l0|..][k].id == t;
        assert f[|l0|..][k].id == t;
      } else if t == row[0] {
        assert f[|l0|..][|l| - |l0|].id == t;
      }
    }
  }

  /** Who is adrift after timers fired: only timers that were or were left so, and every one
      of them that is not touched. */
  ghost predicate Drifted(adrift0: set<Tid>, l0: seq<Fired>, l: seq<Fired>, adrift: set<Tid>, touched: set<Tid>) {
    && l0 <= l && adrift <= adrift0 + StrandedIn(l[|l0|..])
    && adrift0 + StrandedIn(l[|l0|..]) <= adrift + touched
  }

  lemma DriftStep(adrift0: set<Tid>, l0: seq<Fired>, l: seq<Fired>, adrift: set<Tid>, touched: set<Tid>,
                  timers: Timers, live: set<Tid>, t: Tid,
                  f: Fired, adrift': set<Tid>)
    requires Drifted(adrift0, l0, l, adrift, touched) && t in timers &&
      OpsAllowed(timers, timers[t].script, live, touched)
    requires f.id == t && f.stranded == Stranded(timers[t], t)
    requires adrift' == adrift - Handled(timers[t].script) + if f.stranded then {t} else {}
    ensures Drifted(adrift0, l0, l + [f], adrift', touched)
  {
    StrandedMore(l[|l0|..], f);
    assert (l + [f])[|l0|..] == l[|l0|..] + [f];
    assert Handled(timers[t].script) <= touched;
  }

  lemma DriftJoin(adrift0: set<Tid>, l0: seq<Fired>, l1: seq<Fired>, adrift1: set<Tid>,
                  l2: seq<Fired>, adrift2: set<Tid>, touched: set<Tid>)
    requires Drifted(adrift0, l0, l1, adrift1, touched) && Drifted(adrift1, l1, l2, adrift2, touched)
    ensures Drifted(adrift0, l0, l2, adrift2, touched)
  {
    StrandedJoin(l1[|l0|..], l2[|l1|..]);
    assert l2[|l0|..] == l1[|l0|..] + l2[|l1|..];
  }

  /** A step without a firing. */
  lemma DriftStays(adrift: set<Tid>, l: seq<Fired>, handled: set<Tid>, touched: set<Tid>)
    requires handled <= touched
    ensures Drifted(adrift, l, l, adrift - handled, touched)
  {
    assert l[|l|..] == [];
  }

  lemma FateDone(l0: seq<Fired>, l: seq<Fired>, r0: seq<Tid>, k0: Keys, row: seq<Tid>, keys: Keys, now: int,
                 touched: set<Tid>)
    requires Fate(l0, l, r0, k0, row, keys, now, touched) && Expired(row, keys, now) == {}
    ensures forall t :: t in r0 && t in k0 && t !in touched ==>
      if k0[t].due <= now then HasFired(l[|l0|..], t) else t in row && t in keys && keys[t] == k0[t]
  {
    forall t | t in r0 && t in k0 && t !in touched && k0[t].due <= now
      ensures HasFired(l[|l0|..], t)
    {
      assert t !in Expired(row, keys, now);
    }
  }

  lemma HeadFirst(rows: seq<seq<Tid>>, keys: Keys)
    requires SkipList(rows, keys) && Last(rows) != []
    ensures Last(rows)[0] in keys
    ensures forall t :: t in Last(rows) ==> t == Last(rows)[0] || Before(keys, Last(rows)[0], t)
  {
    HeadIsEarliest(Last(rows), keys);
  }

  lemma NothingExpired(rows: seq<seq<Tid>>, keys: Keys, now: int)
    requires SkipList(rows, keys)
    requires Last(rows) == [] || (Last(rows)[0] in keys && keys[Last(rows)[0]].due > now)
    ensures Expired(Last(rows), keys, now) == {}
  {
    if Last(rows) != [] { HeadFirst(rows, keys); }
  }

  ghost predicate FiredAt(f: seq<Fired>, t: Tid, at: int) {
    exists k :: 0 <= k < |f| && f[k].id == t && f[k].at == at
  }

  /** l extends l0, and every timer that fired meanwhile fired when it was due. */
  ghost predicate OnTime(l0: seq<Fired>, l: seq<Fired>) {
    l0 <= l && forall k :: |l0| <= k < |l| ==> l[k].at == l[k].key.due
  }

  ghost predicate Waiting(l0: seq<Fired>, l: seq<Fired>, r0: seq<Tid>, k0: Keys, row: seq<Tid>, keys: Keys, now: int,
                          touched: set<Tid>) {
    && l0 <= l
    && forall t :: t in r0 && t in k0 && t !in touched ==>
         if k0[t].due <= now then FiredAt(l[|l0|..], t, k0[t].due) else t in row && t in keys && keys[t] == k0[t]
  }

  // ----- a timer by itself -----

  /** No timeout function acts on x. */
  ghost predicate Free(timers: Timers, x: Tid) {
    x in timers && forall t, k :: t in timers && 0 <= k < |timers[t].script| ==> timers[t].script[k].id != x
  }

  /** At its time a periodic timer is started again for one period, and another one ends. */
  ghost function Ticked(m: Mark, now: int): Mark {
    if !m.started || m.due > now then m
    else if m.periodic then m.(due := now + m.period, active := true)
    else m.(started := false, due := 0, active := false)
  }

  /** When x fired. */
  ghost function TimesOf(l: seq<Fired>, x: Tid): seq<int> {
    if l == [] then []
    else TimesOf(l[..|l| - 1], x) + if l[|l| - 1].id == x then [l[|l| - 1].at] else []
  }

  lemma {:induction false} TimesJoin(l: seq<Fired>, k: seq<Fired>, x: Tid)
    ensures TimesOf(l + k, x) == TimesOf(l, x) + TimesOf(k, x)
  {
    if k == [] {
      assert l + k == l;
    } else {
      assert (l + k)[..|l + k| - 1] == l + k[..|k| - 1];
      TimesJoin(l, k[..|k| - 1], x);
    }
  }

  lemma {:induction false} AfterFree(ops: seq<Op>, x: Tid, m: Mark, now: int)
    requires forall k :: 0 <= k < |ops| ==> ops[k].id != x
    ensures After(ops, x, m, now) == m
  {
    if ops != [] { AfterFree(ops[..|ops| - 1], x, m, now); }
  }

  /** During the check a free timer is as before, or it fired, being due, and is as after its
      time. */
  ghost predicate Settling(row0: seq<Tid>, keys0: Keys, timers0: Timers, row: seq<Tid>, keys: Keys, timers: Timers,
                           l0: seq<Fired>, l: seq<Fired>, now: int) {
    && l0 <= l && SameShape(timers0, timers)
    && forall x :: Free(timers0, x) ==>
         SettlingFor(x, MarkOf(row0, keys0, timers0, x), MarkOf(row, keys, timers, x), TimesOf(l[|l0|..], x), now)
  }

  ghost predicate SettlingFor(x: Tid, m0: Mark, m: Mark, times: seq<int>, now: int) {
    (m == m0 && times == []) || (m0.started && m0.due <= now && m == Ticked(m0, now) && times == [now])
  }

  lemma SettlesNone(row: seq<Tid>, keys: Keys, timers: Timers, l: seq<Fired>, now: int)
    ensures Settling(row, keys, timers, row, keys, timers, l, l, now)
  {
    assert l[|l|..] == [];
  }

  lemma SettlesRound(row0: seq<Tid>, keys0: Keys, timers0: Timers, row: seq<Tid>, keys: Keys, timers: Timers,
                     row': seq<Tid>, keys': Keys, timers': Timers, l0: seq<Fired>, l: seq<Fired>, f: Fired, now: int)
    requires Settling(row0, keys0, timers0, row, keys, timers, l0, l, now) && SameShape(timers, timers')
    requires forall x :: x in timers0 && timers0[x].periodic ==> timers0[x].initTick >= 1
    requires f.id in timers && f.at == now && f.id in row && f.id in keys && keys[f.id].due <= now
    requires Round(f.id, row, keys, timers, row', keys', timers', now)
    ensures Settling(row0, keys0, timers0, row', keys', timers', l0, l + [f], now)
  {
    forall x | Free(timers0, x)
      ensures SettlingFor(x, MarkOf(row0, keys0, timers0, x), MarkOf(row', keys', timers', x),
        TimesOf((l + [f])[|l0|..], x), now)
    {
      SettlesOne(row0, keys0, timers0, row, keys, timers, row', keys', timers', l0, l, f, now, x);
    }
  }

  lemma SettlesOne(row0: seq<Tid>, keys0: Keys, timers0: Timers, row: seq<Tid>, keys: Keys, timers: Timers,
                   row': seq<Tid>, keys': Keys, timers': Timers, l0: seq<Fired>, l: seq<Fired>, f: Fired, now: int,
                   x: Tid)
    requires Settling(row0, keys0, timers0, row, keys, timers, l0, l, now) && SameShape(timers, timers')
    requires forall x :: x in timers0 && timers0[x].periodic ==> timers0[x].initTick >= 1
    requires f.id in timers && f.at == now && f.id in row && f.id in keys && keys[f.id].due <= now
    requires Round(f.id, row, keys, timers, row', keys', timers', now) && Free(timers0, x)
    ensures SettlingFor(x, MarkOf(row0, keys0, timers0, x), MarkOf(row', keys', timers', x),
      TimesOf((l + [f])[|l0|..], x), now)
  {
    assert (l + [f])[|l0|..] == l[|l0|..] + [f];
    TimesJoin(l[|l0|..], [f], x);
    assert [f][..0] == [] && TimesOf([f], x) == if f.id == x then [now] else [];
    var ops, m := timers[f.id].script, MarkOf(row, keys, timers, x);
    assert SettlingFor(x, MarkOf(row0, keys0, timers0, x), m, TimesOf(l[|l0|..], x), now);
    assert forall k :: 0 <= k < |ops| ==> ops[k].id != x by { assert timers0[f.id].script == ops; }
    AfterFree(ops, x, m, now);
    AfterFree(ops, x, m.(started := false, due := 0, active := m.periodic), now);
    hide After, TimesOf;
  }

  lemma SettlesLast(row0: seq<Tid>, keys0: Keys, timers0: Timers, row: seq<Tid>, keys: Keys, timers: Timers,
                    l0: seq<Fired>, l: seq<Fired>, now: int)
    requires Settling(row0, keys0, timers0, row, keys, timers, l0, l, now) && Expired(row, keys, now) == {}
    requires forall x :: x in row ==> x in keys
    ensures Settled(row0, keys0, timers0, row, keys, timers, l0, l, now)
  {
    forall x | Free(timers0, x)
      ensures MarkOf(row, keys, timers, x) == Ticked(MarkOf(row0, keys0, timers0, x), now)
      ensures TimesOf(l[|l0|..], x) == FiresAt(MarkOf(row0, keys0, timers0, x), now)
    {
      assert SettlingFor(x, MarkOf(row0, keys0, timers0, x), MarkOf(row, keys, timers, x), TimesOf(l[|l0|..], x), now);
      assert x !in Expired(row, keys, now);
    }
  }

  ghost function FiresAt(m: Mark, now: int): seq<int> {
    if m.started && m.due <= now then [now] else []
  }

  /** After the check every free timer that was due has fired, once. */
  ghost predicate Settled(row0: seq<Tid>, keys0: Keys, timers0: Timers, row: seq<Tid>, keys: Keys, timers: Timers,
                          l0: seq<Fired>, l: seq<Fired>, now: int) {
    && l0 <= l && SameShape(timers0, timers)
    && (forall x :: Free(timers0, x) ==>
          MarkOf(row, keys, timers, x) == Ticked(MarkOf(row0, keys0, timers0, x), now))
    && (forall x :: Free(timers0, x) ==> TimesOf(l[|l0|..], x) == FiresAt(MarkOf(row0, keys0, timers0, x), now))
  }

  // ----- runs -----

  /** The tick interrupt, or what a thread does to a timer. */
  datatype Move = Clock | Call(op: Op)

  /** What becomes of a timer by itself, and when it fires. */
  ghost function Alone(moves: seq<Move>, x: Tid, m: Mark, now: int): (Mark, seq<int>) {
    if moves == [] then (m, [])
    else
      var before := moves[..|moves| - 1];
      var (a, times) := Alone(before, x, m, now);
      var at := now + Ticks(before);
      match moves[|moves| - 1]
      case Clock => (Ticked(a, at + 1), times + FiresAt(a, at + 1))
      case Call(op) => (AfterOp(op, x, a, at), times)
  }

  /** In a run every free timer does what it would do by itself. */
  ghost predicate Apart(moves: seq<Move>, row0: seq<Tid>, keys0: Keys, timers0: Timers, now0: int,
                        row: seq<Tid>, keys: Keys, timers: Timers, l0: seq<Fired>, l: seq<Fired>) {
    && l0 <= l && SameShape(timers0, timers)
    && (forall x :: Free(timers0, x) ==>
          MarkOf(row, keys, timers, x) == Alone(moves, x, MarkOf(row0, keys0, timers0, x), now0).0)
    && (forall x :: Free(timers0, x) ==>
          TimesOf(l[|l0|..], x) == Alone(moves, x, MarkOf(row0, keys0, timers0, x), now0).1)
  }

  lemma ApartNone(row: seq<Tid>, keys: Keys, timers: Timers, now: int, l: seq<Fired>)
    ensures Apart([], row, keys, timers, now, row, keys, timers, l, l)
  {
    assert l[|l|..] == [];
  }

  lemma AloneMore(moves: seq<Move>, i: nat, x: Tid, m: Mark, now: int)
    requires i < |moves|
    ensures var (a, times) := Alone(moves[..i], x, m, now);
            var at := now + Ticks(moves[..i]);
            Alone(moves[..i + 1], x, m, now) == match moves[i]
              case Clock => (Ticked(a, at + 1), times + FiresAt(a, at + 1))
              case Call(op) => (AfterOp(op, x, a, at), times)
  {
    assert moves[..i + 1][..i] == moves[..i];
    hide Ticked, FiresAt, AfterOp, Ticks;
  }

  lemma ApartTick(moves: seq<Move>, i: nat, row0: seq<Tid>, keys0: Keys, timers0: Timers, now0: int,
                  row1: seq<Tid>, keys1: Keys, timers1: Timers, row: seq<Tid>, keys: Keys, timers: Timers,
                  l0: seq<Fired>, l1: seq<Fired>, l: seq<Fired>)
    requires i < |moves| && moves[i].Clock?
    requires Apart(moves[..i], row0, keys0, timers0, now0, row1, keys1, timers1, l0, l1)
    requires Settled(row1, keys1, timers1, row, keys, timers, l1, l, now0 + Ticks(moves[..i]) + 1)
    ensures Apart(moves[..i + 1], row0, keys0, timers0, now0, row, keys, timers, l0, l)
  {
    assert l[|l0|..] == l1[|l0|..] + l[|l1|..];
    forall x | Free(timers0, x)
      ensures MarkOf(row, keys, timers, x) == Alone(moves[..i + 1], x, MarkOf(row0, keys0, timers0, x), now0).0
      ensures TimesOf(l[|l0|..], x) == Alone(moves[..i + 1], x, MarkOf(row0, keys0, timers0, x), now0).1
    {
      assert Free(timers1, x);
      TimesJoin(l1[|l0|..], l[|l1|..], x);
      AloneMore(moves, i, x, MarkOf(row0, keys0, timers0, x), now0);
      hide Alone, Ticks, TimesOf, MarkOf, Ticked, FiresAt;
    }
  }

  lemma ApartCall(moves: seq<Move>, i: nat, row0: seq<Tid>, keys0: Keys, timers0: Timers, now0: int,
                  row1: seq<Tid>, keys1: Keys, timers1: Timers, row: seq<Tid>, keys: Keys, timers: Timers,
                  l0: seq<Fired>, l: seq<Fired>)
    requires i < |moves| && moves[i].Call? && SameShape(timers1, timers)
    requires Apart(moves[..i], row0, keys0, timers0, now0, row1, keys1, timers1, l0, l)
    requires Marked([moves[i].op], row1, keys1, timers1, row, keys, timers, now0 + Ticks(moves[..i]))
    ensures Apart(moves[..i + 1], row0, keys0, timers0, now0, row, keys, timers, l0, l)
  {
    forall x | Free(timers0, x)
      ensures MarkOf(row, keys, timers, x) == Alone(moves[..i + 1], x, MarkOf(row0, keys0, timers0, x), now0).0
      ensures TimesOf(l[|l0|..], x) == Alone(moves[..i + 1], x, MarkOf(row0, keys0, timers0, x), now0).1
    {
      AloneMore(moves, i, x, MarkOf(row0, keys0, timers0, x), now0);
      AfterOne(moves[i].op, x, MarkOf(row1, keys1, timers1, x), now0 + Ticks(moves[..i]));
      hide Alone, Ticks, MarkOf, After, AfterOp;
    }
  }

  function Ticks(moves: seq<Move>): nat {
    if moves == [] then 0 else Ticks(moves[..|moves| - 1]) + if moves[|moves| - 1].Clock? then 1 else 0
  }

  ghost predicate MovesAllowed(timers: Timers, moves: seq<Move>, live: set<Tid>, touched: set<Tid>) {
    forall k :: 0 <= k < |moves| && moves[k].Call? ==> OpsAllowed(timers, [moves[k].op], live, touched)
  }

  lemma TickWindow(row: seq<Tid>, timers: Timers, keys: Keys, now: int, starts: nat)
    requires AllTimed(row, timers, keys, now, starts) && Expired(row, keys, now) == {}
    ensures AllTimed(row, timers, keys, now + 1, starts)
    ensures forall t :: t in row && t in keys ==> keys[t].due >= now + 1
  {
    forall t | t in row && t in keys
      ensures keys[t].due >= now + 1
    {
      assert t !in Expired(row, keys, now);
    }
  }

  lemma FiredNow(l0: seq<Fired>, l: seq<Fired>, row: seq<Tid>, keys: Keys, now: int)
    requires Drained(l0, l, row, keys, now)
    requires forall t :: t in row && t in keys ==> keys[t].due >= now
    ensures OnTime(l0, l)
    ensures forall t :: HasFired(l[|l0|..], t) ==> FiredAt(l[|l0|..], t, now)
  {
    forall k | |l0| <= k < |l|
      ensures l[k].at == l[k].key.due == now
    {
      assert l[k].id in Expired(row, keys, now);
    }
  }

  lemma WaitingStep(l0: seq<Fired>, l: seq<Fired>, l': seq<Fired>, r0: seq<Tid>, k0: Keys, row: seq<Tid>, keys: Keys,
                    row': seq<Tid>, keys': Keys, now: int, touched: set<Tid>)
    requires Waiting(l0, l, r0, k0, row, keys, now - 1, touched) && l <= l'
    requires forall t :: t in row && t in keys && t !in touched ==>
      if keys[t].due == now then FiredAt(l'[|l|..], t, now) else t in row' && t in keys' && keys'[t] == keys[t]
    ensures Waiting(l0, l', r0, k0, row', keys', now, touched)
  {
    forall t | t in r0 && t in k0 && t !in touched && k0[t].due <= now
      ensures FiredAt(l'[|l0|..], t, k0[t].due)
    {
      if k0[t].due <= now - 1 {
        var k :| 0 <= k < |l[|l0|..]| && l[|l0|..][k].id == t && l[|l0|..][k].at == k0[t].due;
        assert l'[|l0|..][k] == l[|l0|..][k];
      } else {
        var k :| 0 <= k < |l'[|l|..]| && l'[|l|..][k].id == t && l'[|l|..][k].at == now;
        assert l'[|l0|..][k + |l| - |l0|] == l'[|l|..][k];
      }
    }
  }

  /** Linking t and setting its flag and key restores the invariant for t. */
  lemma LinkedTimed(timers: Timers, w: seq<Tid>, row: seq<Tid>, temp: seq<Tid>, adrift: set<Tid>, keys: Keys, now: int,
                    starts: nat, t: Tid)
    requires t in timers && t !in w && t !in temp && t !in adrift && timers[t].initTick < HALF_TICKS
    requires timers[t].timeoutTick == (now + timers[t].initTick) % WORD
    requires AllTimed(w, timers, keys, now, starts) && AllFlagged(timers, w, temp, adrift, {t})
    requires forall x :: x in row <==> x == t || x in w
    ensures var after := timers[t := timers[t].(active := true)];
      && AllTimed(row, after, keys[t := Key(now + timers[t].initTick, starts)], now, starts + 1)
      && AllFlagged(after, row, temp, adrift, {})
  {
  }

  class TimerList {
    var rows: seq<seq<Tid>>
    var timers: map<Tid, Timer>
    var tick: nat
    var randomNr: nat
    var temp: seq<Tid>       // the temporary list of rt_timer_check
    const radix: nat         // RT_TIMER_SKIP_LIST_MASK + 1

    ghost var now: int
    ghost var keys: Keys
    ghost var starts: nat
    ghost var log: seq<Fired>
    ghost var adrift: set<Tid>  // timers that are active and not started

    ghost predicate Clock()
      reads this
    {
      tick < WORD && tick == now % WORD && randomNr < WORD && radix in {2, 4}
    }

    ghost predicate Valid()
      reads this
    {
      && Clock() && rows != [] && SkipList(rows, keys)
      && AllTimed(Last(rows), timers, keys, now, starts)
      && AllFlagged(timers, Last(rows), temp, adrift, {})
    }

    /** rt_system_timer_init. */
    constructor (levels: nat, mask: nat)
      requires levels > 0 && mask in {1, 3}
      ensures Valid() && timers == map[] && now == 0 && log == [] && temp == [] && adrift == {}
      ensures tick == 0 && randomNr == 0 && radix == mask + 1
      ensures |rows| == levels && forall r :: 0 <= r < levels ==> rows[r] == []
    {
      rows := seq(levels, _ => []);
      timers, tick, randomNr, temp := map[], 0, 0, [];
      radix := mask + 1;
      now, keys, starts, log, adrift := 0, map[], 0, [], {};
    }

    /** _rt_timer_remove: out of every row, or out of the temporary list. */
    method Remove(t: Tid)
      requires SkipList(rows, keys)
      modifies this`rows, this`temp
      ensures |rows| == |old(rows)| && SkipList(rows, keys)
      ensures forall r :: 0 <= r < |rows| ==> rows[r] == Without(old(rows)[r], t)
      ensures temp == Without(old(temp), t)
    {
      for i := 0 to |rows|
        invariant |rows| == |old(rows)| && temp == old(temp)
        invariant forall r :: 0 <= r < i ==> rows[r] == Without(old(rows)[r], t)
        invariant forall r :: i <= r < |rows| ==> rows[r] == old(rows)[r]
      {
        rows := rows[i := Without(rows[i], t)];
      }
      temp := Without(temp, t);
      WithoutSkipList(old(rows), rows, keys, t);
    }

    /** One row of the search in rt_timer_start, from position `from` on. */
    method ScanRow(row: seq<Tid>, from: int, timeout: nat, ghost due: int) returns (pos: int)
      requires Ascending(row, keys) && AllTimed(row, timers, keys, now, starts)
      requires timeout == due % WORD && now <= due < now + HALF_TICKS
      requires -1 <= from < |row| && (from >= 0 ==> keys[row[from]].due <= due)
      ensures -1 <= pos < |row| && IsCut(row, keys, due, pos + 1)
    {
      pos := from;
      if pos >= 0 { PrefixDue(row, keys, due, pos); }
      while pos != |row| - 1
        invariant -1 <= pos < |row|
        invariant forall i :: 0 <= i <= pos ==> keys[row[i]].due <= due
        decreases |row| - pos
      {
        assert Timed(timers, keys, now, starts, row[pos + 1]);
        var t := timers[row[pos + 1]];
        DifferenceOrders(now, keys[row[pos + 1]].due, due);
        if Sub(t.timeoutTick, timeout) == 0 {
          pos := pos + 1;
        } else if Sub(t.timeoutTick, timeout) < HALF_TICKS {
          break;
        } else {
          pos := pos + 1;
        }
      }
    }

    /** The search of rt_timer_start: each row is entered where the previous one was
        left, and is left where a scan of the whole row would stop. */
    method Search(timeout: nat, ghost due: int) returns (heads: seq<int>)
      requires rows != [] && SkipList(rows, keys) && AllTimed(Last(rows), timers, keys, now, starts)
      requires timeout == due % WORD && now <= due < now + HALF_TICKS
      ensures |heads| == |rows|
      ensures forall r :: 0 <= r < |rows| ==> -1 <= heads[r] < |rows[r]| && IsCut(rows[r], keys, due, heads[r] + 1)
    {
      heads := [];
      var pos := -1;
      for r := 0 to |rows|
        invariant |heads| == r && (r == 0 ==> pos == -1)
        invariant forall q :: 0 <= q < r ==> -1 <= heads[q] < |rows[q]| && IsCut(rows[q], keys, due, heads[q] + 1)
        invariant r > 0 ==> pos == heads[r - 1]
      {
        if r > 0 && pos != -1 {
          assert rows[r - 1][pos] in rows[r - 1] && Contained(rows[r - 1], rows[r]);
          pos := Position(rows[r], rows[r - 1][pos]);
        }
        forall x | x in rows[r]
          ensures Timed(timers, keys, now, starts, x)
        {
          RowTimed(rows, keys, r, x);
        }
        pos := ScanRow(rows[r], pos, timeout, due);
        heads := heads + [pos];
      }
    }

    /** The insertions of rt_timer_start: into the bottom row, and upwards as long as
        the bits of the counter are zero. */
    method Insert(t: Tid, heads: seq<int>)
      requires 0 < |rows| == |heads| && radix in {2, 4} && randomNr < WORD
      requires forall r :: 0 <= r < |rows| ==> -1 <= heads[r] < |rows[r]|
      modifies this`rows, this`randomNr
      ensures randomNr == (old(randomNr) + 1) % WORD && |rows| == |old(rows)|
      ensures forall r :: 0 <= r < |rows| ==>
        rows[r] == if |rows| - 1 - Height(randomNr, radix, |rows| - 1) <= r
                   then Splice(old(rows)[r], heads[r] + 1, t) else old(rows)[r]
    {
      randomNr := (randomNr + 1) % WORD;
      var tst: nat := randomNr;
      ghost var nr := randomNr;
      var r := |rows| - 1;
      rows := rows[r := Splice(rows[r], heads[r] + 1, t)];
      while r > 0
        invariant 0 <= r < |rows| == |old(rows)| && tst < WORD && randomNr == nr
        invariant forall q :: 0 <= q < r ==> rows[q] == old(rows)[q]
        invariant forall q :: r <= q < |rows| ==> rows[q] == Splice(old(rows)[q], heads[q] + 1, t)
        invariant Height(randomNr, radix, |rows| - 1) == |rows| - 1 - r + Height(tst, radix, r)
      {
        if tst % radix != 0 { break; }
        r := r - 1;
        rows := rows[r := Splice(rows[r], heads[r] + 1, t)];
        tst := tst / radix;
      }
    }

    /** The invariant without timer t, which is in no row and inactive. */
    ghost predicate ValidBut(t: Tid)
      reads this
    {
      && Clock() && rows != [] && SkipList(rows, keys)
      && AllTimed(Last(rows), timers, keys, now, starts)
      && AllFlagged(timers, Last(rows), temp, adrift, {t})
      && t in timers && t !in Last(rows) && t !in temp && t !in adrift && !timers[t].active
    }

    /** rt_timer_start up to the search: out of all lists, inactive, timeout set. */
    method Withdraw(t: Tid)
      requires Valid() && t in timers
      modifies this`rows, this`temp, this`timers, this`adrift
      ensures ValidBut(t) && |rows| == |old(rows)| && temp == Without(old(temp), t) && adrift == old(adrift) - {t}
      ensures forall x :: x in Last(rows) <==> x in Last(old(rows)) && x != t
      ensures forall r :: 0 <= r < |rows| ==> rows[r] == Without(old(rows)[r], t)
      ensures timers == old(timers)[t := old(timers)[t].(active := false,
        timeoutTick := (tick + old(timers)[t].initTick) % WORD)]
      ensures timers[t].timeoutTick == (now + timers[t].initTick) % WORD
    {
      hide SkipList;
      Remove(t);
      timers := timers[t := timers[t].(active := false)];
      timers := timers[t := timers[t].(timeoutTick := (tick + timers[t].initTick) % WORD)];
      adrift := adrift - {t};
      assert Last(rows) == Without(old(Last(rows)), t);
    }

    /** rt_timer_start. */
    method Start(t: Tid)
      requires Valid() && t in timers && timers[t].initTick < HALF_TICKS
      modifies this
      ensures Valid() && now == old(now) && tick == old(tick) && log == old(log) && starts == old(starts) + 1
      ensures timers == old(timers)[t := old(timers)[t].(active := true,
        timeoutTick := (tick + old(timers)[t].initTick) % WORD)]
      ensures keys == old(keys)[t := Key(now + old(timers)[t].initTick, old(starts))]
      ensures temp == Without(old(temp), t) && adrift == old(adrift) - {t} && randomNr == (old(randomNr) + 1) % WORD
      ensures Started(old(rows), rows, old(keys), keys[t].due, t, Height(randomNr, radix, |rows| - 1))
      ensures forall x :: x in Last(rows) <==> x == t || x in Last(old(rows))
    {
      hide SkipList, Without, Started, AllTimed, AllFlagged;
      ghost var before := rows;
      Withdraw(t);
      Link(t, before);
    }

    /** The search and the insertions of rt_timer_start. */
    method Link(t: Tid, ghost before: seq<seq<Tid>>)
      requires ValidBut(t) && timers[t].initTick < HALF_TICKS &&
        timers[t].timeoutTick == (now + timers[t].initTick) % WORD
      requires |rows| == |before| && SkipList(before, keys)
      requires forall r :: 0 <= r < |rows| ==> rows[r] == Without(before[r], t)
      modifies this`rows, this`timers, this`keys, this`starts, this`randomNr
      ensures Valid() && starts == old(starts) + 1 && randomNr == (old(randomNr) + 1) % WORD
      ensures timers == old(timers)[t := old(timers)[t].(active := true)]
      ensures keys == old(keys)[t := Key(now + old(timers)[t].initTick, old(starts))]
      ensures Started(before, rows, old(keys), keys[t].due, t, Height(randomNr, radix, |rows| - 1))
      ensures forall x :: x in Last(rows) <==> x == t || x in Last(old(rows))
    {
      hide SkipList, IsCut, Splice, Placed, Without, AllTimed, AllFlagged, Started;
      ghost var due, w, g := now + timers[t].initTick, rows, keys;
      var heads := Search(timers[t].timeoutTick, due);
      Insert(t, heads);
      ghost var key := Key(due, starts);
      BelowRows(w, t, key.order);
      ghost var h := Height(randomNr, radix, |rows| - 1);
      PlacedSkipList(w, rows, g, key, t, heads, h);
      PlacedStarted(before, w, rows, g, due, t, heads, h);
      LinkedTimed(timers, Last(w), Last(rows), temp, adrift, g, now, starts, t);
      timers := timers[t := timers[t].(active := true)];
      keys, starts := keys[t := key], starts + 1;
    }

    /** rt_timer_stop. */
    method Stop(t: Tid) returns (ok: bool)
      requires Valid() && t in timers
      modifies this`rows, this`temp, this`timers, this`adrift
      ensures Valid() && ok == old(timers)[t].active && adrift == old(adrift) - {t}
      ensures !ok ==> unchanged(this) && t !in adrift
      ensures ok ==> |rows| == |old(rows)| && forall r :: 0 <= r < |rows| ==> rows[r] == Without(old(rows)[r], t)
      ensures ok ==> timers == old(timers)[t := old(timers)[t].(active := false)] && temp == Without(old(temp), t)
    {
      if !timers[t].active { return false; }
      Remove(t);
      adrift := adrift - {t};
      timers := timers[t := timers[t].(active := false)];
      assert Last(rows) == Without(old(Last(rows)), t);
      ok := true;
    }

    /** rt_timer_control with RT_TIMER_CTRL_SET_TIME: takes effect at the next start. */
    method SetTime(t: Tid, ticks: nat)
      requires Valid() && t in timers && ticks < WORD
      modifies this`timers
      ensures Valid() && timers == old(timers)[t := old(timers)[t].(initTick := ticks)]
    {
      timers := timers[t := timers[t].(initTick := ticks)];
    }

    /** rt_timer_init: the timer is in no list. */
    method Init(t: Tid, ticks: nat, periodic: bool, script: seq<Op>)
      requires Valid() && t !in timers && ticks < WORD
      modifies this`timers
      ensures Valid() && timers == old(timers)[t := Timer(ticks, 0, periodic, false, script)]
    {
      timers := timers[t := Timer(ticks, 0, periodic, false, script)];
    }

    /** rt_timer_control with RT_TIMER_CTRL_SET_ONESHOT or RT_TIMER_CTRL_SET_PERIODIC. */
    method SetMode(t: Tid, periodic: bool)
      requires Valid() && t in timers
      modifies this`timers
      ensures Valid() && timers == old(timers)[t := old(timers)[t].(periodic := periodic)]
    {
      timers := timers[t := timers[t].(periodic := periodic)];
    }

    /** Outside the check a timer's active flag tells whether it is started, unless it is
        adrift. */
    lemma FlagRight(t: Tid)
      requires Valid() && t in timers
      ensures (timers[t].active <==> t in Last(rows)) <==> t !in adrift
      ensures t in adrift ==> timers[t].active && t !in Last(rows)
    {
    }

    /** rt_timer_list_next_timeout: no started timer is due before the one reported. */
    method NextTimeout() returns (timeout: nat)
      requires Valid()
      ensures Last(rows) == [] ==> timeout == WORD - 1
      ensures Last(rows) != [] ==> timeout == keys[Last(rows)[0]].due % WORD
      ensures forall t :: t in Last(rows) ==> keys[Last(rows)[0]].due <= keys[t].due
    {
      timeout := WORD - 1;
      if Last(rows) != [] {
        assert Timed(timers, keys, now, starts, Last(rows)[0]);
        timeout := timers[Last(rows)[0]].timeoutTick;
        HeadIsEarliest(Last(rows), keys);
      }
    }

    /** The script of a timeout function. */
    method RunScript(ops: seq<Op>, ghost live: set<Tid>, ghost touched: set<Tid>)
      requires Valid() && WellScripted(timers, live, touched) && OpsAllowed(timers, ops, live, touched)
      modifies this
      ensures Valid() && WellScripted(timers, live, touched)
      ensures now == old(now) && tick == old(tick) && log == old(log)
      ensures Evolved(Last(old(rows)), old(keys), old(timers), Last(rows), keys, timers, now, touched)
      ensures Effect(ops, old(timers), old(temp), old(adrift), timers, temp, adrift)
      ensures Marked(ops, Last(old(rows)), old(keys), old(timers), Last(rows), keys, timers, now)
    {
      hide SkipList, AllTimed, AllFlagged, Evolved, Handled, ModeAfter, Effect, Marked;
      EffectNone(timers, temp, adrift);
      MarkedNone(Last(rows), keys, timers, now);
      StayEvolves(Last(rows), keys, timers, timers, now);
      EvolvedMore(Last(rows), keys, timers, Last(rows), keys, timers, now, {}, touched);
      for k := 0 to |ops|
        invariant Valid() && WellScripted(timers, live, touched)
        invariant now == old(now) && tick == old(tick) && log == old(log)
        invariant Evolved(Last(old(rows)), old(keys), old(timers), Last(rows), keys, timers, now, touched)
        invariant Effect(ops[..k], old(timers), old(temp), old(adrift), timers, temp, adrift)
        invariant Marked(ops[..k], Last(old(rows)), old(keys), old(timers), Last(rows), keys, timers, now)
      {
        ghost var r, g, m, e, a := Last(rows), keys, timers, temp, adrift;
        EvolvedKeys(Last(old(rows)), old(keys), old(timers), r, g, m, now, touched);
        OneAllowed(timers, ops, k, live, touched, old(timers));
        RunOp(ops[k], live, touched);
        EffectMore(ops, k, old(timers), old(temp), old(adrift), m, e, a, timers, temp, adrift);
        MarkedMore(ops, k, Last(old(rows)), old(keys), old(timers), r, g, m, Last(rows), keys, timers, now);
        EvolvedTrans(Last(old(rows)), old(keys), old(timers), r, g, m, Last(rows), keys, timers, now, touched);
      }
      assert ops[..|ops|] == ops;
    }

    method RunOp(op: Op, ghost live: set<Tid>, ghost touched: set<Tid>)
      requires Valid() && WellScripted(timers, live, touched) && OpsAllowed(timers, [op], live, touched)
      modifies this
      ensures Valid() && WellScripted(timers, live, touched)
      ensures now == old(now) && tick == old(tick) && log == old(log)
      ensures Evolved(Last(old(rows)), old(keys), old(timers), Last(rows), keys, timers, now, touched)
      ensures Effect([op], old(timers), old(temp), old(adrift), timers, temp, adrift)
      ensures Marked([op], Last(old(rows)), old(keys), old(timers), Last(rows), keys, timers, now)
      ensures old(temp) == [] ==> temp == []
    {
      hide SkipList, AllTimed, AllFlagged, Started, Evolved, Effect, Marked;
      ghost var r, g, m, e, a := Last(rows), keys, timers, temp, adrift;
      assert op == [op][0];
      match op
      case Start(t) =>
        Start(t);
        StartDone(t, r, g, m, e, a, Last(rows), keys, timers, temp, keys[t], timers[t].timeoutTick, now, touched);
      case Stop(t) =>
        var _ := Stop(t);
        StopDone(t, r, g, m, e, a, Last(rows), timers, temp, now, touched);
      case SetTime(t, ticks) =>
        SetTime(t, ticks);
        SetDone(op, r, g, m, e, a, timers, now, touched);
      case SetMode(t, periodic) =>
        SetMode(t, periodic);
        SetDone(op, r, g, m, e, a, timers, now, touched);
    }

    /** One round of rt_timer_check: the first timer of the bottom row fires, and is
        started again when it is periodic and its timeout function left it alone. Its flag is
        wrong afterwards if and only if it was periodic, is one-shot now, and was neither
        started nor stopped meanwhile. */
    method FireHead(ghost live: set<Tid>, ghost touched: set<Tid>)
      requires Valid() && temp == [] && WellScripted(timers, live, touched)
      requires Last(rows) != [] && Last(rows)[0] in keys && keys[Last(rows)[0]].due <= now
      modifies this
      ensures Valid() && temp == [] && WellScripted(timers, live, touched)
      ensures now == old(now) && tick == old(tick) && timers.Keys == old(timers).Keys
      ensures var t := Last(old(rows))[0];
        && t in old(timers) && log == old(log) + [Fired(t, old(keys)[t], now, Stranded(old(timers)[t], t))]
        && adrift == old(adrift) - Handled(old(timers)[t].script) + (if Stranded(old(timers)[t], t) then {t} else {})
        && t !in Expired(Last(rows), keys, now)
        && Evolved(Last(old(rows)), old(keys), old(timers), Last(rows), keys, timers, now, touched + {t})
        && Round(t, Last(old(rows)), old(keys), old(timers), Last(rows), keys, timers, now)
    {
      hide SkipList, AllTimed, Started, Evolved, Handled, ModeAfter, Marked, Round;
      ghost var r0, k0, t0 := Last(rows), keys, timers;
      var t := Last(rows)[0];
      MemberTimed(r0, t0, k0, now, starts, t);
      ghost var all := touched + {t};
      log := log + [Fired(t, keys[t], now, Stranded(timers[t], t))];
      TakeHead(t);
      StopEvolves(r0, k0, t0, Last(rows), timers, t, now);
      EvolvedMore(r0, k0, t0, Last(rows), keys, timers, now, {t}, all);
      ghost var r1, k1, t1 := Last(rows), keys, timers;
      RunScript(timers[t].script, live, touched);
      EvolvedMore(r1, k1, t1, Last(rows), keys, timers, now, touched, all);
      EvolvedTrans(r0, k0, t0, r1, k1, t1, Last(rows), keys, timers, now, all);
      NotExpired(r1, k1, t1, Last(rows), keys, timers, now, touched, t);
      EvolvedKeys(r0, k0, t0, Last(rows), keys, timers, now, all);
      ghost var r2, k2, t2 := Last(rows), keys, timers;
      EndRound(t, live, touched);
      RoundIs(t, r0, k0, t0, r1, t1, r2, k2, t2, Last(rows), keys, timers, now);
      EvolvedMore(r2, k2, t2, Last(rows), keys, timers, now, {t}, all);
      EvolvedTrans(r0, k0, t0, r2, k2, t2, Last(rows), keys, timers, now, all);
      NotExpired(r2, k2, t2, Last(rows), keys, timers, now, {t}, t);
      EvolvedKeys(r0, k0, t0, Last(rows), keys, timers, now, all);
    }

    /** The end of a round, after the timeout function. */
    method EndRound(t: Tid, ghost live: set<Tid>, ghost touched: set<Tid>)
      requires Valid() && (forall x :: x in temp ==> x == t) && (t in adrift ==> t in temp) && t in timers &&
        WellScripted(timers, live, touched)
      modifies this
      ensures Valid() && temp == [] && WellScripted(timers, live, touched)
      ensures now == old(now) && tick == old(tick) && log == old(log)
      ensures Evolved(Last(old(rows)), old(keys), old(timers), Last(rows), keys, timers, now, {t})
      ensures adrift == old(adrift) - if old(timers)[t].periodic then {t} else {}
      ensures var again := old(timers)[t].active && t !in Last(old(rows)) && old(timers)[t].periodic;
        Marked(if again then [Op.Start(t)] else [], Last(old(rows)), old(keys), old(timers), Last(rows), keys, timers,
          now)
    {
      hide SkipList, AllTimed, Started, Evolved, Handled, ModeAfter, Marked;
      HangsIff(t);
      if temp == [] {
        MarkedNone(Last(rows), keys, timers, now);
        StayEvolves(Last(rows), keys, timers, timers, now);
        EvolvedMore(Last(rows), keys, timers, Last(rows), keys, timers, now, {}, {t});
        return;
      }
      assert temp[0] in temp;
      Rearm(t, live, touched);
    }

    /** A timer that is active and not started hangs on the temporary list during its round, if
        it was not adrift before. */
    lemma HangsIff(t: Tid)
      requires Valid() && t in timers && (t in adrift ==> t in temp)
      ensures temp == [] ==> !(timers[t].active && t !in Last(rows))
      ensures t in temp ==> t !in Last(rows)
    {
    }

    /** The head leaves the rows for the temporary list; a one-shot timer becomes
        inactive. */
    method TakeHead(t: Tid)
      requires Valid() && temp == [] && t in Last(rows) && t in timers
      modifies this`rows, this`temp, this`timers, this`adrift
      ensures Valid() && temp == [t] && timers == old(timers)[t := old(timers)[t].(active := old(timers)[t].periodic)]
      ensures adrift == old(adrift) + if old(timers)[t].periodic then {t} else {}
      ensures forall x :: x in Last(rows) <==> x != t && x in Last(old(rows))
    {
      Remove(t);
      if !timers[t].periodic { timers := timers[t := timers[t].(active := false)]; }
      temp := [t] + temp;
      if timers[t].periodic { adrift := adrift + {t}; }
      assert Last(rows) == Without(old(Last(rows)), t);
    }

    /** The end of a round when t still hangs on the temporary list. */
    method Rearm(t: Tid, ghost live: set<Tid>, ghost touched: set<Tid>)
      requires Valid() && temp != [] && (forall x :: x in temp ==> x == t) && WellScripted(timers, live, touched)
      modifies this
      ensures Valid() && temp == [] && WellScripted(timers, live, touched)
      ensures now == old(now) && tick == old(tick) && log == old(log)
      ensures Evolved(Last(old(rows)), old(keys), old(timers), Last(rows), keys, timers, now, {t})
      ensures t in old(timers) && adrift == old(adrift) - if old(timers)[t].periodic then {t} else {}
      ensures Marked(if old(timers)[t].periodic && old(timers)[t].active then [Op.Start(t)] else [], Last(old(rows)),
        old(keys), old(timers), Last(rows), keys, timers, now)
    {
      hide SkipList, AllTimed, Started, Evolved, Marked;
      ghost var r, g, m := Last(rows), keys, timers;
      assert t in temp by { assert temp[0] in temp && temp[0] == t; }
      assert t in timers && t !in Last(rows) && Flagged(timers, Last(rows), adrift, t);
      temp := [];
      if timers[t].periodic && timers[t].active {
        timers := timers[t := timers[t].(active := false)];
        adrift := adrift - {t};
        AllTimedFlag(r, m, timers, g, now, starts);
        Start(t);
        StartEvolves(r, g, m, Last(rows), timers, keys[t], t, now);
        MarkedStart(t, r, g, m, Last(rows), keys, timers, keys[t], timers[t].timeoutTick, now);
      } else {
        MarkedNone(r, g, m, now);
        StayEvolves(r, g, m, timers, now);
        EvolvedMore(r, g, m, r, g, timers, now, {}, {t});
      }
    }

    /** rt_timer_check: afterwards nothing is expired; what fired had expired, in
        order of (due time, start); what no timeout function touches fired or stays. */
    method Check(ghost live: set<Tid>, ghost touched: set<Tid>)
      requires Valid() && temp == [] && WellScripted(timers, live, touched)
      modifies this
      ensures Valid() && temp == [] && WellScripted(timers, live, touched)
      ensures now == old(now) && tick == old(tick) && timers.Keys == old(timers).Keys
      ensures Expired(Last(rows), keys, now) == {}
      ensures Drained(old(log), log, Last(old(rows)), old(keys), now)
      ensures Drifted(old(adrift), old(log), log, adrift, touched)
      ensures Settled(Last(old(rows)), old(keys), old(timers), Last(rows), keys, timers, old(log), log, now)
      ensures forall t :: t in Last(old(rows)) && t in old(keys) && t !in touched ==>
        if old(keys)[t].due <= now then HasFired(log[|old(log)|..], t)
          else t in Last(rows) && t in keys && keys[t] == old(keys)[t]
    {
      hide SkipList, AllFlagged, AllTimed, Started, Evolved, WellScripted, OpsAllowed, Drifted, Settling, Settled,
        Round, SameShape;
      ghost var r0, k0, l0, m0 := Last(rows), keys, log, timers;
      SettlesNone(r0, k0, m0, l0, now);
      PeriodsPositive(timers, live, touched);
      DriftStays(adrift, log, {}, touched);
      assert adrift - {} == adrift;
      while Last(rows) != []
        invariant Valid() && temp == [] && WellScripted(timers, live, touched)
        invariant now == old(now) && tick == old(tick) && timers.Keys == old(timers).Keys
        invariant Draining(l0, log, r0, k0, Last(rows), keys, now)
        invariant Fate(l0, log, r0, k0, Last(rows), keys, now, touched)
        invariant Drifted(old(adrift), l0, log, adrift, touched)
        invariant Settling(r0, k0, m0, Last(rows), keys, timers, l0, log, now)
        decreases Expired(Last(rows), keys, now)
      {
        ghost var r, g, m, l, a := Last(rows), keys, timers, log, adrift;
        ScriptAllowed(timers, live, touched);
        HeadFirst(rows, keys);
        MemberTimed(r, timers, keys, now, starts, r[0]);
        var t := timers[Last(rows)[0]];
        DifferenceExpires(now, keys[r[0]].due);
        if Sub(tick, t.timeoutTick) >= HALF_TICKS { break; }
        FireHead(live, touched);
        DrainStep(l0, l, r0, k0, r, g, m, Last(rows), keys, timers, now, touched, Stranded(m[r[0]], r[0]));
        DriftStep(old(adrift), l0, l, a, touched, m, live, r[0], log[|l|], adrift);
        EvolvedShape(r, g, m, Last(rows), keys, timers, now, touched + {r[0]});
        SettlesRound(r0, k0, m0, r, g, m, Last(rows), keys, timers, l0, l, log[|l|], now);
      }
      NothingExpired(rows, keys, now);
      RowKeyed(rows, keys);
      SettlesLast(r0, k0, m0, Last(rows), keys, timers, l0, log, now);
      FateDone(l0, log, r0, k0, Last(rows), keys, now, touched);
    }

    /** No started timer is due now or earlier: the state between clock ticks. */
    ghost predicate Quiet()
      requires rows != []
      reads this
    {
      Expired(Last(rows), keys, now) == {}
    }

    /** rt_tick_increase up to the check. */
    method Advance()
      requires Valid() && Quiet()
      modifies this`tick, this`now
      ensures Valid() && now == old(now) + 1
      ensures forall t :: t in Last(rows) && t in keys ==> keys[t].due >= now
    {
      hide SkipList, AllFlagged;
      TickWindow(Last(rows), timers, keys, now, starts);
      tick := (tick + 1) % WORD;
      now := now + 1;
    }

    /** The timer half of rt_tick_increase: what fires, fires exactly when due. */
    method Tick(ghost live: set<Tid>, ghost touched: set<Tid>)
      requires Valid() && temp == [] && WellScripted(timers, live, touched) && Quiet()
      modifies this
      ensures Valid() && temp == [] && WellScripted(timers, live, touched) && Quiet()
      ensures now == old(now) + 1 && OnTime(old(log), log) && timers.Keys == old(timers).Keys
      ensures Drifted(old(adrift), old(log), log, adrift, touched)
      ensures Settled(Last(old(rows)), old(keys), old(timers), Last(rows), keys, timers, old(log), log, now)
      ensures forall t :: t in Last(old(rows)) && t in old(keys) && t !in touched ==>
        if old(keys)[t].due == now then FiredAt(log[|old(log)|..], t, now)
        else t in Last(rows) && t in keys && keys[t] == old(keys)[t]
    {
      hide SkipList, AllFlagged, AllTimed, WellScripted, Drifted, Settled;
      ghost var r, g, l := Last(rows), keys, log;
      Advance();
      Check(live, touched);
      FiredNow(l, log, r, g, now);
    }

    /** A start, stop or change of period by a thread, between two ticks. */
    method Act(op: Op, ghost live: set<Tid>, ghost touched: set<Tid>)
      requires Valid() && temp == [] && WellScripted(timers, live, touched) &&
        OpsAllowed(timers, [op], live, touched) && Quiet()
      modifies this
      ensures Valid() && temp == [] && WellScripted(timers, live, touched) && Quiet()
      ensures now == old(now) && log == old(log) && SameShape(old(timers), timers) &&
        Drifted(old(adrift), log, log, adrift, touched)
      ensures forall t :: t in Last(old(rows)) && t in old(keys) && t !in touched ==>
        t in Last(rows) && t in keys && keys[t] == old(keys)[t]
      ensures forall t :: t in Last(rows) && t !in touched ==> t in Last(old(rows))
      ensures Marked([op], Last(old(rows)), old(keys), old(timers), Last(rows), keys, timers, now)
    {
      hide SkipList, AllFlagged, AllTimed, WellScripted, Marked;
      ghost var r, g, m := Last(rows), keys, timers;
      RunOp(op, live, touched);
      EvolvedExpired(r, g, m, Last(rows), keys, timers, now, touched);
      HandledOne(op);
      assert [op][0] == op;
      DriftStays(old(adrift), log, Handled([op]), touched);
    }

    /** Clock ticks, and in any number between them starts, stops and changes of period by
        threads: every timer that was started before and that neither a thread nor a
        timeout function touches fires at its due time if that has come, and is still
        waiting otherwise; nothing at all fires early or late. */
    method Run(moves: seq<Move>, ghost live: set<Tid>, ghost touched: set<Tid>)
      requires Valid() && temp == [] && WellScripted(timers, live, touched) && Quiet()
      requires MovesAllowed(timers, moves, live, touched)
      modifies this
      ensures Valid() && temp == [] && WellScripted(timers, live, touched) && Quiet()
      ensures now == old(now) + Ticks(moves) && OnTime(old(log), log)
      ensures Apart(moves, Last(old(rows)), old(keys), old(timers), old(now), Last(rows), keys, timers, old(log), log)
      ensures Drifted(old(adrift), old(log), log, adrift, touched)
      ensures forall t :: t in Last(old(rows)) && t in old(keys) && t !in touched ==>
        if old(keys)[t].due <= now then FiredAt(log[|old(log)|..], t, old(keys)[t].due)
        else t in Last(rows) && t in keys && keys[t] == old(keys)[t]
    {
      hide SkipList, AllFlagged, WellScripted, AllTimed, Apart, Settled, Marked;
      ghost var r0, k0, l0, m0 := Last(rows), keys, log, timers;
      ApartNone(r0, k0, m0, now, l0);
      TickWindow(r0, timers, k0, now, starts);
      DriftStays(adrift, log, {}, touched);
      for i := 0 to |moves|
        invariant Valid() && temp == [] && WellScripted(timers, live, touched) && Quiet()
        invariant MovesAllowed(timers, moves, live, touched)
        invariant now == old(now) + Ticks(moves[..i]) && OnTime(l0, log)
        invariant Waiting(l0, log, r0, k0, Last(rows), keys, now, touched)
        invariant Drifted(old(adrift), l0, log, adrift, touched)
        invariant Apart(moves[..i], r0, k0, m0, old(now), Last(rows), keys, timers, l0, log)
      {
        ghost var r, g, l, a, m := Last(rows), keys, log, adrift, timers;
        assert moves[..i + 1][..i] == moves[..i];
        match moves[i] {
          case Clock =>
            Tick(live, touched);
            DriftJoin(old(adrift), l0, l, a, log, adrift, touched);
            WaitingStep(l0, l, log, r0, k0, r, g, Last(rows), keys, now, touched);
            ApartTick(moves, i, r0, k0, m0, old(now), r, g, m, Last(rows), keys, timers, l0, l, log);
          case Call(op) =>
            Act(op, live, touched);
            DriftJoin(old(adrift), l0, l, a, log, adrift, touched);
            ApartCall(moves, i, r0, k0, m0, old(now), r, g, m, Last(rows), keys, timers, l0, log);
        }
      }
      assert moves[..|moves|] == moves;
    }

    /** What holds of the bottom row holds of all rows. */
    lemma BelowRows(w: seq<seq<Tid>>, t: Tid, order: nat)
      requires w != [] && SkipList(w, keys) && t !in Last(w) && order == starts
      requires AllTimed(Last(w), timers, keys, now, starts)
      ensures forall r :: 0 <= r < |w| ==> t !in w[r] && forall x :: x in w[r] ==> x in keys && keys[x].order < order
    {
      forall r | 0 <= r < |w|
        ensures t !in w[r] && forall x :: x in w[r] ==> x in keys && keys[x].order < order
      {
        forall x | x in w[r]
          ensures x != t && x in keys && keys[x].order < order
        {
          RowTimed(w, keys, r, x);
          assert x in Last(w);
        }
      }
    }
  }

  /** A periodic timer whose timeout function makes it one-shot is active afterwards, and in no
      list. */
  method OneShotInside() returns (l: TimerList)
    ensures l.Valid() && l.temp == [] && 1 in l.timers && l.timers[1].active && 1 !in Last(l.rows)
  {
    hide SkipList, AllFlagged, AllTimed, Started, Evolved;
    var script := [SetMode(1, false)];
    l := new TimerList(1, 1);
    assert Last(l.rows) == l.rows[0] == [];
    l.Init(1, 1, true, script);
    l.Start(1);
    assert 1 in Last(l.rows) && Last(l.rows)[0] in Last(l.rows);
    assert l.keys[1].due == 1;
    assert forall t :: t in Last(l.rows) ==> t == 1;
    l.Advance();
    assert Handled(script) == {};
    assert script[..0] == [] && !ModeAfter(script, 1, true);
    l.FireHead({1}, {});
    l.FlagRight(1);
  }

  /** The row t is placed in, or the row unchanged. */
  ghost predicate Started(before: seq<seq<Tid>>, after: seq<seq<Tid>>, keys: Keys, due: int, t: Tid, h: nat) {
    && SkipList(before, keys) && |after| == |before|
    && forall r :: 0 <= r < |after| ==> after[r] == StartedRow(before[r], keys, due, t, |after| - 1 - h <= r)
  }

  lemma PlacedSkipList(w: seq<seq<Tid>>, after: seq<seq<Tid>>, keys: Keys, key: Key, t: Tid, heads: seq<int>, h: nat)
    requires SkipList(w, keys) && |after| == |w| == |heads|
    requires forall r :: 0 <= r < |w| ==> -1 <= heads[r] < |w[r]| && IsCut(w[r], keys, key.due, heads[r] + 1)
    requires forall r :: 0 <= r < |w| ==> t !in w[r] && forall x :: x in w[r] ==> x in keys && keys[x].order < key.order
    requires forall r :: 0 <= r < |w| ==> after[r] == if |w| - 1 - h <= r then Splice(w[r], heads[r] + 1, t) else w[r]
    ensures SkipList(after, keys[t := key])
    ensures forall x :: x in Last(after) <==> x == t || x in Last(w)
  {
    forall r | 0 <= r < |w|
      ensures Ascending(after[r], keys[t := key])
      ensures forall x :: x in after[r] <==> x in w[r] || (x == t && |w| - 1 - h <= r)
    {
      PlacedAtCut(w[r], keys, key.due, t, heads[r] + 1);
      PlacedAscending(w[r], keys, key, t, heads[r] + 1);
      PlacedElements(w[r], heads[r] + 1, t);
    }
    forall r, s | 0 <= r && s == r + 1 && s < |w|
      ensures Contained(after[r], after[s])
    {
      assert Contained(w[r], w[s]);
    }
  }

  lemma PlacedElements(row: seq<Tid>, k: nat, t: Tid)
    requires k <= |row|
    ensures forall x :: x in Splice(row, k, t) <==> x in row || x == t
  {
    assert row == row[..k] + row[k..];
  }

  lemma PlacedStarted(before: seq<seq<Tid>>, w: seq<seq<Tid>>, after: seq<seq<Tid>>, keys: Keys, due: int, t: Tid,
                      heads: seq<int>, h: nat)
    requires SkipList(before, keys) && |after| == |w| == |heads| == |before|
    requires forall r :: 0 <= r < |w| ==> -1 <= heads[r] < |w[r]| && IsCut(w[r], keys, due, heads[r] + 1)
    requires forall r :: 0 <= r < |w| ==> w[r] == Without(before[r], t)
    requires forall r :: 0 <= r < |w| ==> after[r] == if |w| - 1 - h <= r then Splice(w[r], heads[r] + 1, t) else w[r]
    ensures Started(before, after, keys, due, t, h)
  {
    forall r | 0 <= r < |w|
      ensures after[r] == StartedRow(before[r], keys, due, t, |after| - 1 - h <= r)
    {
      PlacedAtCut(w[r], keys, due, t, heads[r] + 1);
    }
  }
}
