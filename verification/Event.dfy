/** Event objects (ipc.c): threads wait for all or for any of a set of event bits.
 */
module Event {

  import opened Bits
  import opened Ids
  import opened Lists
  import opened WaitQueue

  const AND: bv8 := 1
  const OR: bv8 := 2
  const CLEAR: bv8 := 4

  /** A thread's event_set and event_info. */
  datatype Want = Want(bits: bv32, option: bv8)

  predicate IsAnd(option: bv8) { option & AND != 0 }
  predicate IsOr(option: bv8) { option & OR != 0 }
  predicate Clears(option: bv8) { option & CLEAR != 0 }

  /** a is part of b. */
  predicate Part(a: bv32, b: bv32) { a & b == a }

  /** The request is met by the event set; AND goes before OR. */
  predicate Satisfied(events: bv32, w: Want) {
    if IsAnd(w.option) then Common(w.bits, events) == w.bits else IsOr(w.option) && Common(w.bits, events) != 0
  }

  /** What an immediate rt_event_recv leaves of the set. */
  function Remaining(events: bv32, w: Want): bv32 {
    if Clears(w.option) then Minus(events, w.bits) else events
  }

  /** What a satisfied request receives: some of its bits, or all of them for AND. */
  ghost predicate Delivers(w: Want, got: bv32) {
    got != 0 && Part(got, w.bits) && (IsAnd(w.option) ==> got == w.bits)
  }

  /** The request is met by the set, and receives its bits in the set. */
  ghost predicate Answers(w: Want, at: bv32, got: bv32) {
    Satisfied(at, w) && got == Common(w.bits, at)
  }

  // ----- bits -----

  lemma MinusMet(events: bv32, bits: bv32)
    ensures Minus(events, Common(bits, events)) == Minus(events, bits)
  {
  }

  lemma MinusPart(a: bv32, b: bv32)
    ensures Part(Minus(a, b), a)
  {
  }

  lemma PartSelf(a: bv32)
    ensures Part(a, a)
  {
  }

  lemma PartTrans(a: bv32, b: bv32, c: bv32)
    requires Part(a, b) && Part(b, c)
    ensures Part(a, c)
  {
    PartTransBits(a, b, c);
  }

  lemma PartTransBits(a: bv32, b: bv32, c: bv32)
    requires a & b == a && b & c == b
    ensures a & c == a
  {
  }

  lemma PartOfMet(small: bv32, big: bv32, bits: bv32)
    requires Part(small, big)
    ensures Common(bits, small) == bits ==> Common(bits, big) == bits
    ensures Common(bits, small) != 0 ==> Common(bits, big) != 0
  {
  }

  lemma MetIsPart(bits: bv32, events: bv32)
    ensures Part(Common(bits, events), bits) && Part(Common(bits, events), events)
  {
  }

  lemma ApartAfterMinus(events: bv32, bits: bv32, later: bv32, got: bv32)
    requires Part(later, Minus(events, bits)) && Part(got, later)
    ensures Common(Common(bits, events), got) == 0
  {
  }

  /** rt_event_send stores what a satisfied request receives and clears just that. */
  lemma ServedSame(events: bv32, w: Want)
    requires Satisfied(events, w)
    ensures (if IsAnd(w.option) then w.bits else Common(w.bits, events)) == Common(w.bits, events)
    ensures Minus(events, Common(w.bits, events)) == Minus(events, w.bits)
  {
    hide Minus, IsAnd, IsOr, Common;
    MinusMet(events, w.bits);
  }

  /** A smaller set satisfies no more requests. */
  lemma SatisfiedGrows(small: bv32, big: bv32, w: Want)
    requires Part(small, big) && Satisfied(small, w)
    ensures Satisfied(big, w)
  {
    hide Part, Common, IsAnd, IsOr;
    PartOfMet(small, big, w.bits);
  }

  lemma SatisfiedDelivers(events: bv32, w: Want)
    requires Satisfied(events, w) && w.bits != 0
    ensures Delivers(w, Common(w.bits, events))
  {
    hide Part, Common, IsAnd, IsOr;
    MetIsPart(w.bits, events);
  }

  lemma RemainingPart(events: bv32, w: Want)
    ensures Part(Remaining(events, w), events)
  {
    hide Part, Minus, Clears;
    MinusPart(events, w.bits);
    PartSelf(events);
  }

  /** What is left of a set meets no request that the set did not meet. */
  lemma RemainsUnmet(events: bv32, w: Want, ws: seq<Tid>, wants: map<Tid, Want>)
    requires forall t :: t in ws ==> t in wants && !Satisfied(events, wants[t])
    ensures forall t :: t in ws ==> !Satisfied(Remaining(events, w), wants[t])
  {
    hide Satisfied, Remaining, Part;
    RemainingPart(events, w);
    forall t | t in ws
      ensures !Satisfied(Remaining(events, w), wants[t])
    {
      if Satisfied(Remaining(events, w), wants[t]) {
        SatisfiedGrows(Remaining(events, w), events, wants[t]);
      }
    }
  }

  // ----- requests bit by bit -----

  ghost predicate Has(w: bv32, p: nat)
    requires p < 32
  {
    w & Mask(p) != 0
  }

  ghost predicate HasAll(events: bv32, bits: bv32) {
    forall p: nat :: p < 32 && Has(bits, p) ==> Has(events, p)
  }

  ghost predicate HasSome(events: bv32, bits: bv32) {
    exists p: nat :: p < 32 && Has(bits, p) && Has(events, p)
  }

  /** RT_EVENT_FLAG_AND, 1, asks for all bits; RT_EVENT_FLAG_OR, 2, without it for any. */
  ghost predicate Met(events: bv32, bits: bv32, option: bv8) {
    if option & 1 != 0 then HasAll(events, bits) else option & 2 != 0 && HasSome(events, bits)
  }

  /** got are the bits asked for that are in the set, and RT_EVENT_FLAG_CLEAR, 4, takes them
      out of it. */
  ghost predicate Received(events: bv32, bits: bv32, option: bv8, got: bv32, left: bv32) {
    forall p: nat :: p < 32 ==>
      && (Has(got, p) <==> Has(bits, p) && Has(events, p))
      && (Has(left, p) <==> Has(events, p) && !(option & 4 != 0 && Has(bits, p)))
  }

  lemma SingleBit(p: nat)
    requires p < 32
    ensures Mask(p) != 0 && Mask(p) & (Mask(p) - 1) == 0
  {
  }

  lemma SingleAllOrNone(w: bv32, m: bv32)
    requires m != 0 && m & (m - 1) == 0
    ensures w & m == 0 || w & m == m
  {
  }

  lemma BothHave(a: bv32, b: bv32, m: bv32)
    requires (a & m == 0 || a & m == m) && (b & m == 0 || b & m == m) && m != 0
    ensures a & b & m != 0 <==> a & m != 0 && b & m != 0
  {
  }

  lemma OneHas(a: bv32, b: bv32, m: bv32)
    requires (a & m == 0 || a & m == m) && (b & m == 0 || b & m == m) && m != 0
    ensures a & !b & m != 0 <==> a & m != 0 && b & m == 0
  {
  }

  lemma HasCommon(a: bv32, b: bv32, p: nat)
    requires p < 32
    ensures Has(Common(a, b), p) <==> Has(a, p) && Has(b, p)
    ensures Has(Minus(a, b), p) <==> Has(a, p) && !Has(b, p)
  {
    hide Mask;
    var m := Mask(p);
    SingleBit(p);
    SingleAllOrNone(a, m);
    SingleAllOrNone(b, m);
    BothHave(a, b, m);
    OneHas(a, b, m);
  }

  lemma HasNone(w: bv32)
    requires forall p: nat :: p < 32 ==> !Has(w, p)
    ensures w == 0
  {
    forall p: nat | p < 32
      ensures !Bit(w, p)
    {
      assert !Has(w, p);
    }
    NoBits(w);
  }

  lemma AllShared(bits: bv32, events: bv32)
    ensures Common(bits, events) == bits <==> Minus(bits, events) == 0
  {
  }

  /** The tests of ipc.c:1189-1204 say whether all, or any, of the bits are in the set. */
  lemma SatisfiedMeans(events: bv32, w: Want)
    ensures Satisfied(events, w) <==> Met(events, w.bits, w.option)
  {
    hide Has, Common, Minus;
    forall p: nat | p < 32
      ensures Has(Common(w.bits, events), p) <==> Has(w.bits, p) && Has(events, p)
      ensures Has(Minus(w.bits, events), p) <==> Has(w.bits, p) && !Has(events, p)
    {
      HasCommon(w.bits, events, p);
    }
    AllShared(w.bits, events);
    if HasAll(events, w.bits) { HasNone(Minus(w.bits, events)); }
    if !HasSome(events, w.bits) { HasNone(Common(w.bits, events)); }
    ZeroHasNone();
  }

  lemma ZeroHasNone()
    ensures forall p: nat :: p < 32 ==> !Has(0, p)
  {
  }

  lemma ReceivedMeans(events: bv32, w: Want)
    ensures Received(events, w.bits, w.option, Common(w.bits, events), Remaining(events, w))
  {
    hide Has, Common, Minus;
    forall p: nat | p < 32
      ensures Has(Common(w.bits, events), p) <==> Has(w.bits, p) && Has(events, p)
      ensures Has(Minus(events, w.bits), p) <==> Has(events, p) && !Has(w.bits, p)
    {
      HasCommon(w.bits, events, p);
      HasCommon(events, w.bits, p);
    }
  }

  // ----- one pass over the waiters -----

  type Wants = map<Tid, Want>

  ghost predicate Wanted(ws: seq<Tid>, wants: Wants) {
    forall t :: t in ws ==> t in wants && wants[t].bits != 0
  }

  /** A thread woken with the bits it received, when the event held the set at. */
  datatype Hit = Hit(t: Tid, bits: bv32, at: bv32)

  /** The outcome of a pass: what is left of the set, who still waits, and who was woken,
      in order. */
  datatype Pass = Pass(events: bv32, rest: seq<Tid>, woken: seq<Hit>)

  /** In list order, every waiter whose request is met at its turn is served as an
      immediate rt_event_recv would be served at that moment. */
  ghost function Serve(events: bv32, ws: seq<Tid>, wants: Wants): Pass
    requires Wanted(ws, wants)
    decreases |ws|
  {
    if ws == [] then Pass(events, [], [])
    else
      var w := wants[ws[0]];
      if Satisfied(events, w) then
        var p := Serve(Remaining(events, w), ws[1..], wants);
        Pass(p.events, p.rest, [Hit(ws[0], Common(w.bits, events), events)] + p.woken)
      else
        var p := Serve(events, ws[1..], wants);
        Pass(p.events, [ws[0]] + p.rest, p.woken)
  }

  /** After a pass no waiter's request is met: no wake-up is lost. */
  lemma {:induction false} ServeMissesNobody(events: bv32, ws: seq<Tid>, wants: Wants)
    requires Wanted(ws, wants)
    ensures var p := Serve(events, ws, wants);
            && Part(p.events, events)
            && (forall t :: t in p.rest ==> t in ws && !Satisfied(p.events, wants[t]))
            && (forall h :: h in p.woken ==>
                  h.t in ws && Answers(wants[h.t], h.at, h.bits) && Delivers(wants[h.t], h.bits) && Part(h.at, events))
    decreases |ws|
  {
    hide Part, Satisfied, Remaining, Delivers, Common;
    if ws == [] {
      PartSelf(events);
    } else {
      var w := wants[ws[0]];
      var next := if Satisfied(events, w) then Remaining(events, w) else events;
      var p := Serve(next, ws[1..], wants);
      ServeMissesNobody(next, ws[1..], wants);
      RemainingPart(events, w);
      PartSelf(events);
      PartTrans(p.events, next, events);
      forall h | h in p.woken
        ensures Part(h.at, events)
      {
        PartTrans(h.at, next, events);
      }
      if Satisfied(events, w) {
        SatisfiedDelivers(events, w);
      } else if Satisfied(p.events, w) {
        SatisfiedGrows(p.events, events, w);
      }
      assert ws == [ws[0]] + ws[1..];
    }
  }

  /** Every waiter is either woken or still waits, exactly once. */
  lemma {:induction false} ServeLosesNobody(events: bv32, ws: seq<Tid>, wants: Wants, t: Tid)
    requires Wanted(ws, wants) && Distinct(ws)
    ensures var p := Serve(events, ws, wants);
            && Distinct(p.rest) && |p.rest| + |p.woken| == |ws|
            && (t in ws <==> t in p.rest || exists h :: h in p.woken && h.t == t)
            && !(t in p.rest && exists h :: h in p.woken && h.t == t)
    decreases |ws|
  {
    hide Satisfied, Remaining, Common;
    if ws != [] {
      var w := wants[ws[0]];
      var next := if Satisfied(events, w) then Remaining(events, w) else events;
      var p := Serve(next, ws[1..], wants);
      ServeLosesNobody(next, ws[1..], wants, t);
      ServeLosesNobody(next, ws[1..], wants, ws[0]);
      assert ws == [ws[0]] + ws[1..] && ws[0] !in ws[1..];
      if Satisfied(events, w) {
        assert Hit(ws[0], Common(w.bits, events), events) in Serve(events, ws, wants).woken;
        assert forall h :: h in p.woken ==> h in Serve(events, ws, wants).woken;
      }
    }
  }

  /** A bit that a CLEAR request received goes to nobody served after it. */
  lemma {:induction false} ServeClears(events: bv32, ws: seq<Tid>, wants: Wants, i: nat, j: nat)
    requires Wanted(ws, wants) && i < j < |Serve(events, ws, wants).woken|
    requires var h := Serve(events, ws, wants).woken[i]; h.t in wants && Clears(wants[h.t].option)
    ensures var woken := Serve(events, ws, wants).woken; Common(woken[i].bits, woken[j].bits) == 0
    decreases |ws|
  {
    hide Part, Satisfied, Delivers, Common, Minus, Clears;
    var w := wants[ws[0]];
    var next := if Satisfied(events, w) then Remaining(events, w) else events;
    var p := Serve(next, ws[1..], wants);
    if !Satisfied(events, w) {
      ServeClears(next, ws[1..], wants, i, j);
    } else if i > 0 {
      ServeClears(next, ws[1..], wants, i - 1, j - 1);
    } else {
      ServeMissesNobody(next, ws[1..], wants);
      assert p.woken[j - 1] in p.woken;
      var h := p.woken[j - 1];
      MetIsPart(wants[h.t].bits, h.at);
      PartTrans(h.bits, h.at, next);
      PartSelf(next);
      ApartAfterMinus(events, w.bits, next, h.bits);
    }
  }

  // ----- the object -----

  datatype Outcome = Done(error: Error, received: bv32) | Blocked

  /** A request that names at least one bit and one way to wait for it. */
  predicate Proper(w: Want) {
    w.bits != 0 && (IsAnd(w.option) || IsOr(w.option))
  }

  /** Every waiter has a proper request that the set does not meet. */
  ghost predicate AllWait(events: bv32, ws: seq<Tid>, wants: Wants) {
    && Distinct(ws) && Wanted(ws, wants)
    && (forall t :: t in ws ==> Proper(wants[t]) && !Satisfied(events, wants[t]))
  }

  /** No waiter asks with AND for bits that are all in the set, or with OR for one that is. */
  ghost predicate NoneMet(events: bv32, ws: seq<Tid>, wants: Wants) {
    forall t :: t in ws ==> t in wants && !Met(events, wants[t].bits, wants[t].option)
  }

  lemma WaitersUnmet(events: bv32, ws: seq<Tid>, wants: Wants)
    requires AllWait(events, ws, wants)
    ensures NoneMet(events, ws, wants)
  {
    hide Met, Satisfied;
    forall t | t in ws
      ensures !Met(events, wants[t].bits, wants[t].option)
    {
      SatisfiedMeans(events, wants[t]);
    }
  }

  lemma HasWith(a: bv32, b: bv32)
    ensures forall p: nat :: p < 32 ==> (Has(With(a, b), p) <==> Has(a, p) || Has(b, p))
  {
    hide Has, With;
    forall p: nat | p < 32
      ensures Has(With(a, b), p) <==> Has(a, p) || Has(b, p)
    {
      HasWithAt(a, b, p);
    }
  }

  lemma HasWithAt(a: bv32, b: bv32, p: nat)
    requires p < 32
    ensures Has(With(a, b), p) <==> Has(a, p) || Has(b, p)
  {
    hide Mask;
    var m, both := Mask(p), With(a, b);
    EitherHas(a, b, both, m);
    HasByMask(a, b, both, m, p);
  }

  lemma EitherHas(a: bv32, b: bv32, both: bv32, m: bv32)
    requires both == a | b
    ensures both & m != 0 <==> a & m != 0 || b & m != 0
  {
  }

  lemma HasByMask(a: bv32, b: bv32, both: bv32, m: bv32, p: nat)
    requires p < 32 && m == Mask(p) && (both & m != 0 <==> a & m != 0 || b & m != 0)
    ensures Has(both, p) <==> Has(a, p) || Has(b, p)
  {
    HasMask(a, m, p);
    HasMask(b, m, p);
    HasMask(both, m, p);
    hide Has, Mask;
  }

  lemma HasMask(w: bv32, m: bv32, p: nat)
    requires p < 32 && m == Mask(p)
    ensures Has(w, p) <==> w & m != 0
  {
    hide Mask;
  }

  /** A pass over the waiters in list order, bit by bit: one whose request the set meets is woken
      with the bits it asked for that are in the set, and the next one finds what is left of it;
      any other waits on. */
  ghost predicate InTurn(events: bv32, ws: seq<Tid>, wants: Wants, p: Pass)
    requires Wanted(ws, wants)
    decreases |ws|
  {
    if ws == [] then p == Pass(events, [], [])
    else
      var w := wants[ws[0]];
      if Met(events, w.bits, w.option) then
        && p.woken != [] && p.woken[0].t == ws[0] && p.woken[0].at == events
        && exists next :: Received(events, w.bits, w.option, p.woken[0].bits, next) &&
             InTurn(next, ws[1..], wants, p.(woken := p.woken[1..]))
      else
        p.rest != [] && p.rest[0] == ws[0] && InTurn(events, ws[1..], wants, p.(rest := p.rest[1..]))
  }

  lemma {:induction false} ServeInTurn(events: bv32, ws: seq<Tid>, wants: Wants)
    requires Wanted(ws, wants)
    ensures InTurn(events, ws, wants, Serve(events, ws, wants))
    decreases |ws|
  {
    hide Satisfied, Remaining, Common, Met, Received;
    if ws != [] {
      var w := wants[ws[0]];
      SatisfiedMeans(events, w);
      ReceivedMeans(events, w);
      ServeInTurn(if Satisfied(events, w) then Remaining(events, w) else events, ws[1..], wants);
    }
  }

  /** The bits sent join the set, and the waiters have their turns. */
  ghost predicate SentTo(events: bv32, bits: bv32, ws: seq<Tid>, wants: Wants, p: Pass)
    requires Wanted(ws, wants)
  {
    exists all :: Joined(events, bits, all) && InTurn(all, ws, wants, p)
  }

  lemma ServeMeans(events: bv32, bits: bv32, ws: seq<Tid>, wants: Wants)
    requires Wanted(ws, wants)
    ensures SentTo(events, bits, ws, wants, Serve(With(events, bits), ws, wants))
  {
    hide Serve, Has, With, InTurn;
    HasWith(events, bits);
    ServeInTurn(With(events, bits), ws, wants);
    assert Joined(events, bits, With(events, bits));
  }

  ghost predicate Joined(a: bv32, b: bv32, both: bv32) {
    forall p: nat :: p < 32 ==> (Has(both, p) <==> Has(a, p) || Has(b, p))
  }

  /** How a thread without an error left the wait list: served when the event held a set, or
      by an rt_thread_resume from outside. */
  datatype Wake = Served(at: bv32) | Forced

  type Wakes = map<Tid, Wake>

  /** The call still waits, or left with an error, or as it was woken. */
  ghost predicate CallFits(t: Tid, call: Want, want: Want, error: Error, waiting: bool, wakes: Wakes) {
    if waiting then error == EOK && want == call
    else error == EOK ==> t in wakes && if wakes[t].Forced? then want == call else Answers(call, wakes[t].at, want.bits)
  }

  ghost predicate CallsFit(calls: Wants, ws: seq<Tid>, wants: Wants, errors: map<Tid, Error>, wakes: Wakes) {
    && (forall t :: t in calls ==> calls[t].bits != 0 && t in wants && t in errors)
    && (forall t :: t in calls ==> CallFits(t, calls[t], wants[t], errors[t], t in ws, wakes))
    && (forall t :: t in ws ==> t in calls)
  }

  /** A thread outside any blocked call is served at once. */
  lemma GrantFits(events: bv32, ws: seq<Tid>, wants: Wants, calls: Wants, errors: map<Tid, Error>, wakes: Wakes,
                  t: Tid, w: Want, stored: Want, e: Error)
    requires AllWait(events, ws, wants) && CallsFit(calls, ws, wants, errors, wakes) && t !in calls
    ensures AllWait(Remaining(events, w), ws, wants[t := stored]) && AllWait(events, ws, wants)
    ensures CallsFit(calls, ws, wants[t := stored], errors[t := e], wakes) &&
      CallsFit(calls, ws, wants, errors[t := e], wakes)
  {
    hide Remaining, Proper, Satisfied, Answers;
    RemainsUnmet(events, w, ws, wants);
  }

  /** A thread outside any blocked call starts to wait. */
  lemma WaitFits(events: bv32, ws: seq<Tid>, wants: Wants, calls: Wants, errors: map<Tid, Error>, wakes: Wakes,
                 t: Tid, w: Want, k: nat)
    requires AllWait(events, ws, wants) && CallsFit(calls, ws, wants, errors, wakes) && t !in calls
    requires k <= |ws| && Proper(w) && !Satisfied(events, w)
    ensures AllWait(events, Splice(ws, k, t), wants[t := w])
    ensures CallsFit(calls[t := w], Splice(ws, k, t), wants[t := w], errors[t := EOK], wakes)
  {
    hide Satisfied, Answers;
    assert t !in ws;
    SpliceDistinct(ws, k, t);
    SpliceMembers(ws, k, t);
    hide Splice;
  }

  // ----- a pass in progress -----

  /** The first n threads of ws still wait, those of woken were served; the pass goes on
      with the others. */
  ghost predicate Serving(all: Pass, events: bv32, ws: seq<Tid>, n: nat, wants: Wants, woken: seq<Hit>) {
    && n <= |ws| && Distinct(ws) && Wanted(ws[n..], wants)
    && var p := Serve(events, ws[n..], wants); all == Pass(p.events, ws[..n] + p.rest, woken + p.woken)
  }

  lemma ServeStarts(events: bv32, ws: seq<Tid>, wants: Wants)
    requires Distinct(ws) && Wanted(ws, wants)
    ensures Serving(Serve(events, ws, wants), events, ws, 0, wants, [])
  {
    assert ws[0..] == ws;
  }

  lemma ServeHit(all: Pass, events: bv32, ws: seq<Tid>, n: nat, wants: Wants, woken: seq<Hit>)
    requires Serving(all, events, ws, n, wants, woken) && n < |ws|
    requires Satisfied(events, wants[ws[n]])
    ensures Serving(all, Remaining(events, wants[ws[n]]), ws[..n] + ws[n + 1..], n, wants,
                    woken + [Hit(ws[n], Common(wants[ws[n]].bits, events), events)])
    ensures Distinct(ws[..n] + ws[n + 1..])
  {
    hide Satisfied, Remaining, Common;
    var rest := ws[..n] + ws[n + 1..];
    assert ws[n..][1..] == ws[n + 1..] == rest[n..] && rest[..n] == ws[..n];
    assert ws[n..][0] == ws[n];
    WithoutAt(ws, n);
    WithoutDistinct(ws, ws[n]);
  }

  lemma ServeMiss(all: Pass, events: bv32, ws: seq<Tid>, n: nat, wants: Wants, woken: seq<Hit>)
    requires Serving(all, events, ws, n, wants, woken) && n < |ws|
    requires !Satisfied(events, wants[ws[n]])
    ensures Serving(all, events, ws, n + 1, wants, woken)
  {
    hide Satisfied, Remaining, Common;
    assert ws[n..][1..] == ws[n + 1..] && ws[n..][0] == ws[n];
    assert ws[..n + 1] == ws[..n] + [ws[n]];
  }

  lemma ServeEnds(all: Pass, events: bv32, ws: seq<Tid>, wants: Wants, woken: seq<Hit>)
    requires Serving(all, events, ws, |ws|, wants, woken)
    ensures all == Pass(events, ws, woken)
  {
    assert ws[..|ws|] == ws;
  }

  ghost predicate Missed(t: Tid, woken: seq<Hit>) {
    forall h :: h in woken ==> h.t != t
  }

  /** Served threads have their bits stored and their wake-up noted, the others their request
      and wake-up unchanged. */
  ghost predicate Stored(before: Wants, after: Wants, wakes: Wakes, wakes': Wakes, ws: seq<Tid>, woken: seq<Hit>) {
    && (forall t :: t in ws && t in before ==> t in after && after[t] == before[t])
    && (forall h :: h in woken ==> h.t !in ws && h.t in after && after[h.t].bits == h.bits)
    && (forall h :: h in woken ==> h.t in wakes' && wakes'[h.t] == Served(h.at))
    && (forall t :: t in before && Missed(t, woken) ==> t in after && after[t] == before[t])
    && (forall t :: t in wakes && Missed(t, woken) ==> t in wakes' && wakes'[t] == wakes[t])
  }

  lemma StoreHit(before: Wants, after: Wants, wakes: Wakes, wakes': Wakes, ws: seq<Tid>, n: nat,
                 woken: seq<Hit>, w: Want, at: bv32)
    requires Stored(before, after, wakes, wakes', ws, woken) && Distinct(ws) && n < |ws|
    ensures Stored(before, after[ws[n] := w], wakes, wakes'[ws[n] := Served(at)], ws[..n] + ws[n + 1..],
      woken + [Hit(ws[n], w.bits, at)])
  {
    var t := ws[n];
    WithoutAt(ws, n);
    assert t in ws;
    forall u | Missed(u, woken + [Hit(t, w.bits, at)])
      ensures u != t && Missed(u, woken)
    {
      assert Hit(t, w.bits, at) in woken + [Hit(t, w.bits, at)];
      assert forall h :: h in woken ==> h in woken + [Hit(t, w.bits, at)];
    }
  }

  /** What rt_event_send stores and clears for a waiter is what the pass says. */
  lemma HitDone(all: Pass, events: bv32, ws: seq<Tid>, n: nat, before: Wants, after: Wants, wakes: Wakes, wakes': Wakes,
                woken: seq<Hit>, stored: Want)
    requires Serving(all, events, ws, n, before, woken) && Stored(before, after, wakes, wakes', ws, woken) && n < |ws|
    requires ws[n] in before && Satisfied(events, before[ws[n]])
    requires var w := before[ws[n]]; stored == if IsAnd(w.option) then w else w.(bits := Common(w.bits, events))
    ensures var rest := ws[..n] + ws[n + 1..];
      var hits := woken + [Hit(ws[n], Common(before[ws[n]].bits, events), events)];
      var left := if Clears(before[ws[n]].option) then Minus(events, stored.bits) else events;
      && Serving(all, left, rest, n, before, hits) && Distinct(rest)
      && Stored(before, after[ws[n] := stored], wakes, wakes'[ws[n] := Served(events)], rest, hits)
  {
    hide Satisfied, Remaining, Common, Minus, IsAnd, Clears, Serve, Stored, Distinct;
    ServedSame(events, before[ws[n]]);
    ServeHit(all, events, ws, n, before, woken);
    StoreHit(before, after, wakes, wakes', ws, n, woken, stored, events);
    ClearedSame(events, before[ws[n]]);
  }

  lemma StoredFirst(wants: Wants, wakes: Wakes, ws: seq<Tid>)
    ensures Stored(wants, wants, wakes, wakes, ws, [])
  {
  }

  lemma StoredAt(ws0: seq<Tid>, before: Wants, after: Wants, wakes: Wakes, wakes': Wakes,
                 ws: seq<Tid>, woken: seq<Hit>, n: nat)
    requires Stored(before, after, wakes, wakes', ws, woken) && n < |ws| && Wanted(ws0, before) &&
      forall t :: t in ws ==> t in ws0
    ensures ws[n] in before && ws[n] in after && after[ws[n]] == before[ws[n]]
  {
    assert ws[n] in ws;
  }

  lemma StoredLast(before: Wants, after: Wants, wakes: Wakes, wakes': Wakes, ws: seq<Tid>, woken: seq<Hit>)
    requires Stored(before, after, wakes, wakes', ws, woken)
    ensures forall h :: h in woken ==>
      h.t in after && after[h.t].bits == h.bits && h.t in wakes' && wakes'[h.t] == Served(h.at)
    ensures forall t :: t in before && Missed(t, woken) ==> t in after && after[t] == before[t]
    ensures forall t :: t in wakes && Missed(t, woken) ==> t in wakes' && wakes'[t] == wakes[t]
  {
  }

  lemma ClearedSame(events: bv32, w: Want)
    requires Satisfied(events, w)
    ensures Remaining(events, w) == if Clears(w.option) then Minus(events, Common(w.bits, events)) else events
  {
    hide Minus, Common, Clears, IsAnd, IsOr;
    ServedSame(events, w);
  }

  /** After a pass every call is settled again. */
  lemma PassFits(events: bv32, ws: seq<Tid>, wants: Wants, calls: Wants, errors: map<Tid, Error>, wakes: Wakes,
                 after: Wants, wakes': Wakes)
    requires Distinct(ws) && Wanted(ws, wants) && (forall t :: t in ws ==> Proper(wants[t]))
    requires CallsFit(calls, ws, wants, errors, wakes)
    requires var p := Serve(events, ws, wants); Stored(wants, after, wakes, wakes', p.rest, p.woken)
    ensures var p := Serve(events, ws, wants);
      AllWait(p.events, p.rest, after) && CallsFit(calls, p.rest, after, errors, wakes')
  {
    hide Serve, Satisfied, Answers, Delivers, Proper;
    var p := Serve(events, ws, wants);
    ServeMissesNobody(events, ws, wants);
    ServeLosesNobody(events, ws, wants, 0);
    forall t
      ensures t in ws ==> t in p.rest || exists h :: h in p.woken && h.t == t
    {
      ServeLosesNobody(events, ws, wants, t);
    }
  }

  lemma NobodyWaits(wants: Wants)
    ensures AllWait(0, [], wants)
  {
  }

  class EventObject {
    var events: bv32
    var waiters: seq<Tid>
    var wants: Wants
    var errors: map<Tid, Error>
    var prio: Priorities
    const fifo: bool
    ghost var calls: Wants  // requests of the blocked calls that have not returned
    ghost var wakes: Wakes  // how a thread last left the wait list without an error

    ghost predicate Valid()
      reads this
    {
      AllWait(events, waiters, wants) && CallsFit(calls, waiters, wants, errors, wakes) && Known(waiters, prio)
    }

    /** rt_event_init, in a system of threads with the given priorities. */
    constructor (fifo: bool, prio: Priorities)
      ensures Valid() && events == 0 && waiters == [] && calls == map[] && this.fifo == fifo && this.prio == prio
    {
      events, waiters, wants, errors, calls, wakes := 0, [], map[], map[], map[], map[];
      this.fifo, this.prio := fifo, prio;
    }

    /** rt_event_recv by the thread t up to the scheduling request. Its RT_ASSERT demands
        one of AND and OR. */
    method Recv(t: Tid, bits: bv32, option: bv8, timeout: int) returns (r: Outcome)
      requires Valid() && t in prio && t !in calls && (IsAnd(option) || IsOr(option))
      modifies this
      ensures Valid() && prio == old(prio) && wakes == old(wakes)
      ensures bits == 0 ==>
        r == Done(ERROR, 0) && events == old(events) && errors == old(errors) && wants == old(wants)
      ensures bits != 0 ==> errors == old(errors)[t := if r.Done? then r.error else EOK]
      ensures bits != 0 ==>
        wants == if r.Blocked? then old(wants)[t := Want(bits, option)]
                 else if r.error == EOK then old(wants)[t := Want(r.received, option)]
                 else old(wants)
      ensures var w := Want(bits, option);
              bits != 0 ==>
                if Satisfied(old(events), w) then r == Done(EOK, Common(bits, old(events))) &&
                  events == Remaining(old(events), w)
                else events == old(events) && r == if timeout == 0 then Done(ETIMEOUT, 0) else Blocked
      ensures r.Done? && r.error == EOK <==> bits != 0 && Met(old(events), bits, option)
      ensures r.Done? && r.error == EOK ==> Received(old(events), bits, option, r.received, events)
      ensures NoneMet(events, waiters, wants)
      ensures r.Done? ==> waiters == old(waiters) && calls == old(calls)
      ensures r.Blocked? ==> calls == old(calls)[t := Want(bits, option)]
      ensures r.Blocked? ==> Queued(old(waiters), waiters, prio, fifo, t)
    {
      hide Satisfied, Remaining, Common, Minus, IsAnd, IsOr, Clears, IsSlot, AllWait, CallsFit, Splice, Met, Received,
        NoneMet;
      WaitersUnmet(events, waiters, wants);
      if bits == 0 { return Done(ERROR, 0); }
      var w := Want(bits, option);
      SatisfiedMeans(events, w);
      ReceivedMeans(events, w);
      NotWaiting(t);
      if Satisfied(events, w) {
        GrantFits(events, waiters, wants, calls, errors, wakes, t, w, Want(Common(bits, events), option), EOK);
        r := Done(EOK, Common(bits, events));
        wants := wants[t := Want(Common(bits, events), option)];
        errors := errors[t := EOK];
        events := Remaining(events, w);
      } else if timeout == 0 {
        GrantFits(events, waiters, wants, calls, errors, wakes, t, w, w, ETIMEOUT);
        errors := errors[t := ETIMEOUT];
        r := Done(ETIMEOUT, 0);
      } else {
        var k := FindSlot(waiters, prio, prio[t], fifo);
        SlotRange(waiters, prio, prio[t], fifo, k);
        WaitFits(events, waiters, wants, calls, errors, wakes, t, w, k);
        SpliceMembers(waiters, k, t);
        errors := errors[t := EOK];
        wants := wants[t := w];
        waiters := Splice(waiters, k, t);
        calls := calls[t := w];
        r := Blocked;
      }
      WaitersUnmet(events, waiters, wants);
    }

    lemma NotWaiting(t: Tid)
      requires Valid() && t !in calls
      ensures t !in waiters
    {
    }

    /** rt_event_recv after its rt_schedule returned. A thread that a send woke succeeds with
        the bits of its request in a set that met it and that the event held then. The others
        that succeed are those resumed from outside, and those still in the wait list because
        the scheduler was locked: they get all bits they asked for, whatever the event holds;
        the latter leave a waiter behind that is in no call. */
    method RecvReturn(t: Tid) returns (e: Error, received: bv32)
      requires Valid() && t in calls
      modifies this`calls
      ensures calls == old(calls) - {t} && (Valid() <==> t !in waiters) && e == errors[t]
      ensures t !in waiters && e == EOK ==> t in wakes
      ensures t !in waiters && e == EOK && wakes[t].Served? ==>
        Answers(old(calls)[t], wakes[t].at, received) && Delivers(old(calls)[t], received)
      ensures t !in waiters && e == EOK && wakes[t].Forced? ==> received == old(calls)[t].bits
      ensures e != EOK ==> received == 0
      ensures t in waiters ==> e == EOK && received == old(calls)[t].bits && !Satisfied(events, old(calls)[t])
    {
      hide Satisfied, Delivers;
      e := errors[t];
      if t !in waiters && e == EOK && wakes[t].Served? { SatisfiedDelivers(wakes[t].at, calls[t]); }
      received := if e == EOK then wants[t].bits else 0;
      calls := calls - {t};
      if t in waiters && Valid() { NotWaiting(t); }
    }

    /** rt_thread_resume of a waiter: no send has met its request. */
    method Resume(t: Tid)
      requires Valid() && t in waiters
      modifies this`waiters, this`wakes
      ensures Valid() && waiters == Without(old(waiters), t) && wakes == old(wakes)[t := Forced]
      ensures t in calls && t in errors && errors[t] == EOK && !Satisfied(events, calls[t])
    {
      hide Satisfied, Proper, Answers;
      WithoutDistinct(waiters, t);
      waiters := Without(waiters, t);
      wakes := wakes[t := Forced];
    }

    /** rt_thread_detach: the thread leaves the list, and its call never returns. Bits that a
        CLEAR request of it consumed are gone. */
    method Detach(t: Tid)
      requires Valid()
      modifies this`waiters, this`calls
      ensures Valid() && waiters == Without(old(waiters), t) && calls == old(calls) - {t}
    {
      hide Satisfied, Proper, Answers;
      WithoutDistinct(waiters, t);
      waiters := Without(waiters, t);
      calls := calls - {t};
    }

    /** A waiter is woken with an error: rt_thread_timeout, or one step of
        rt_ipc_list_resume_all. */
    method Abort(t: Tid, e: Error)
      requires Valid() && t in waiters && e != EOK
      modifies this`waiters, this`errors
      ensures Valid() && waiters == Without(old(waiters), t) && |waiters| < |old(waiters)| &&
        errors == old(errors)[t := e]
    {
      hide Satisfied, Proper, Answers;
      WithoutDistinct(waiters, t);
      waiters := Without(waiters, t);
      errors := errors[t := e];
    }

    lemma WaitersWanted()
      requires Valid()
      ensures Distinct(waiters) && Wanted(waiters, wants) && CallsFit(calls, waiters, wants, errors, wakes)
      ensures forall t :: t in waiters ==> t in wants && Proper(wants[t])
    {
    }

    /** rt_event_send. */
    method Send(bits: bv32) returns (e: Error, resched: bool, ghost woken: seq<Hit>)
      requires Valid()
      modifies this`events, this`waiters, this`wants, this`wakes
      ensures Valid()
      ensures bits == 0 ==>
        e == ERROR && !resched && woken == [] && events == old(events) && waiters == old(waiters) && wants == old(wants)
      ensures bits != 0 ==>
        e == EOK && Pass(events, waiters, woken) == Serve(With(old(events), bits), old(waiters), old(wants))
      ensures resched <==> woken != []
      ensures Wanted(old(waiters), old(wants)) && NoneMet(events, waiters, wants)
      ensures bits != 0 ==> SentTo(old(events), bits, old(waiters), old(wants), Pass(events, waiters, woken))
      ensures forall h :: h in woken ==>
        h.t in wants && wants[h.t].bits == h.bits && h.t in wakes && wakes[h.t] == Served(h.at)
      ensures forall t :: t in old(wants) && Missed(t, woken) ==> t in wants && wants[t] == old(wants)[t]
      ensures forall t :: t in old(wakes) && Missed(t, woken) ==> t in wakes && wakes[t] == old(wakes)[t]
    {
      hide Satisfied, Remaining, Common, Minus, IsAnd, IsOr, Clears, With, AllWait, CallsFit, Serve, Serving, Stored,
        Missed, Distinct, Wanted, Proper, Known, NoneMet, SentTo;
      resched := false;
      woken := [];
      WaitersUnmet(events, waiters, wants);
      WaitersWanted();
      if bits == 0 { return ERROR, false, []; }
      events := With(events, bits);
      ghost var all := Serve(events, waiters, wants);
      ServeStarts(events, waiters, wants);
      StoredFirst(wants, wakes, waiters);
      var n := 0;
      while n < |waiters|
        invariant Serving(all, events, waiters, n, old(wants), woken)
        invariant Stored(old(wants), wants, old(wakes), wakes, waiters, woken)
        invariant forall t :: t in waiters ==> t in old(waiters)
        invariant n <= |waiters| && Distinct(waiters) && (resched <==> woken != [])
        decreases |waiters| - n
      {
        var t := waiters[n];
        StoredAt(old(waiters), old(wants), wants, old(wakes), wakes, waiters, woken, n);
        var w := wants[t];
        if Satisfied(events, w) {
          ghost var hit := Hit(t, Common(w.bits, events), events);
          var stored := if IsAnd(w.option) then w else w.(bits := Common(w.bits, events));
          HitDone(all, events, waiters, n, old(wants), wants, old(wakes), wakes, woken, stored);
          wants := wants[t := stored];
          wakes := wakes[t := Served(events)];
          events := if Clears(w.option) then Minus(events, stored.bits) else events;
          woken := woken + [hit];
          waiters := waiters[..n] + waiters[n + 1..];
          resched := true;
        } else {
          ServeMiss(all, events, waiters, n, old(wants), woken);
          n := n + 1;
        }
      }
      ServeEnds(all, events, waiters, old(wants), woken);
      StillKnown(old(waiters), waiters, prio);
      PassFits(With(old(events), bits), old(waiters), old(wants), calls, errors, old(wakes), wants, wakes);
      StoredLast(old(wants), wants, old(wakes), wakes, waiters, woken);
      WaitersUnmet(events, waiters, wants);
      ServeMeans(old(events), bits, old(waiters), old(wants));
      e := EOK;
    }

    /** rt_event_control with RT_IPC_CMD_RESET: every waiter is woken with an error. */
    method Reset()
      requires Valid()
      modifies this`events, this`waiters, this`errors
      ensures Valid() && events == 0 && waiters == []
      ensures forall t :: t in old(waiters) ==> t in errors && errors[t] == ERROR
      ensures forall t :: t in old(errors) && t !in old(waiters) ==> t in errors && errors[t] == old(errors)[t]
    {
      hide AllWait, CallsFit, Known;
      while waiters != []
        invariant Valid()
        invariant forall t :: t in waiters ==> t in old(waiters)
        invariant forall t :: t in old(waiters) && t !in waiters ==> t in errors && errors[t] == ERROR
        invariant forall t :: t in old(errors) && t !in old(waiters) ==> t in errors && errors[t] == old(errors)[t]
        decreases |waiters|
      {
        Abort(waiters[0], ERROR);
      }
      NobodyWaits(wants);
      events := 0;
    }
  }
}
