/**
 * Every interleaving of waits, signals, broadcasts and cancellations on one queue.
 *
 * A request keeps its ticket between waits and has at most one wait at a time. Each wait owns one
 * channel with room for one token, numbered like the wait. A waiter whose deadline has passed may leave
 * its select even when its channel holds a token; it then looks for itself in the line under the lock.
 */
module WaitQueueRuns {
  import opened WaitQueue

  datatype Pc =
    | Waiting      // in the select
    | Cancelling   // chose its deadline, lock not yet taken
    | Forwarding   // was not in the line: owes a Signal
    | Woken        // returned nil
    | GaveUp       // left the line itself, returned the context error
    | Passed       // forwarded its wake, returned the context error

  /** `sent` counts the sends on this wait's channel. */
  datatype Wait = Wait(req: nat, ticket: nat, pc: Pc, sent: nat)

  datatype Request = Request(ticket: nat, waiting: bool)

  /** signals and broadcasts count wakes asked for from outside; dropped counts Signals that found nobody. */
  datatype Sys = Sys(
    line: seq<Waiter>,
    next: nat,
    bound: nat,
    reqs: seq<Request>,
    waits: seq<Wait>,
    signals: nat,
    broadcasts: nat,
    dropped: nat)

  datatype Event =
    | Arrive
    | Park(q: nat, released: bool)
    | Deliver(k: nat)
    | Expire(k: nat)
    | Cancel(k: nat)
    | Forward(k: nat)
    | Signal
    | Broadcast
    | Forget(q: nat)

  function Empty(bound: nat): Sys {
    Sys([], 0, bound, [], [], 0, 0, 0)
  }

  predicate Enabled(x: Sys, ev: Event) {
    match ev
    case Park(q, _) => q < |x.reqs| && !x.reqs[q].waiting
    case Deliver(k) => k < |x.waits| && x.waits[k].pc.Waiting? && x.waits[k].sent > 0
    case Expire(k) => k < |x.waits| && x.waits[k].pc.Waiting?
    case Cancel(k) => k < |x.waits| && x.waits[k].pc.Cancelling?
    case Forward(k) => k < |x.waits| && x.waits[k].pc.Forwarding?
    case Forget(q) => q < |x.reqs| && !x.reqs[q].waiting
    case _ => true
  }

  /** One send on the channel of wait `k`; a wait that is not there receives nothing. */
  function Sent(waits: seq<Wait>, k: nat): seq<Wait> {
    if k < |waits| then waits[k := waits[k].(sent := waits[k].sent + 1)] else waits
  }

  function SentAll(waits: seq<Wait>, line: seq<Waiter>): seq<Wait>
    decreases line
  {
    if line == [] then waits else SentAll(Sent(waits, line[0].ch), line[1..])
  }

  function SetPc(x: Sys, k: nat, pc: Pc): Sys
    requires k < |x.waits|
  {
    x.(waits := x.waits[k := x.waits[k].(pc := pc)])
  }

  /** The wait is over; its request may wait again. */
  function Finish(x: Sys, k: nat, pc: Pc): Sys
    requires k < |x.waits|
  {
    var q := x.waits[k].req;
    var y := SetPc(x, k, pc);
    if q < |x.reqs| then y.(reqs := x.reqs[q := x.reqs[q].(waiting := false)]) else y
  }

  function DoSignal(x: Sys): Sys {
    if x.line == [] then x.(dropped := x.dropped + 1)
    else x.(line := x.line[1..], waits := Sent(x.waits, x.line[0].ch))
  }

  function DoPark(x: Sys, q: nat, released: bool): Sys
    requires q < |x.reqs|
  {
    if x.reqs[q].ticket == 0 && |x.line| >= x.bound && !released then x
    else
      var isNew := x.reqs[q].ticket == 0;
      var t := if isNew then x.next + 1 else x.reqs[q].ticket;
      x.(next := if isNew then t else x.next,
         line := InsertedAt(x.line, Place(x.line, t), Waiter(|x.waits|, t)),
         reqs := x.reqs[q := Request(t, true)],
         waits := x.waits + [Wait(q, t, Waiting, 0)])
  }

  function Next(x: Sys, ev: Event): Sys
    requires Enabled(x, ev)
  {
    match ev
    case Arrive => x.(reqs := x.reqs + [Request(0, false)])
    case Park(q, released) => DoPark(x, q, released)
    case Deliver(k) => Finish(x, k, Woken)
    case Expire(k) => SetPc(x, k, Cancelling)
    case Cancel(k) =>
      if Contains(x.line, k) then Finish(x, k, GaveUp).(line := Without(x.line, k)) else SetPc(x, k, Forwarding)
    case Forward(k) => DoSignal(Finish(x, k, Passed))
    case Signal => DoSignal(x.(signals := x.signals + 1))
    case Broadcast =>
      x.(line := [], waits := SentAll(x.waits, x.line), broadcasts := x.broadcasts + |x.line|)
    case Forget(q) => x.(reqs := x.reqs[q := x.reqs[q].(ticket := 0)])
  }

  // ----- the invariant

  predicate InSelect(w: Wait) {
    w.pc.Waiting? || w.pc.Cancelling?
  }

  predicate Active(w: Wait) {
    InSelect(w) || w.pc.Forwarding?
  }

  /** A waiter in the line is a wait in its select whose channel is still empty. */
  ghost predicate GoodWaiter(x: Sys, w: Waiter) {
    && w.ch < |x.waits| && 0 < w.ticket <= x.next
    && x.waits[w.ch].ticket == w.ticket && InSelect(x.waits[w.ch]) && x.waits[w.ch].sent == 0
  }

  /** A wait has had one send exactly if it left the line through a wake. */
  ghost predicate GoodWait(x: Sys, k: nat)
    requires k < |x.waits|
  {
    var w := x.waits[k];
    && (InSelect(w) ==> w.sent == if Contains(x.line, k) then 0 else 1)
    && (w.pc.Forwarding? || w.pc.Woken? || w.pc.Passed? ==> w.sent == 1)
    && (w.pc.GaveUp? ==> w.sent == 0)
    && w.req < |x.reqs|
    && (Active(w) ==> x.reqs[w.req] == Request(w.ticket, true))
  }

  ghost predicate GoodLine(x: Sys) {
    InLine(x.line) && forall i :: 0 <= i < |x.line| ==> GoodWaiter(x, x.line[i])
  }

  ghost predicate GoodWaits(x: Sys) {
    forall k: nat :: k < |x.waits| ==> GoodWait(x, k)
  }

  ghost predicate GoodRequests(x: Sys) {
    && (forall q :: 0 <= q < |x.reqs| ==> x.reqs[q].ticket <= x.next)
    && (forall p, q :: 0 <= p < q < |x.reqs| && x.reqs[p].ticket == x.reqs[q].ticket ==> x.reqs[p].ticket == 0)
    && (forall k, l :: 0 <= k < l < |x.waits| && Active(x.waits[k]) && Active(x.waits[l]) ==>
          x.waits[k].req != x.waits[l].req)
  }

  ghost predicate Inv(x: Sys) {
    GoodLine(x) && GoodWaits(x) && GoodRequests(x) && Accounted(x)
  }

  // ----- counting wakes

  /** 1 for a wait that carries or has delivered a wake. */
  function Carries(w: Wait): nat {
    if w.pc.Woken? || w.pc.Forwarding? || (InSelect(w) && w.sent > 0) then 1 else 0
  }

  function Carried(ws: seq<Wait>): nat {
    if ws == [] then 0 else Carried(ws[..|ws| - 1]) + Carries(ws[|ws| - 1])
  }

  /** Every wake from outside was delivered, is in flight, or found nobody parked. */
  ghost predicate Accounted(x: Sys) {
    x.signals + x.broadcasts == Carried(x.waits) + x.dropped
  }

  lemma {:induction false} CarriedAfterUpdate(ws: seq<Wait>, k: nat, w: Wait)
    requires k < |ws|
    ensures Carried(ws[k := w]) == Carried(ws) - Carries(ws[k]) + Carries(w)
  {
    var n := |ws| - 1;
    if k == n {
      assert ws[k := w][..n] == ws[..n];
    } else {
      CarriedAfterUpdate(ws[..n], k, w);
      assert ws[k := w][..n] == ws[..n][k := w];
    }
  }

  lemma CarriedAfterAppend(ws: seq<Wait>, w: Wait)
    ensures Carried(ws + [w]) == Carried(ws) + Carries(w)
  {
    assert (ws + [w])[..|ws|] == ws;
  }

  // ----- sends

  ghost predicate Sendable(waits: seq<Wait>, line: seq<Waiter>) {
    && (forall i :: 0 <= i < |line| ==>
          line[i].ch < |waits| && InSelect(waits[line[i].ch]) && waits[line[i].ch].sent == 0)
    && (forall i, j :: 0 <= i < j < |line| ==> line[i].ch != line[j].ch)
  }

  /** Waking a whole line sends once on each of its channels and nowhere else. */
  lemma {:induction false} SentAllEffect(waits: seq<Wait>, line: seq<Waiter>, k: nat)
    requires Sendable(waits, line) && k < |waits|
    ensures |SentAll(waits, line)| == |waits|
    ensures SentAll(waits, line)[k] == waits[k].(sent := waits[k].sent + if Contains(line, k) then 1 else 0)
    decreases line
  {
    if line != [] {
      var rest, now := line[1..], Sent(waits, line[0].ch);
      assert Contains(line, k) <==> line[0].ch == k || Contains(rest, k) by {
        if Contains(rest, k) { var i :| 0 <= i < |rest| && rest[i].ch == k; assert line[i + 1].ch == k; }
        if Contains(line, k) && line[0].ch != k {
          var i :| 0 <= i < |line| && line[i].ch == k;
          assert rest[i - 1].ch == k;
        }
      }
      assert line[0].ch == k ==> !Contains(rest, k);
      SentAllEffect(now, rest, k);
    }
  }

  lemma {:induction false} SentAllCarries(waits: seq<Wait>, line: seq<Waiter>)
    requires Sendable(waits, line)
    ensures Carried(SentAll(waits, line)) == Carried(waits) + |line|
    decreases line
  {
    if line != [] {
      var k := line[0].ch;
      CarriedAfterUpdate(waits, k, waits[k].(sent := waits[k].sent + 1));
      SentAllCarries(Sent(waits, k), line[1..]);
    }
  }

  lemma LineIsSendable(x: Sys)
    requires GoodLine(x)
    ensures Sendable(x.waits, x.line)
  {
    forall i | 0 <= i < |x.line|
      ensures x.line[i].ch < |x.waits| && InSelect(x.waits[x.line[i].ch]) && x.waits[x.line[i].ch].sent == 0
    {
      assert GoodWaiter(x, x.line[i]);
    }
    forall i, j | 0 <= i < j < |x.line| ensures x.line[i].ch != x.line[j].ch {
      assert GoodWaiter(x, x.line[i]) && GoodWaiter(x, x.line[j]);
    }
  }

  // ----- one step

  lemma TailOfLine(ws: seq<Waiter>, k: nat)
    requires ws != []
    ensures Contains(ws, k) <==> ws[0].ch == k || Contains(ws[1..], k)
  {
    if Contains(ws[1..], k) { var i :| 0 <= i < |ws| - 1 && ws[1..][i].ch == k; assert ws[i + 1].ch == k; }
    if Contains(ws, k) && ws[0].ch != k { var i :| 0 <= i < |ws| && ws[i].ch == k; assert ws[1..][i - 1].ch == k; }
  }

  ghost predicate Good(x: Sys) {
    GoodLine(x) && GoodWaits(x) && GoodRequests(x)
  }

  lemma SignalKeeps(x: Sys)
    requires Good(x)
    ensures Good(DoSignal(x)) && Carried(DoSignal(x).waits) + DoSignal(x).dropped == Carried(x.waits) + x.dropped + 1
  {
    var y := DoSignal(x);
    if x.line != [] {
      var h := x.line[0].ch;
      assert GoodWaiter(x, x.line[0]);
      LineIsSendable(x);
      CarriedAfterUpdate(x.waits, h, y.waits[h]);
      forall i | 0 <= i < |y.line| ensures GoodWaiter(y, y.line[i]) {
        assert y.line[i] == x.line[i + 1] && GoodWaiter(x, x.line[i + 1]);
      }
    }
    forall k: nat | k < |y.waits| ensures GoodWait(y, k) {
      assert GoodWait(x, k);
      if x.line != [] {
        TailOfLine(x.line, k);
        assert k == x.line[0].ch ==> !Contains(y.line, k);
      }
    }
  }

  lemma BroadcastKeeps(x: Sys)
    requires Inv(x)
    ensures Inv(Next(x, Broadcast))
  {
    var y := Next(x, Broadcast);
    LineIsSendable(x);
    SentAllCarries(x.waits, x.line);
    if x.waits != [] { SentAllEffect(x.waits, x.line, 0); } else { assert x.line == []; }
    forall k: nat | k < |y.waits| ensures GoodWait(y, k) && y.waits[k] == x.waits[k].(sent := y.waits[k].sent) {
      assert GoodWait(x, k);
      SentAllEffect(x.waits, x.line, k);
    }
  }

  /** Changing how far one wait has got, outside the line, keeps everybody else in order. */
  lemma ProgressKeeps(x: Sys, k: nat, pc: Pc, y: Sys)
    requires Good(x) && k < |x.waits| && (y == SetPc(x, k, pc) || y == Finish(x, k, pc))
    requires Active(x.waits[k]) && (y == SetPc(x, k, pc) <==> Active(y.waits[k]))
    requires Contains(x.line, k) ==> InSelect(y.waits[k])
    requires GoodWait(y, k)
    ensures Good(y)
  {
    forall i | 0 <= i < |y.line| ensures GoodWaiter(y, y.line[i]) {
      assert GoodWaiter(x, x.line[i]);
    }
    forall l: nat | l < |y.waits| ensures GoodWait(y, l) {
      assert GoodWait(x, l);
    }
  }

  lemma {:induction false} WithoutIsACut(ws: seq<Waiter>, ch: nat) returns (i: nat)
    requires Contains(ws, ch)
    ensures i < |ws| && ws[i].ch == ch && Without(ws, ch) == ws[..i] + ws[i + 1..]
  {
    if ws[0].ch == ch {
      i := 0;
    } else {
      TailOfLine(ws, ch);
      var j := WithoutIsACut(ws[1..], ch);
      i := j + 1;
      assert ws[..i] == [ws[0]] + ws[1..][..j] && ws[i + 1..] == ws[1..][j + 1..];
    }
  }

  lemma CutKeepsLine(ws: seq<Waiter>, c: nat)
    requires InLine(ws) && c < |ws|
    ensures InLine(ws[..c] + ws[c + 1..])
  {
    var cut := ws[..c] + ws[c + 1..];
    forall i, j | 0 <= i < j < |cut| ensures cut[i].ticket < cut[j].ticket {
      assert cut[i] == ws[if i < c then i else i + 1] && cut[j] == ws[if j < c then j else j + 1];
    }
  }

  lemma LeaveKeepsLine(x: Sys, k: nat, c: nat, y: Sys)
    requires GoodLine(x) && k < |x.waits| && c < |x.line| && x.line[c].ch == k
    requires y.line == x.line[..c] + x.line[c + 1..] && y.next == x.next
    requires |y.waits| == |x.waits| && forall l :: 0 <= l < |x.waits| && l != k ==> y.waits[l] == x.waits[l]
    ensures GoodLine(y) && !Contains(y.line, k)
  {
    LineIsSendable(x);
    CutKeepsLine(x.line, c);
    forall i | 0 <= i < |y.line| ensures GoodWaiter(y, y.line[i]) && y.line[i].ch != k {
      var j := if i < c then i else i + 1;
      assert y.line[i] == x.line[j] && GoodWaiter(x, x.line[j]);
    }
  }

  lemma LeaveKeeps(x: Sys, k: nat)
    requires Good(x) && k < |x.waits| && x.waits[k].pc.Cancelling? && Contains(x.line, k)
    ensures Good(Next(x, Cancel(k))) && Carried(Next(x, Cancel(k)).waits) == Carried(x.waits)
  {
    var y := Next(x, Cancel(k));
    assert GoodWait(x, k);
    CarriedAfterUpdate(x.waits, k, y.waits[k]);
    var c := WithoutIsACut(x.line, k);
    LeaveKeepsLine(x, k, c, y);
    forall l: nat | l < |y.waits| ensures GoodWait(y, l) {
      assert GoodWait(x, l);
      if l != k { CutKeepsOthers(x.line, k, c, l); }
    }
  }

  lemma CutKeepsOthers(ws: seq<Waiter>, k: nat, c: nat, l: nat)
    requires c < |ws| && ws[c].ch == k && l != k
    ensures Contains(ws[..c] + ws[c + 1..], l) <==> Contains(ws, l)
  {
    var cut := ws[..c] + ws[c + 1..];
    if Contains(ws, l) {
      var i :| 0 <= i < |ws| && ws[i].ch == l;
      assert cut[if i < c then i else i - 1].ch == l;
    }
    if Contains(cut, l) {
      var i :| 0 <= i < |cut| && cut[i].ch == l;
      assert ws[if i < c then i else i + 1].ch == l;
    }
  }

  lemma InsertedIndex(ws: seq<Waiter>, p: nat, w: Waiter, i: nat)
    requires p <= |ws| && i <= |ws|
    ensures InsertedAt(ws, p, w)[i] == if i < p then ws[i] else if i == p then w else ws[i - 1]
  {
  }

  lemma InsertKeepsLine(ws: seq<Waiter>, w: Waiter)
    requires InLine(ws) && forall i :: 0 <= i < |ws| ==> ws[i].ticket != w.ticket
    ensures InLine(InsertedAt(ws, Place(ws, w.ticket), w))
  {
    PlaceIsPlace(ws, w.ticket);
    var p := Place(ws, w.ticket);
    var y := InsertedAt(ws, p, w);
    forall i, j | 0 <= i < j < |y| ensures y[i].ticket < y[j].ticket {
      InsertedIndex(ws, p, w, i);
      InsertedIndex(ws, p, w, j);
    }
  }

  lemma InsertedMembers(ws: seq<Waiter>, p: nat, w: Waiter, l: nat)
    requires p <= |ws|
    ensures Contains(InsertedAt(ws, p, w), l) <==> l == w.ch || Contains(ws, l)
  {
    var y := InsertedAt(ws, p, w);
    assert y[p] == w;
    if Contains(ws, l) {
      var i :| 0 <= i < |ws| && ws[i].ch == l;
      assert y[if i < p then i else i + 1].ch == l;
    }
    if Contains(y, l) && l != w.ch {
      var i :| 0 <= i < |y| && y[i].ch == l;
      assert ws[if i < p then i else i - 1].ch == l;
    }
  }

  /** Nobody in the line holds the ticket of a request that is not waiting, nor the next new one. */
  lemma TicketIsFree(x: Sys, q: nat, t: nat)
    requires Good(x) && q < |x.reqs| && !x.reqs[q].waiting && (t == x.next + 1 || (t == x.reqs[q].ticket && t != 0))
    ensures forall i :: 0 <= i < |x.line| ==> x.line[i].ticket != t
  {
    forall i | 0 <= i < |x.line| ensures x.line[i].ticket != t {
      assert GoodWaiter(x, x.line[i]) && GoodWait(x, x.line[i].ch);
    }
  }

  lemma ParkKeeps(x: Sys, q: nat, released: bool)
    requires Good(x) && q < |x.reqs| && !x.reqs[q].waiting
    ensures Good(DoPark(x, q, released)) && Carried(DoPark(x, q, released).waits) == Carried(x.waits)
  {
    var y := DoPark(x, q, released);
    if y != x {
      var t, n := y.reqs[q].ticket, |x.waits|;
      TicketIsFree(x, q, t);
      CarriedAfterAppend(x.waits, Wait(q, t, Waiting, 0));
      InsertKeepsLine(x.line, Waiter(n, t));
      forall i | 0 <= i < |y.line| ensures GoodWaiter(y, y.line[i]) {
        var p := Place(x.line, t);
        InsertedIndex(x.line, p, Waiter(n, t), i);
        if i != p { assert GoodWaiter(x, x.line[if i < p then i else i - 1]); }
      }
      forall k: nat | k < |y.waits| ensures GoodWait(y, k) {
        if k < n { assert GoodWait(x, k); }
        InsertedMembers(x.line, Place(x.line, t), Waiter(n, t), k);
      }
      ParkKeepsRequests(x, q, t, y);
    }
  }

  lemma ParkKeepsRequests(x: Sys, q: nat, t: nat, y: Sys)
    requires Good(x) && q < |x.reqs| && !x.reqs[q].waiting
    requires (t == x.next + 1 == y.next) || (t == x.reqs[q].ticket && t != 0 && y.next == x.next)
    requires y.reqs == x.reqs[q := Request(t, true)] && y.waits == x.waits + [Wait(q, t, Waiting, 0)]
    ensures GoodRequests(y)
  {
    forall k | 0 <= k < |x.waits| && Active(x.waits[k]) ensures x.waits[k].req != q {
      assert GoodWait(x, k);
    }
  }

  lemma RequestChangeKeeps(x: Sys, ev: Event)
    requires Good(x) && Enabled(x, ev) && (ev.Arrive? || ev.Forget?)
    ensures Good(Next(x, ev))
  {
    var y := Next(x, ev);
    forall i | 0 <= i < |y.line| ensures GoodWaiter(y, y.line[i]) { assert GoodWaiter(x, x.line[i]); }
    forall k: nat | k < |y.waits| ensures GoodWait(y, k) { assert GoodWait(x, k); }
  }

  lemma StepKeepsInv(x: Sys, ev: Event)
    requires Inv(x) && Enabled(x, ev)
    ensures Inv(Next(x, ev))
  {
    match ev
    case Arrive => RequestChangeKeeps(x, ev);
    case Forget(_) => RequestChangeKeeps(x, ev);
    case Park(q, released) => ParkKeeps(x, q, released);
    case Broadcast => BroadcastKeeps(x);
    case Signal => SignalEventKeeps(x);
    case Deliver(k) => DeliverOrExpireKeeps(x, ev, k);
    case Expire(k) => DeliverOrExpireKeeps(x, ev, k);
    case Cancel(k) => CancelKeeps(x, k);
    case Forward(k) => ForwardKeeps(x, k);
  }

  lemma SignalEventKeeps(x: Sys)
    requires Inv(x)
    ensures Inv(Next(x, Signal))
  {
    var z := x.(signals := x.signals + 1);
    CountersDoNotMatter(x, z);
    SignalKeeps(z);
  }

  lemma DeliverOrExpireKeeps(x: Sys, ev: Event, k: nat)
    requires Inv(x) && Enabled(x, ev) && (ev == Deliver(k) || ev == Expire(k))
    ensures Inv(Next(x, ev))
  {
    var y := Next(x, ev);
    assert GoodWait(x, k);
    CarriedAfterUpdate(x.waits, k, y.waits[k]);
    ProgressKeeps(x, k, if ev.Deliver? then Woken else Cancelling, y);
  }

  lemma CancelKeeps(x: Sys, k: nat)
    requires Inv(x) && Enabled(x, Cancel(k))
    ensures Inv(Next(x, Cancel(k)))
  {
    var y := Next(x, Cancel(k));
    assert GoodWait(x, k);
    if Contains(x.line, k) {
      LeaveKeeps(x, k);
    } else {
      CarriedAfterUpdate(x.waits, k, y.waits[k]);
      ProgressKeeps(x, k, Forwarding, y);
    }
  }

  lemma ForwardKeeps(x: Sys, k: nat)
    requires Inv(x) && Enabled(x, Forward(k))
    ensures Inv(Next(x, Forward(k)))
  {
    assert GoodWait(x, k);
    var z := Finish(x, k, Passed);
    NotInLine(x, k);
    CarriedAfterUpdate(x.waits, k, z.waits[k]);
    ProgressKeeps(x, k, Passed, z);
    SignalKeeps(z);
  }

  lemma NotInLine(x: Sys, k: nat)
    requires GoodLine(x) && k < |x.waits| && !InSelect(x.waits[k])
    ensures !Contains(x.line, k)
  {
    forall i | 0 <= i < |x.line| ensures x.line[i].ch != k { assert GoodWaiter(x, x.line[i]); }
  }

  lemma CountersDoNotMatter(x: Sys, z: Sys)
    requires Good(x) && z == x.(signals := z.signals)
    ensures Good(z)
  {
    forall i | 0 <= i < |z.line| ensures GoodWaiter(z, z.line[i]) { assert GoodWaiter(x, x.line[i]); }
    forall k: nat | k < |z.waits| ensures GoodWait(z, k) { assert GoodWait(x, k); }
  }

  // ----- every interleaving

  ghost predicate Run(xs: seq<Sys>, evs: seq<Event>) {
    && |xs| == |evs| + 1 && xs[0] == Empty(xs[0].bound)
    && forall i :: 0 <= i < |evs| ==> Enabled(xs[i], evs[i]) && xs[i + 1] == Next(xs[i], evs[i])
  }

  lemma {:induction false} InvAlongRun(xs: seq<Sys>, evs: seq<Event>, i: nat)
    requires Run(xs, evs) && i < |xs|
    ensures Inv(xs[i])
  {
    if i > 0 {
      InvAlongRun(xs, evs, i - 1);
      StepKeepsInv(xs[i - 1], evs[i - 1]);
    }
  }

  function CountPc(ws: seq<Wait>, pc: Pc): nat {
    if ws == [] then 0 else CountPc(ws[..|ws| - 1], pc) + if ws[|ws| - 1].pc == pc then 1 else 0
  }

  /** Tokens sent to a wait that has not yet returned. */
  function InFlight(ws: seq<Wait>): nat {
    if ws == [] then 0
    else
      var w := ws[|ws| - 1];
      InFlight(ws[..|ws| - 1]) + if w.pc.Forwarding? || (InSelect(w) && w.sent > 0) then 1 else 0
  }

  lemma {:induction false} CarriedSplits(ws: seq<Wait>)
    ensures Carried(ws) == CountPc(ws, Woken) + InFlight(ws)
  {
    if ws != [] { CarriedSplits(ws[..|ws| - 1]); }
  }

  /**
   * No wake is lost and none is invented: at every point of every interleaving, the wakes asked for from
   * outside are the nil returns, plus the wakes in flight, plus the Signals that found the line empty.
   */
  lemma WakesAreConserved(xs: seq<Sys>, evs: seq<Event>, i: nat)
    requires Run(xs, evs) && i < |xs|
    ensures var x := xs[i];
            x.signals + x.broadcasts == CountPc(x.waits, Woken) + InFlight(x.waits) + x.dropped
  {
    InvAlongRun(xs, evs, i);
    CarriedSplits(xs[i].waits);
  }

  /**
   * A wait gets at most one send, so no send under the lock can block on the one-slot channel; one that
   * returned nil or forwarded got exactly one; one that left the line by itself got none. A Signal is
   * dropped only when the line is empty.
   */
  lemma EachWaitIsWokenAtMostOnce(xs: seq<Sys>, evs: seq<Event>, i: nat, k: nat)
    requires Run(xs, evs) && i < |xs| && k < |xs[i].waits|
    ensures var w := xs[i].waits[k];
            && w.sent <= 1
            && (w.pc.Woken? || w.pc.Passed? || w.pc.Forwarding? ==> w.sent == 1)
            && (w.pc.GaveUp? ==> w.sent == 0)
            && (Contains(xs[i].line, k) ==> w.sent == 0 && InSelect(w))
            && (InSelect(w) && w.sent == 0 ==> Contains(xs[i].line, k))
    ensures i < |evs| && xs[i + 1].dropped > xs[i].dropped ==> xs[i].line == [] && (evs[i].Signal? || evs[i].Forward?)
  {
    InvAlongRun(xs, evs, i);
    var x := xs[i];
    assert GoodWait(x, k);
    if Contains(x.line, k) {
      var j :| 0 <= j < |x.line| && x.line[j].ch == k;
      assert GoodWaiter(x, x.line[j]);
    }
  }

  /**
   * The line is strictly ordered by ticket in every reachable state, so a Signal wakes the smallest
   * parked ticket, and a request that parks again is ahead of everybody who first parked after it,
   * whatever happened in between.
   */
  lemma LineOrder(xs: seq<Sys>, evs: seq<Event>, i: nat, a: nat, b: nat)
    requires Run(xs, evs) && i < |xs| && a < |xs[i].line| && b < |xs[i].line|
    ensures InLine(xs[i].line) && xs[i].line[0].ticket <= xs[i].line[a].ticket
    ensures xs[i].line[a].ticket < xs[i].line[b].ticket <==> a < b
    ensures i < |evs| && evs[i].Signal? ==>
              && xs[i + 1].line == xs[i].line[1..]
              && xs[i].line[0].ch < |xs[i + 1].waits| && xs[i + 1].waits[xs[i].line[0].ch].sent == 1
  {
    InvAlongRun(xs, evs, i);
    assert GoodWaiter(xs[i], xs[i].line[0]);
  }

  lemma {:induction false} TicketsGrow(xs: seq<Sys>, evs: seq<Event>, i: nat, j: nat)
    requires Run(xs, evs) && i <= j < |xs|
    ensures xs[i].next <= xs[j].next
    decreases j
  {
    if i < j { TicketsGrow(xs, evs, i, j - 1); }
  }

  /**
   * A request that had its place before another one first got its own is ahead of it every time both are
   * parked, however often either was woken and parked again.
   */
  lemma EarlierRequestStaysAhead(xs: seq<Sys>, evs: seq<Event>, i: nat, j: nat, n: nat, p: nat, q: nat, a: nat, b: nat)
    requires Run(xs, evs) && i <= j < n < |xs|
    requires p < |xs[i].reqs| && xs[i].reqs[p].ticket != 0
    requires evs[j].Park? && evs[j].q == q && q < |xs[j].reqs| && xs[j].reqs[q].ticket == 0 && xs[j + 1] != xs[j]
    requires a < |xs[n].line| && b < |xs[n].line|
    requires xs[n].line[a].ticket == xs[i].reqs[p].ticket && xs[n].line[b].ticket == xs[j + 1].reqs[q].ticket
    ensures a < b
  {
    InvAlongRun(xs, evs, i);
    TicketsGrow(xs, evs, i, j);
    LineOrder(xs, evs, n, a, b);
  }

  // ----- the bound

  /** The park is of a request that has its place already or was released from a hold. */
  predicate Exempt(x: Sys, ev: Event) {
    ev.Park? && ev.q < |x.reqs| && (ev.released || x.reqs[ev.q].ticket != 0)
  }

  /**
   * A request is turned away exactly when it is new, was not released and the line is at its bound; otherwise it is
   * in line, under a new ticket after all others or under its own.
   */
  lemma ParksIff(x: Sys, q: nat, released: bool)
    requires Inv(x) && Enabled(x, Park(q, released))
    ensures var y, r := Next(x, Park(q, released)), x.reqs[q];
            && (y == x <==> r.ticket == 0 && !released && |x.line| >= x.bound)
            && (y != x ==>
                  && |y.line| == |x.line| + 1 && |y.waits| == |x.waits| + 1 && y.reqs[q].waiting
                  && y.waits[|x.waits|] == Wait(q, y.reqs[q].ticket, Waiting, 0) && Contains(y.line, |x.waits|)
                  && y.reqs[q].ticket == (if r.ticket != 0 then r.ticket else x.next + 1)
                  && forall i :: 0 <= i < |x.line| && r.ticket == 0 ==> x.line[i].ticket < y.reqs[q].ticket)
  {
    var y := Next(x, Park(q, released));
    if y != x {
      var i := Place(x.line, y.reqs[q].ticket);
      assert y.line[i].ch == |x.waits|;
    }
    forall i | 0 <= i < |x.line| ensures x.line[i].ticket <= x.next { assert GoodWaiter(x, x.line[i]); }
  }

  /** In a reachable state a wait can return woken exactly when it is in its select and no longer in line. */
  lemma DeliversIff(x: Sys, k: nat)
    requires Inv(x) && k < |x.waits|
    ensures Enabled(x, Deliver(k)) <==> x.waits[k].pc == Waiting && !Contains(x.line, k)
  {
    assert GoodWait(x, k);
  }

  function Exemptions(xs: seq<Sys>, evs: seq<Event>, i: nat): nat
    requires i <= |evs| < |xs|
  {
    if i == 0 then 0 else Exemptions(xs, evs, i - 1) + if Exempt(xs[i - 1], evs[i - 1]) then 1 else 0
  }

  lemma {:induction false} WithoutIsNoLonger(ws: seq<Waiter>, ch: nat)
    ensures |Without(ws, ch)| <= |ws|
  {
    if ws != [] { WithoutIsNoLonger(ws[1..], ch); }
  }

  lemma StepWithinBound(x: Sys, ev: Event, extra: nat)
    requires Enabled(x, ev) && |x.line| <= x.bound + extra
    ensures var y := Next(x, ev);
            y.bound == x.bound && |y.line| <= y.bound + extra + if Exempt(x, ev) then 1 else 0
  {
    if ev.Cancel? { WithoutIsNoLonger(x.line, ev.k); }
  }

  /** The line is longer than its bound only by parks of requests that came back or were released from a hold. */
  lemma {:induction false} LineWithinBound(xs: seq<Sys>, evs: seq<Event>, i: nat)
    requires Run(xs, evs) && i < |xs|
    ensures xs[i].bound == xs[0].bound && |xs[i].line| <= xs[0].bound + Exemptions(xs, evs, i)
  {
    if i > 0 {
      LineWithinBound(xs, evs, i - 1);
      StepWithinBound(xs[i - 1], evs[i - 1], Exemptions(xs, evs, i - 1));
    }
  }
}
