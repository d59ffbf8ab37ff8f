/** The per-model capacity queue: a line ordered by ticket, woken from the front. */
module WaitQueue {
  import opened Prelude

  /** One parked goroutine: its channel and its place in line. */
  datatype Waiter = Waiter(ch: nat, ticket: nat)

  ghost predicate InLine(ws: seq<Waiter>) {
    forall i, j :: 0 <= i < j < |ws| ==> ws[i].ticket < ws[j].ticket
  }

  /** The first position whose ticket is greater than `ticket`. */
  ghost predicate IsPlace(ws: seq<Waiter>, ticket: nat, i: nat) {
    && i <= |ws|
    && (forall j :: 0 <= j < i ==> ws[j].ticket <= ticket)
    && (forall j :: i <= j < |ws| ==> ws[j].ticket > ticket)
  }

  function InsertedAt(ws: seq<Waiter>, i: nat, w: Waiter): seq<Waiter>
    requires i <= |ws|
  {
    ws[..i] + [w] + ws[i..]
  }

  /** Where a ticket belongs; for a line this is the only place. */
  function Place(ws: seq<Waiter>, ticket: nat): (i: nat)
    ensures i <= |ws|
  {
    if ws == [] || ws[0].ticket > ticket then 0 else 1 + Place(ws[1..], ticket)
  }

  lemma {:induction false} PlaceIsPlace(ws: seq<Waiter>, ticket: nat)
    requires InLine(ws)
    ensures IsPlace(ws, ticket, Place(ws, ticket))
  {
    if ws != [] && ws[0].ticket <= ticket {
      PlaceIsPlace(ws[1..], ticket);
      var i := Place(ws[1..], ticket);
      forall j | 0 <= j < 1 + i ensures ws[j].ticket <= ticket { if j > 0 { assert ws[j] == ws[1..][j - 1]; } }
      forall j | 1 + i <= j < |ws| ensures ws[j].ticket > ticket { assert ws[j] == ws[1..][j - 1]; }
    }
  }

  lemma PlaceIsUnique(ws: seq<Waiter>, ticket: nat, i: nat, j: nat)
    requires IsPlace(ws, ticket, i) && IsPlace(ws, ticket, j)
    ensures i == j
  {
    assert i < |ws| ==> ws[i].ticket > ticket;
    assert j < |ws| ==> ws[j].ticket > ticket;
  }

  /** The line without the waiter on channel `ch`, if it is there. */
  function Without(ws: seq<Waiter>, ch: nat): seq<Waiter> {
    if ws == [] then [] else if ws[0].ch == ch then ws[1..] else [ws[0]] + Without(ws[1..], ch)
  }

  predicate Contains(ws: seq<Waiter>, ch: nat) {
    exists i :: 0 <= i < |ws| && ws[i].ch == ch
  }

  class Queue {
    var waiters: seq<Waiter>
    var next: nat
    const bound: nat

    constructor (b: nat)
      ensures waiters == [] && next == 0 && bound == b
    {
      waiters, next, bound := [], 0, b;
    }

    /** Binary search for a ticket's place. */
    method Search(ticket: nat) returns (i: nat)
      requires InLine(waiters)
      ensures IsPlace(waiters, ticket, i)
    {
      var lo, hi := 0, |waiters|;
      while lo < hi
        invariant 0 <= lo <= hi <= |waiters|
        invariant forall j :: 0 <= j < lo ==> waiters[j].ticket <= ticket
        invariant forall j :: hi <= j < |waiters| ==> waiters[j].ticket > ticket
      {
        var mid := (lo + hi) / 2;
        if waiters[mid].ticket > ticket { hi := mid; } else { lo := mid + 1; }
      }
      i := lo;
    }

    /**
     * The locked part of parking. A ticket of 0 asks for a new place at the tail and is refused at the
     * bound unless the request was released from a hold; any other ticket goes back to its own place.
     */
    method Enter(ch: nat, ticket: nat, released: bool) returns (mine: Option<nat>)
      requires InLine(waiters)
      modifies this
      ensures mine.None? <==> ticket == 0 && |old(waiters)| >= bound && !released
      ensures mine.None? ==> waiters == old(waiters) && next == old(next)
      ensures mine.Some? ==>
                && mine.value == (if ticket == 0 then old(next) + 1 else ticket)
                && next == (if ticket == 0 then old(next) + 1 else old(next))
                && waiters == InsertedAt(old(waiters), Place(old(waiters), mine.value), Waiter(ch, mine.value))
    {
      var t := ticket;
      if t == 0 {
        if |waiters| >= bound && !released { return None; }
        next := next + 1;
        t := next;
      }
      var i := Search(t);
      PlaceIsPlace(waiters, t);
      PlaceIsUnique(waiters, t, i, Place(waiters, t));
      waiters := waiters[..i] + [Waiter(ch, t)] + waiters[i..];
      mine := Some(t);
    }

    /** The locked part of giving up: leave the line, and say whether this channel was still in it. */
    method Leave(ch: nat) returns (found: bool)
      modifies this`waiters
      ensures found == Contains(old(waiters), ch) && waiters == Without(old(waiters), ch)
    {
      var i := 0;
      while i < |waiters|
        invariant 0 <= i <= |waiters| && waiters == old(waiters)
        invariant forall j :: 0 <= j < i ==> waiters[j].ch != ch
        invariant Without(waiters, ch) == waiters[..i] + Without(waiters[i..], ch)
      {
        if waiters[i].ch == ch {
          assert waiters[i..][1..] == waiters[i + 1..];
          waiters := waiters[..i] + waiters[i + 1..];
          return true;
        }
        assert waiters[i..][1..] == waiters[i + 1..];
        assert waiters[..i] + [waiters[i]] == waiters[..i + 1];
        i := i + 1;
      }
      found := false;
    }

    /** Take the head of the line; the caller then sends on its channel. */
    method Signal() returns (woken: Option<Waiter>)
      modifies this`waiters
      ensures if old(waiters) == [] then woken.None? && waiters == []
              else woken == Some(old(waiters)[0]) && waiters == old(waiters)[1..]
    {
      if |waiters| == 0 { return None; }
      woken := Some(waiters[0]);
      waiters := waiters[1..];
    }

    /** Wake everybody, in line order. */
    method Broadcast() returns (woken: seq<Waiter>)
      modifies this`waiters
      ensures woken == old(waiters) && waiters == []
    {
      woken := [];
      var i := 0;
      while i < |waiters|
        invariant 0 <= i <= |waiters| && woken == waiters[..i]
      {
        woken := woken + [waiters[i]];
        i := i + 1;
      }
      waiters := [];
    }
  }
}
