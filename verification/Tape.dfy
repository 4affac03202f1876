/** A consumer of a whole tape, and when a plain table of live orders agrees with the book it rebuilds. */
module Tape {
  import opened Itch
  import opened Venue

  /** The book rebuilt from the messages alone, every reference in one map. */
  function Rebuild(tape: seq<Message>): Book {
    if tape == [] then EMPTY else Apply(Rebuild(tape[..|tape| - 1]), tape[|tape| - 1].body)
  }

  /** The messages a listener of one security keeps. */
  function OnLocate(tape: seq<Message>, locate: nat): seq<Message> {
    if tape == [] then []
    else
      var kept, m := OnLocate(tape[..|tape| - 1], locate), tape[|tape| - 1];
      if m.locate == locate then kept + [m] else kept
  }

  lemma RebuildAppend(tape: seq<Message>, m: Message)
    ensures (tape + [m])[..|tape + [m]| - 1] == tape && (tape + [m])[|tape + [m]| - 1] == m
    ensures Rebuild(tape + [m]) == Apply(Rebuild(tape), m.body)
  {
    assert (tape + [m])[..|tape|] == tape;
  }

  lemma OnLocateAppend(tape: seq<Message>, m: Message, locate: nat)
    ensures OnLocate(tape + [m], locate) == OnLocate(tape, locate) + (if m.locate == locate then [m] else [])
  {
    assert (tape + [m])[..|tape|] == tape;
  }

  /** The table lists exactly the resting orders, with the shares each has left, all issued before `nextRef`. */
  ghost predicate Rests(b: Book, table: map<nat, nat>, nextRef: nat) {
    && Consistent(b) && Below(b, nextRef)
    && table.Keys == b.orders.Keys
    && forall r :: r in table ==> table[r] == b.orders[r].shares
  }

  /** What a generator's bookkeeping does to its table when `n` shares of an order go. */
  function Less(table: map<nat, nat>, ref: nat, n: nat): map<nat, nat>
    requires ref in table
  {
    if n >= table[ref] then table - {ref} else table[ref := table[ref] - n]
  }

  lemma InsertRests(b: Book, table: map<nat, nat>, nextRef: nat, side: Side, price: int, shares: nat)
    requires Rests(b, table, nextRef) && shares >= 1
    ensures Rests(Insert(b, nextRef, side, price, shares), table[nextRef := shares], nextRef + 1)
    ensures nextRef !in table
  {
    hide Consistent;
    InsertConsistent(b, nextRef, side, price, shares);
  }

  lemma EraseRests(b: Book, table: map<nat, nat>, nextRef: nat, ref: nat)
    requires Rests(b, table, nextRef) && ref in table
    ensures Rests(Erase(b, ref), table - {ref}, nextRef) && Erase(b, ref).unknown == b.unknown
  {
    hide Consistent;
    EraseConsistent(b, ref);
  }

  /** Taking at least what rests removes the order, on both sides alike. */
  lemma ReduceRests(b: Book, table: map<nat, nat>, nextRef: nat, ref: nat, n: nat)
    requires Rests(b, table, nextRef) && ref in table && n >= 1
    ensures Rests(Reduce(b, ref, n), Less(table, ref, n), nextRef) && Reduce(b, ref, n).unknown == b.unknown
  {
    hide Consistent;
    if n < table[ref] {
      ReduceConsistent(b, ref, n);
    } else {
      EraseRests(b, table, nextRef, ref);
    }
  }

  /** A replace is a delete and an add: the table loses one reference and gains the next one. */
  lemma SwapRests(b: Book, table: map<nat, nat>, nextRef: nat, ref: nat, price: int, shares: nat)
    requires Rests(b, table, nextRef) && ref in table && shares >= 1
    ensures Rests(Swap(b, ref, nextRef, price, shares), (table - {ref})[nextRef := shares], nextRef + 1)
    ensures Swap(b, ref, nextRef, price, shares).unknown == b.unknown
  {
    assert ref in b.orders;
    hide Rests;
    EraseRests(b, table, nextRef, ref);
    InsertRests(Erase(b, ref), table - {ref}, nextRef, b.orders[ref].side, price, shares);
  }

  /** An empty table means an empty book: no order, and no price level left behind. */
  lemma NothingRests(b: Book, nextRef: nat)
    requires Rests(b, map[], nextRef)
    ensures b.orders == map[] && b.queues == map[]
  {
    forall k | k in b.queues
      ensures false
    {
      QueuedIsLive(b, k, b.queues[k][0]);
    }
  }
}
