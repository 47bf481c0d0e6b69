/** The daily ledger of inference calls: reservations are booked before a call is dispatched and
    settled after it. The ledger is a file; the process keeps a copy in memory. */
module BudgetLedger {
  const INT64_LIMIT: int := 0x8000_0000_0000_0000
  const UINT64_LIMIT: int := 0x1_0000_0000_0000_0000

  /** A calendar day. The ledger of a fresh directory has no day yet, which is before every day. */
  type Day = nat

  const NO_DAY: Day := 0

  /** A reservation id: its day and its number on that day. */
  datatype Id = Id(day: Day, n: int)

  datatype Ledger = Ledger(day: Day, calls: int, tokens: int, next: int, pending: map<Id, int>)

  datatype Limits = Limits(dailyCalls: int, dailyTokens: int, reservation: int)

  predicate LimitsOk(l: Limits) {
    1 <= l.dailyCalls < INT64_LIMIT && 1 <= l.reservation <= l.dailyTokens < INT64_LIMIT
  }

  const EMPTY := Ledger(NO_DAY, 0, 0, 0, map[])

  // ---------------------------------------------------------------- a valid ledger

  ghost function Total(pending: map<Id, int>): int {
    if pending == map[] then 0
    else
      var id :| id in pending;
      pending[id] + Total(pending - {id})
  }

  lemma {:induction false} TotalWithout(pending: map<Id, int>, id: Id)
    requires id in pending
    ensures Total(pending) == pending[id] + Total(pending - {id})
    decreases |pending|
  {
    var first :| first in pending && Total(pending) == pending[first] + Total(pending - {first});
    if first != id {
      TotalWithout(pending - {first}, id);
      TotalWithout(pending - {id}, first);
      assert pending - {first} - {id} == pending - {id} - {first};
    }
  }

  lemma {:induction false} SizeWith(pending: map<Id, int>, id: Id, n: int)
    ensures |pending[id := n]| == |pending| + if id in pending then 0 else 1
  {
    assert pending[id := n].Keys == pending.Keys + {id};
  }

  /** One reservation more, or another one under the same id. */
  lemma {:induction false} TotalWith(pending: map<Id, int>, id: Id, n: int)
    ensures Total(pending[id := n]) == n + Total(pending - {id})
    ensures Total(pending) == Total(pending - {id}) + if id in pending then pending[id] else 0
  {
    TotalWithout(pending[id := n], id);
    assert pending[id := n] - {id} == pending - {id};
    if id in pending {
      TotalWithout(pending, id);
    } else {
      assert pending - {id} == pending;
    }
  }

  lemma {:induction false} TotalPositive(pending: map<Id, int>)
    requires forall id :: id in pending ==> pending[id] > 0
    ensures Total(pending) >= |pending|
    decreases |pending|
  {
    if pending != map[] {
      var first :| first in pending && Total(pending) == pending[first] + Total(pending - {first});
      TotalPositive(pending - {first});
      assert |pending| == |pending - {first}| + 1 by {
        assert (pending - {first})[first := pending[first]] == pending;
      }
    }
  }

  /** What is loaded from the file or written to it: the reservations that are still pending belong to
      the day, are positive and are covered by the tokens. */
  ghost predicate ValidLedger(l: Ledger) {
    && l.day != NO_DAY && 0 <= l.calls <= l.next && 0 <= l.tokens && |l.pending| <= l.calls
    && (forall id :: id in l.pending ==> id.day == l.day && l.pending[id] > 0)
    && Total(l.pending) <= l.tokens
  }

  /** The check that the program makes, one reservation after the other. */
  method CheckLedger(l: Ledger) returns (ok: bool)
    ensures ok <==> ValidLedger(l)
  {
    if l.day == NO_DAY || l.calls < 0 || l.tokens < 0 || l.calls > l.next || |l.pending| > l.calls {
      return false;
    }
    var total := 0;
    var left := l.pending;
    while left != map[]
      invariant forall id :: id in left ==> id in l.pending && left[id] == l.pending[id]
      invariant forall id :: id in l.pending && id !in left ==> id.day == l.day && l.pending[id] > 0
      invariant total + Total(left) == Total(l.pending) && total <= l.tokens
      decreases |left|
    {
      var id :| id in left;
      TotalWithout(left, id);
      if id.day != l.day || left[id] <= 0 {
        return false;
      }
      if left[id] > l.tokens - total {
        if forall other :: other in l.pending ==> l.pending[other] > 0 {
          TotalPositive(left - {id});
        }
        return false;
      }
      total := total + left[id];
      assert |left| == |left - {id}| + 1 by {
        assert (left - {id})[id := left[id]] == left;
      }
      left := left - {id};
    }
    return true;
  }

  // ---------------------------------------------------------------- booking

  function Rolled(l: Ledger, day: Day): Ledger {
    if l.day == day then l else Ledger(day, 0, 0, 0, map[])
  }

  predicate Admits(l: Ledger, limits: Limits) {
    l.calls < limits.dailyCalls && l.tokens <= limits.dailyTokens - limits.reservation
  }

  function NextNumber(l: Ledger): int {
    (l.next + 1) % UINT64_LIMIT
  }

  /** Books one more call. */
  function Booked(l: Ledger, limits: Limits): Ledger {
    var n := NextNumber(l);
    l.(next := n, calls := l.calls + 1, tokens := l.tokens + limits.reservation,
       pending := l.pending[Id(l.day, n) := limits.reservation])
  }

  /** Settles a pending call: what it did not use is given back; a call that used more than it had
      reserved uses up the day. */
  function Settled(l: Ledger, limits: Limits, id: Id, used: int): Ledger
    requires id in l.pending
  {
    l.(tokens := if used > l.pending[id] then limits.dailyTokens else l.tokens - (l.pending[id] - used),
       pending := l.pending - {id})
  }

  predicate InRange(l: Ledger) {
    0 <= l.calls < INT64_LIMIT && 0 <= l.tokens < INT64_LIMIT && 0 <= l.next < UINT64_LIMIT
  }

  /** Booking an admitted call stays within the limits and so cannot overflow. It keeps a valid ledger
      valid exactly when the unsigned call number does not wrap around: a ledger file with the
      largest number is accepted, and the next call makes it invalid. */
  lemma {:induction false} BookingKeepsLedger(l: Ledger, limits: Limits)
    requires ValidLedger(l) && InRange(l) && LimitsOk(limits) && Admits(l, limits)
    ensures InRange(Booked(l, limits))
    ensures Booked(l, limits).calls <= limits.dailyCalls && Booked(l, limits).tokens <= limits.dailyTokens
    ensures ValidLedger(Booked(l, limits)) <==> l.next < UINT64_LIMIT - 1
  {
    BookedTotal(l, limits);
  }

  lemma {:induction false} BookedTotal(l: Ledger, limits: Limits)
    requires ValidLedger(l) && limits.reservation > 0
    ensures var b := Booked(l, limits);
            && |b.pending| <= |l.pending| + 1 && Total(b.pending) <= l.tokens + limits.reservation
            && forall id :: id in b.pending ==> id.day == l.day && b.pending[id] > 0
  {
    TotalWith(l.pending, Id(l.day, NextNumber(l)), limits.reservation);
    SizeWith(l.pending, Id(l.day, NextNumber(l)), limits.reservation);
  }

  lemma {:induction false} SettlingKeepsLedger(l: Ledger, limits: Limits, id: Id, used: nat)
    requires ValidLedger(l) && InRange(l) && LimitsOk(limits) && id in l.pending && l.tokens <= limits.dailyTokens
    ensures ValidLedger(Settled(l, limits, id, used)) && InRange(Settled(l, limits, id, used))
    ensures l.tokens - l.pending[id] <= Settled(l, limits, id, used).tokens <= limits.dailyTokens
  {
    TotalWithout(l.pending, id);
    TotalPositive(l.pending - {id});
    assert |l.pending - {id}| == |l.pending| - 1 by {
      assert (l.pending - {id})[id := l.pending[id]] == l.pending;
    }
  }
}
