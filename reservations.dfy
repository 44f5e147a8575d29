/** The reservation lifecycle: a hold puts an available tent on `"pr"` with a
    pending reservation that expires after 15 minutes; the administrator
    confirms payment or releases it; a periodic sweep expires overdue holds. */
module Reservations {
  import opened Optional
  import opened Tents
  import opened Cart
  import opened Seqs

  /** `"pending"`, `"paid"`, `"expired"`. */
  datatype ResStatus = Pending | Paid | Expired

  datatype Customer = Customer(name: string, phone: string, email: string)

  /** Times are milliseconds since the epoch; `expiresAt` may be missing in a
      stored document, and the sweep skips such a reservation. */
  datatype Reservation = Reservation(
    id: string, tentId: int, status: ResStatus,
    createdAt: int, expiresAt: Option<int>,
    customer: Customer, cart: seq<CartLine>)

  /** `HOLD_MINUTES` (15) in milliseconds. */
  const HoldMs: int := 15 * 60000

  // ----- rewrites by id -----

  /** `reservations.map(r => r.id === id ? { ...r, status } : r)`. */
  function WithResStatus(rs: seq<Reservation>, id: string, status: ResStatus): (r: seq<Reservation>)
    ensures |r| == |rs|
    ensures forall i :: 0 <= i < |rs| ==>
      r[i] == if rs[i].id == id then rs[i].(status := status) else rs[i]
  {
    seq(|rs|, i requires 0 <= i < |rs| => if rs[i].id == id then rs[i].(status := status) else rs[i])
  }

  // ----- creating a hold -----

  datatype Hold =
    | NoSelection  // "Selecciona un toldo disponible primero"
    | Unavailable  // "Ese toldo ya no está disponible"
    | Held(tents: seq<Tent>, reservations: seq<Reservation>, reservation: Reservation)

  /** The reservation `reservar` builds: pending, for the selected tent, expiring 15 minutes after `now`. */
  function NewReservation(id: string, tentId: int, now: int, customer: Customer, cart: seq<CartLine>): Reservation {
    Reservation(id, tentId, Pending, now, Some(now + HoldMs), customer, cart)
  }

  /** `reservar`: refused when nothing is selected, or when the first tent in the
      document with the selected id is missing or not available (the selection
      itself may be stale; only the document's copy is checked). Otherwise every
      tent with that id goes on hold and the new reservation goes first. */
  function Reserve(tents: seq<Tent>, rs: seq<Reservation>, selected: Option<Tent>,
                   resId: string, now: int, customer: Customer, cart: seq<CartLine>): (h: Hold)
    ensures h.NoSelection? <==> selected.None?
    ensures h.Unavailable? <==>
      selected.Some? && (FindTent(tents, selected.value.id).None? || FindTent(tents, selected.value.id).value.state != Av)
    ensures h.Held? ==>
      && h.reservation == NewReservation(resId, selected.value.id, now, customer, cart)
      && h.reservations == [h.reservation] + rs
      && |h.tents| == |tents|
      && (forall i :: 0 <= i < |tents| ==>
            h.tents[i] == if tents[i].id == selected.value.id then tents[i].(state := Pr) else tents[i])
  {
    if selected.None? then NoSelection
    else
      var t := FindTent(tents, selected.value.id);
      if t.None? || t.value.state != Av then Unavailable
      else
        var res := NewReservation(resId, t.value.id, now, customer, cart);
        Held(WithTentState(tents, t.value.id, Pr), [res] + rs, res)
  }

  // ----- confirm and release -----

  /** `releaseTent(tentId, resId, toState, newStatus)`: the tents with that id take
      `toState`, the reservations with that id take `newStatus`; nothing is checked,
      and ids, order and lengths stay. */
  function Release(tents: seq<Tent>, rs: seq<Reservation>, tentId: int, resId: string,
                   toState: TentState, newStatus: ResStatus): (r: (seq<Tent>, seq<Reservation>))
    ensures Ids(r.0) == Ids(tents) && |r.1| == |rs|
    ensures forall i :: 0 <= i < |tents| && tents[i].id == tentId ==> r.0[i].state == toState
    ensures forall i :: 0 <= i < |rs| ==> r.1[i].id == rs[i].id && (rs[i].id == resId ==> r.1[i].status == newStatus)
  {
    WithTentStateKeepsIds(tents, tentId, toState);
    (WithTentState(tents, tentId, toState), WithResStatus(rs, resId, newStatus))
  }

  /** `confirmPaid(tentId, resId)`: that tent occupied, that reservation paid. */
  function ConfirmPaid(tents: seq<Tent>, rs: seq<Reservation>, tentId: int, resId: string): (r: (seq<Tent>, seq<Reservation>))
    ensures Ids(r.0) == Ids(tents) && |r.1| == |rs|
    ensures forall i :: 0 <= i < |tents| && tents[i].id == tentId ==> r.0[i].state == Oc
    ensures forall i :: 0 <= i < |rs| && rs[i].id == resId ==> r.1[i].status == Paid
  {
    Release(tents, rs, tentId, resId, Oc, Paid)
  }

  /** Release and confirm rewrite only the tent and the reservation with the given ids. */
  lemma ReleaseOnlyThose(tents: seq<Tent>, rs: seq<Reservation>, tentId: int, resId: string,
                         toState: TentState, newStatus: ResStatus)
    ensures var (ts, rs') := Release(tents, rs, tentId, resId, toState, newStatus);
      && |ts| == |tents| && |rs'| == |rs|
      && (forall i :: 0 <= i < |tents| ==> if tents[i].id == tentId then ts[i].state == toState && ts[i].id == tentId
                                           else ts[i] == tents[i])
      && (forall i :: 0 <= i < |rs| ==> if rs[i].id == resId then rs'[i] == rs[i].(status := newStatus)
                                        else rs'[i] == rs[i])
  {
  }

  /** Confirming the same payment twice gives the same arrays as confirming it once. */
  lemma ConfirmPaidIdempotent(tents: seq<Tent>, rs: seq<Reservation>, tentId: int, resId: string)
    ensures var (ts, rs') := ConfirmPaid(tents, rs, tentId, resId);
      ConfirmPaid(ts, rs', tentId, resId) == (ts, rs')
  {
    ReleaseIdempotent(tents, rs, tentId, resId, Oc, Paid);
  }

  /** Any release, repeated, is the release once. */
  lemma ReleaseIdempotent(tents: seq<Tent>, rs: seq<Reservation>, tentId: int, resId: string,
                          toState: TentState, newStatus: ResStatus)
    ensures var (ts, rs') := Release(tents, rs, tentId, resId, toState, newStatus);
      Release(ts, rs', tentId, resId, toState, newStatus) == (ts, rs')
  {
    WithTentStateIdempotent(tents, tentId, toState);
    var rs' := WithResStatus(rs, resId, newStatus);
    assert WithResStatus(rs', resId, newStatus) == rs';
  }

  // ----- the expiry sweep -----

  /** `r.status === "pending" && r.expiresAt && r.expiresAt <= now`. */
  predicate Due(r: Reservation, now: int) {
    r.status == Pending && r.expiresAt.Some? && r.expiresAt.value <= now
  }

  /** `reservations.filter(...)`: the due reservations, in order. */
  function DueOnes(rs: seq<Reservation>, now: int): (r: seq<Reservation>)
    ensures forall x :: x in r <==> x in rs && Due(x, now)
    ensures |r| <= |rs|
  {
    Filter(rs, (x: Reservation) => Due(x, now))
  }

  /** The due list of two runs of reservations is the due list of each, in
      order; a single reservation counts once if due. So the logged count is
      the number of due reservations. */
  lemma DueOnesSplit(a: seq<Reservation>, b: seq<Reservation>, x: Reservation, now: int)
    ensures DueOnes(a + b, now) == DueOnes(a, now) + DueOnes(b, now)
    ensures DueOnes([x], now) == if Due(x, now) then [x] else []
  {
    FilterAppend(a, b, (y: Reservation) => Due(y, now));
    FilterOne(x, (y: Reservation) => Due(y, now));
  }

  predicate RefersTo(expired: seq<Reservation>, tentId: int) {
    exists i :: 0 <= i < |expired| && expired[i].tentId == tentId
  }

  predicate HasResId(expired: seq<Reservation>, id: string) {
    exists i :: 0 <= i < |expired| && expired[i].id == id
  }

  /** Every tent that some expired reservation refers to becomes available, whatever its state. */
  function SweepTents(tents: seq<Tent>, expired: seq<Reservation>): (r: seq<Tent>)
    ensures |r| == |tents|
    ensures forall i :: 0 <= i < |tents| ==>
      r[i] == if RefersTo(expired, tents[i].id) then tents[i].(state := Av) else tents[i]
  {
    seq(|tents|, i requires 0 <= i < |tents| =>
      if RefersTo(expired, tents[i].id) then tents[i].(state := Av) else tents[i])
  }

  /** Every reservation whose id is one of the expired ones becomes expired. */
  function SweepReservations(rs: seq<Reservation>, expired: seq<Reservation>): (r: seq<Reservation>)
    ensures |r| == |rs|
    ensures forall i :: 0 <= i < |rs| ==>
      r[i] == if HasResId(expired, rs[i].id) then rs[i].(status := Expired) else rs[i]
  {
    seq(|rs|, i requires 0 <= i < |rs| =>
      if HasResId(expired, rs[i].id) then rs[i].(status := Expired) else rs[i])
  }

  /** One tick of the sweep: None when nothing is due (no merge is sent), else
      the patch's tents and reservations. */
  function Sweep(tents: seq<Tent>, rs: seq<Reservation>, now: int): (r: Option<(seq<Tent>, seq<Reservation>)>)
    ensures r.Some? ==> Ids(r.value.0) == Ids(tents) && |r.value.1| == |rs|
    ensures r.Some? ==> forall i :: 0 <= i < |rs| ==> r.value.1[i].id == rs[i].id
  {
    var expired := DueOnes(rs, now);
    if expired == [] then None
    else Some((SweepTents(tents, expired), SweepReservations(rs, expired)))
  }

  predicate UniqueResIds(rs: seq<Reservation>) {
    forall i, j :: 0 <= i < j < |rs| ==> rs[i].id != rs[j].id
  }

  /** A sweep is sent exactly when some reservation is due. */
  lemma SweepSentIffDue(tents: seq<Tent>, rs: seq<Reservation>, now: int)
    ensures Sweep(tents, rs, now).Some? <==> exists i :: 0 <= i < |rs| && Due(rs[i], now)
  {
    var e := DueOnes(rs, now);
    if e != [] {
      assert e[0] in e;
    } else {
      forall i | 0 <= i < |rs| ensures !Due(rs[i], now) {
        assert rs[i] in rs;
      }
    }
  }

  /** With unique reservation ids, the sweep expires exactly the due reservations,
      in place, and makes available exactly the tents they refer to. */
  lemma SweepMarksExactlyDue(tents: seq<Tent>, rs: seq<Reservation>, now: int)
    requires UniqueResIds(rs)
    requires Sweep(tents, rs, now).Some?
    ensures var (ts, rs') := Sweep(tents, rs, now).value;
      && |rs'| == |rs| && |ts| == |tents|
      && (forall i :: 0 <= i < |rs| ==> rs'[i] == if Due(rs[i], now) then rs[i].(status := Expired) else rs[i])
      && (forall i :: 0 <= i < |tents| ==>
            ts[i] == if exists k :: 0 <= k < |rs| && Due(rs[k], now) && rs[k].tentId == tents[i].id
                     then tents[i].(state := Av) else tents[i])
  {
    var e := DueOnes(rs, now);
    forall i | 0 <= i < |rs| ensures HasResId(e, rs[i].id) <==> Due(rs[i], now) {
      if Due(rs[i], now) {
        assert rs[i] in e;
      }
      if HasResId(e, rs[i].id) {
        var k :| 0 <= k < |e| && e[k].id == rs[i].id;
        assert e[k] in rs;
        var m :| 0 <= m < |rs| && rs[m] == e[k];
        assert m == i;
      }
    }
    forall t: int ensures RefersTo(e, t) <==> exists k :: 0 <= k < |rs| && Due(rs[k], now) && rs[k].tentId == t {
      if RefersTo(e, t) {
        var k :| 0 <= k < |e| && e[k].tentId == t;
        assert e[k] in rs;
        var m :| 0 <= m < |rs| && rs[m] == e[k];
        assert Due(rs[m], now) && rs[m].tentId == t;
      }
      if exists k :: 0 <= k < |rs| && Due(rs[k], now) && rs[k].tentId == t {
        var k :| 0 <= k < |rs| && Due(rs[k], now) && rs[k].tentId == t;
        assert rs[k] in e;
      }
    }
  }

  /** Without unique ids the sweep also expires a reservation that was not due,
      namely one sharing its id with a due one. */
  lemma SweepExpiresNamesakes()
    ensures var c := Customer("", "", "");
      var due := Reservation("r", 1, Pending, 0, Some(10), c, []);
      var paid := Reservation("r", 2, Paid, 0, Some(10), c, []);
      var (_, rs') := Sweep([], [due, paid], 20).value;
      !Due(paid, 20) && rs'[1].status == Expired
  {
    var c := Customer("", "", "");
    var due := Reservation("r", 1, Pending, 0, Some(10), c, []);
    var paid := Reservation("r", 2, Paid, 0, Some(10), c, []);
    assert [due, paid][1..] == [paid];
    DueOnesSplit([due], [paid], due, 20);
    DueOnesSplit([], [], paid, 20);
    assert [due] + [paid] == [due, paid];
    assert HasResId([due], paid.id);
  }

  /** The sweep frees a tent whatever its state: an occupied tent that a stale
      pending reservation still names becomes available. */
  lemma SweepFreesOccupiedTent()
    ensures var stale := Reservation("a", 1, Pending, 0, Some(10), Customer("", "", ""), []);
      var (ts, _) := Sweep([Tent(1, Oc, Centre)], [stale], 20).value;
      ts[0].state == Av
  {
    var stale := Reservation("a", 1, Pending, 0, Some(10), Customer("", "", ""), []);
    assert DueOnes([stale], 20) == [stale];
    assert RefersTo([stale], 1);
  }

  /** Once the patch is applied, a second sweep at the same time finds nothing. */
  lemma SecondSweepFindsNothing(tents: seq<Tent>, rs: seq<Reservation>, now: int)
    requires Sweep(tents, rs, now).Some?
    ensures var (ts, rs') := Sweep(tents, rs, now).value;
      Sweep(ts, rs', now).None?
  {
    var e := DueOnes(rs, now);
    var rs' := SweepReservations(rs, e);
    forall i | 0 <= i < |rs'| ensures !Due(rs'[i], now) {
      if Due(rs[i], now) {
        assert rs[i] in e;
      }
    }
    NothingDue(rs', now);
  }

  lemma NothingDue(rs: seq<Reservation>, now: int)
    requires forall i :: 0 <= i < |rs| ==> !Due(rs[i], now)
    ensures DueOnes(rs, now) == []
  {
    FilterNone(rs, (x: Reservation) => Due(x, now));
  }

  // ----- the hold invariant -----

  /** Every tent on hold is backed by a pending reservation for it. */
  predicate HoldsBacked(tents: seq<Tent>, rs: seq<Reservation>) {
    forall i :: 0 <= i < |tents| && tents[i].state == Pr ==>
      exists k :: 0 <= k < |rs| && rs[k].status == Pending && rs[k].tentId == tents[i].id
  }

  /** A successful hold keeps every hold backed. */
  lemma ReservePreservesHolds(tents: seq<Tent>, rs: seq<Reservation>, selected: Option<Tent>,
                              resId: string, now: int, customer: Customer, cart: seq<CartLine>)
    requires HoldsBacked(tents, rs)
    requires Reserve(tents, rs, selected, resId, now, customer, cart).Held?
    ensures var h := Reserve(tents, rs, selected, resId, now, customer, cart);
      HoldsBacked(h.tents, h.reservations)
  {
    var h := Reserve(tents, rs, selected, resId, now, customer, cart);
    forall i | 0 <= i < |h.tents| && h.tents[i].state == Pr
      ensures exists k :: 0 <= k < |h.reservations| && h.reservations[k].status == Pending
                          && h.reservations[k].tentId == h.tents[i].id
    {
      if tents[i].id == selected.value.id {
        assert h.reservations[0].tentId == h.tents[i].id;
      } else {
        var k :| 0 <= k < |rs| && rs[k].status == Pending && rs[k].tentId == tents[i].id;
        assert h.reservations[k + 1] == rs[k];
      }
    }
  }

  /** With unique reservation ids, the sweep keeps every hold backed: a hold whose
      reservations all came due is released. */
  lemma SweepPreservesHolds(tents: seq<Tent>, rs: seq<Reservation>, now: int)
    requires HoldsBacked(tents, rs) && UniqueResIds(rs)
    requires Sweep(tents, rs, now).Some?
    ensures var (ts, rs') := Sweep(tents, rs, now).value;
      HoldsBacked(ts, rs')
  {
    SweepMarksExactlyDue(tents, rs, now);
    var (ts, rs') := Sweep(tents, rs, now).value;
    forall i | 0 <= i < |ts| && ts[i].state == Pr
      ensures exists k :: 0 <= k < |rs'| && rs'[k].status == Pending && rs'[k].tentId == ts[i].id
    {
      assert tents[i].state == Pr && ts[i] == tents[i];
      var k :| 0 <= k < |rs| && rs[k].status == Pending && rs[k].tentId == tents[i].id;
      assert !Due(rs[k], now);
      assert rs'[k] == rs[k];
    }
  }
}
