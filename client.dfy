/** One browser's copy of the shared document and the rules by which it keeps
    in step with the store: merge (with a local fallback), poll and the first
    load (with seeding). The results of the network calls are parameters:
    `Threw` for a call that throws, `Got(v)` for the value it resolves to. */
module Client {
  import opened Optional
  import opened Json
  import opened KvMerge
  import opened Tents
  import opened Catalog
  import opened Cart
  import opened Reservations
  import opened AuditLog

  datatype Fetch<T> = Threw | Got(value: T)

  /** The document: the four lists the client works on, typed, and every
      other top-level key (`brand`, `background`, `layout`, `payments`,
      `security`, `rev`, ...) as JSON. */
  datatype Doc = Doc(
    tents: seq<Tent>, reservations: seq<Reservation>, categories: seq<Category>,
    logs: seq<LogRow>, config: map<string, Json>)

  /** A patch: the lists it carries, and its other top-level keys. */
  datatype Patch = Patch(
    tents: Option<seq<Tent>>, reservations: Option<seq<Reservation>>,
    categories: Option<seq<Category>>, logs: Option<seq<LogRow>>,
    config: map<string, Json>)

  /** A patch carrying only the given lists. */
  function ListPatch(tents: Option<seq<Tent>>, rs: Option<seq<Reservation>>, cats: Option<seq<Category>>): Patch {
    Patch(tents, rs, cats, None, map[])
  }

  // ----- the local fallback: a plain top-level overlay -----

  /** `{ ...data, ...patch }` on JSON objects: every key of the patch replaces
      the data's value as a whole. */
  function TopOverlay(data: map<string, Json>, patch: map<string, Json>): (r: map<string, Json>)
    ensures r.Keys == data.Keys + patch.Keys
    ensures forall k :: k in r ==> r[k] == if k in patch then patch[k] else data[k]
  {
    data + patch
  }

  /** `{ ...data, ...patch }` on documents: the lists the patch omits stay. */
  function Overlay(d: Doc, p: Patch): (r: Doc)
    ensures p.tents.None? ==> r.tents == d.tents
    ensures p.reservations.None? ==> r.reservations == d.reservations
    ensures p.categories.None? ==> r.categories == d.categories
    ensures p.logs.None? ==> r.logs == d.logs
    ensures r.config.Keys == d.config.Keys + p.config.Keys
  {
    Doc(p.tents.GetOr(d.tents), p.reservations.GetOr(d.reservations),
        p.categories.GetOr(d.categories), p.logs.GetOr(d.logs),
        TopOverlay(d.config, p.config))
  }

  /** Each list the patch carries replaces the document's, each list it omits
      stays, and the other keys are overlaid at top level only. */
  lemma OverlayRule(d: Doc, p: Patch)
    ensures var r := Overlay(d, p);
      && r.tents == (if p.tents.Some? then p.tents.value else d.tents)
      && r.reservations == (if p.reservations.Some? then p.reservations.value else d.reservations)
      && r.categories == (if p.categories.Some? then p.categories.value else d.categories)
      && r.logs == (if p.logs.Some? then p.logs.value else d.logs)
      && r.config.Keys == d.config.Keys + p.config.Keys
      && (forall k :: k in r.config ==> r.config[k] == if k in p.config then p.config[k] else d.config[k])
  {
  }

  /** The fallback is not the store's field-aware merge: a brand patch that
      names only `name` drops `logoUrl` locally, while the store keeps it. */
  lemma OverlayIsNotTheMerge()
    ensures var data := map["brand" := JObj(map["name" := JStr("a"), "logoUrl" := JStr("/logo.png")])];
      var patch := map["brand" := JObj(map["name" := JStr("b")])];
      && TopOverlay(data, patch)["brand"] == JObj(map["name" := JStr("b")])
      && MergeSpec(data, patch)["brand"] == JObj(map["name" := JStr("b"), "logoUrl" := JStr("/logo.png")])
  {
    var data := map["brand" := JObj(map["name" := JStr("a"), "logoUrl" := JStr("/logo.png")])];
    var patch := map["brand" := JObj(map["name" := JStr("b")])];
    GetMergeSpec(data, patch, "brand");
    assert SubKeys(Lookup(data, "brand")) + SubKeys(Lookup(patch, "brand"))
        == map["name" := JStr("b"), "logoUrl" := JStr("/logo.png")];
  }

  /** `(r || 0) + 1` in JavaScript: a falsy revision gives 1, a number n gives
      n + 1, `true` gives 2, and anything else is concatenated with "1". */
  function JsPlusOne(r: Json): (r': Json)
    ensures r'.JNum? || r'.JStr?
    ensures r'.JStr? ==> |r'.s| > 0 && r'.s[|r'.s| - 1] == '1'
  {
    if !Truthy(r) then JNum(1)
    else match r
      case JNum(n) => JNum(n + 1)
      case JBool(_) => JNum(2)
      case JStr(s) => JStr(s + "1")
      case _ => JStr(ToJsString(r) + "1")
  }

  /** A numeric local revision goes up by exactly one. */
  lemma JsPlusOneOfNumber(n: int)
    ensures JsPlusOne(JNum(n)) == JNum(n + 1)
  {
  }

  /** A string revision is not incremented but extended: "7" becomes "71". */
  lemma JsPlusOneOfString()
    ensures JsPlusOne(JStr("7")) == JStr("71")
  {
  }

  // ----- the sync state machine -----

  /** The part of a client's state the sync rules change. */
  datatype Sync = Sync(data: Doc, rev: Json)

  /** `logEvent(setData, kind, message)` at time `now`. */
  function Logged(d: Doc, kind: LogKind, message: string, now: int): Doc {
    d.(logs := LogEvent(d.logs, LogRow(now, kind, message)))
  }

  /** Logs only when there is a message (`if (logMsg) logEvent(...)`). */
  function MaybeLogged(d: Doc, kind: LogKind, message: string, now: int): Doc {
    if message != "" then Logged(d, kind, message, now) else d
  }

  /** `mergeState(patch, logMsg)`. The merge answers the merged document or
      null, or throws; after a document, the revision read answers or throws.
      A document and a revision: both adopted (a missing or falsy revision
      reads as 0). Any throw, or null: the patch is overlaid on the document
      held at that point (the merged one if it had arrived) and the old local
      revision is incremented. */
  function AfterMerge(s: Sync, patch: Patch, logMsg: string, now: int,
                      merged: Fetch<Option<Doc>>, revRead: Fetch<Option<Json>>): (r: Sync)
    ensures logMsg != "" ==> |r.data.logs| > 0 && r.data.logs[0].ts == now && r.data.logs[0].message == logMsg
    ensures !(merged.Got? && merged.value.Some? && revRead.Got?) ==> r.rev == JsPlusOne(s.rev)
  {
    if merged.Got? && merged.value.Some? && revRead.Got? then
      Sync(MaybeLogged(merged.value.value, Action, logMsg, now), OrElse(revRead.value, JNum(0)))
    else
      var held := if merged.Got? && merged.value.Some? then merged.value.value else s.data;
      Sync(MaybeLogged(Overlay(held, patch), ActionLocal, logMsg, now), JsPlusOne(s.rev))
  }

  /** A merge the store answered replaces the local document by the store's
      (the patch itself is not applied locally), takes up the stored revision,
      a missing or falsy one as 0, and logs the message as an action. */
  lemma MergeAdoptsStore(s: Sync, patch: Patch, logMsg: string, now: int, next: Doc, r: Option<Json>)
    ensures var t := AfterMerge(s, patch, logMsg, now, Got(Some(next)), Got(r));
      && t.data.tents == next.tents && t.data.reservations == next.reservations
      && t.data.categories == next.categories && t.data.config == next.config
      && t.data.logs == (if logMsg == "" then next.logs else LogEvent(next.logs, LogRow(now, Action, logMsg)))
      && t.rev == (if r.Some? && Truthy(r.value) then r.value else JNum(0))
  {
  }

  /** A merge that failed overlays the patch on the local document, keeps its
      lists the patch omits, adds one to a numeric revision and logs the
      message as a local action. */
  lemma MergeFailureFallsBack(s: Sync, patch: Patch, logMsg: string, now: int,
                              merged: Fetch<Option<Doc>>, revRead: Fetch<Option<Json>>, n: int)
    requires merged.Threw? || merged == Got(None)
    requires s.rev == JNum(n)
    ensures var t := AfterMerge(s, patch, logMsg, now, merged, revRead);
      && t.rev == JNum(n + 1)
      && (patch.tents.None? ==> t.data.tents == s.data.tents)
      && (patch.reservations.None? ==> t.data.reservations == s.data.reservations)
      && (patch.categories.Some? ==> t.data.categories == patch.categories.value)
      && t.data.config == TopOverlay(s.data.config, patch.config)
      && (logMsg != "" && patch.logs.None? ==>
            t.data.logs == LogEvent(s.data.logs, LogRow(now, ActionLocal, logMsg)))
  {
  }

  /** A revision read that throws after the merged document arrived still
      falls back: the patch goes on top of the merged document and the OLD
      revision is incremented. */
  lemma RevReadFailureAfterMerge(s: Sync, patch: Patch, now: int, next: Doc)
    ensures AfterMerge(s, patch, "", now, Got(Some(next)), Threw) == Sync(Overlay(next, patch), JsPlusOne(s.rev))
  {
  }

  /** The poll: the document and revision change only when the fetched revision
      is a number other than the local one; then the revision is adopted, and
      the document is replaced by the fetched one when that read returns one. */
  function AfterPoll(s: Sync, revRead: Fetch<Option<Json>>, stateRead: Fetch<Option<Doc>>): (r: Sync)
    ensures r == s || (r.rev.JNum? && r.rev != s.rev)
  {
    if revRead.Got? && revRead.value.Some? && revRead.value.value.JNum? && revRead.value.value != s.rev then
      var rev := revRead.value.value;
      if stateRead.Got? && stateRead.value.Some? then Sync(stateRead.value.value, rev)
      else Sync(s.data, rev)
    else s
  }

  predicate NewNumericRev(s: Sync, revRead: Fetch<Option<Json>>) {
    revRead.Got? && revRead.value.Some? && revRead.value.value.JNum? && revRead.value.value != s.rev
  }

  /** A poll changes something only on a new numeric revision, and then always adopts it. */
  lemma PollRule(s: Sync, revRead: Fetch<Option<Json>>, stateRead: Fetch<Option<Doc>>)
    ensures AfterPoll(s, revRead, stateRead) != s ==> NewNumericRev(s, revRead)
    ensures NewNumericRev(s, revRead) ==> AfterPoll(s, revRead, stateRead).rev == revRead.value.value
                                           && AfterPoll(s, revRead, stateRead) != s
    ensures NewNumericRev(s, revRead) && stateRead.Got? && stateRead.value.Some? ==>
              AfterPoll(s, revRead, stateRead).data == stateRead.value.value
    ensures NewNumericRev(s, revRead) && !(stateRead.Got? && stateRead.value.Some?) ==>
              AfterPoll(s, revRead, stateRead).data == s.data
  {
  }

  /** A revision stored as a string is never taken up by the poll. */
  lemma PollIgnoresStringRev(s: Sync, stateRead: Fetch<Option<Doc>>)
    ensures AfterPoll(s, Got(Some(JStr("5"))), stateRead) == s
  {
  }

  /** Polling twice with the same answers is polling once. */
  lemma PollIdempotent(s: Sync, revRead: Fetch<Option<Json>>, stateRead: Fetch<Option<Doc>>)
    ensures AfterPoll(AfterPoll(s, revRead, stateRead), revRead, stateRead) == AfterPoll(s, revRead, stateRead)
  {
  }

  // ----- the seed -----

  function Obj(fields: map<string, Json>): Json { JObj(fields) }

  /** The top-level keys of the initial document other than its four lists. */
  function InitialConfig(): map<string, Json> {
    map[
      "rev" := JNum(0),
      "brand" := Obj(map["name" := JStr("Coral Club"), "logoUrl" := JStr("/logo.png"), "logoSize" := JNum(42)]),
      "background" := Obj(map["publicPath" := JStr("/Mapa.png")]),
      "layout" := Obj(map["count" := JNum(20)]),
      "security" := Obj(map["adminPin" := JStr("1234")]),
      "payments" := Obj(map[
        "usdToVES" := JNum(0), "currency" := JStr("USD"), "whatsapp" := JStr("584121234567"),
        "mp" := Obj(map["link" := JStr(""), "alias" := JStr("")]),
        "pagoMovil" := Obj(map["bank" := JStr(""), "rif" := JStr(""), "phone" := JStr("")]),
        "zelle" := Obj(map["email" := JStr(""), "name" := JStr("")])])
    ]
  }

  function InitialCategories(): seq<Category> {
    [ Category("servicios", "Servicios", [
        Item("sombrilla", "Sombrilla (1 mesa + 2 sillas)", 10.0, "/img/sombrilla.png"),
        Item("toalla", "Toalla Extra", 2.0, "/img/toalla.png"),
        Item("hielera", "Hielera con Hielo", 5.0, "/img/hielera.png")]),
      Category("bebidas", "Bebidas", [
        Item("agua", "Agua Mineral", 2.5, "/img/agua.png"),
        Item("refresco", "Refresco", 3.0, "/img/refresco.png")]) ]
  }

  /** `initialData`: no tents, reservations or log rows yet. */
  function InitialDoc(): Doc {
    Doc([], [], InitialCategories(), [], InitialConfig())
  }

  /** `{ ...initialData, tents: makeGrid(initialData.layout.count) }`. */
  function Seeded(): Doc {
    InitialDoc().(tents := MakeGrid(20))
  }

  datatype Loaded = Loaded(sync: Sync, seededWrite: bool)

  /** The first load. No document in the store: the seed is written, then the
      revision 1; when both writes go through, the seed and revision 1 are
      adopted and "Seed inicial" is logged locally. A document in the store:
      it is adopted, then the stored revision (1 when there is none). A throw
      at any step keeps what was set before it. `seededWrite` says whether the
      seed document was written. */
  function AfterLoad(s: Sync, stateRead: Fetch<Option<Doc>>, seedWrite: bool, revWrite: bool,
                     revRead: Fetch<Option<Json>>, now: int): (r: Loaded)
    ensures r.seededWrite ==> stateRead == Got(None) && seedWrite
    ensures stateRead.Got? && stateRead.value.Some? ==> r.sync.data == stateRead.value.value
    ensures stateRead.Threw? ==> r.sync == s
  {
    if stateRead.Threw? then Loaded(s, false)
    else if stateRead.value.None? then
      if !seedWrite then Loaded(s, false)
      else if !revWrite then Loaded(s, true)
      else Loaded(Sync(Logged(Seeded(), System, "Seed inicial", now), JNum(1)), true)
    else
      var cur := stateRead.value.value;
      if revRead.Threw? then Loaded(Sync(cur, s.rev), false)
      else Loaded(Sync(cur, Coalesce(revRead.value, JNum(1))), false)
  }

  /** `v ?? d`: the default for a missing value or `null`, the value otherwise. */
  function Coalesce(v: Option<Json>, d: Json): (r: Json)
    ensures r == d <== v.None? || v == Some(JNull)
    ensures v.Some? && v.value != JNull ==> r == v.value
  {
    if v.None? || v.value == JNull then d else v.value
  }

  /** The log message of the administrator's state buttons: "AV", "OC" or "BL"
      (a hold, `pr`, has no button). */
  function StateLabel(state: TentState): (r: string)
    requires state != Pr
    ensures |r| == 2
  {
    if state == Av then "AV" else if state == Oc then "OC" else "BL"
  }

  /** The three buttons log three different labels. */
  lemma StateLabelsDistinct(a: TentState, b: TentState)
    requires a != Pr && b != Pr && a != b
    ensures StateLabel(a) != StateLabel(b)
  {
  }

  /** An empty store is seeded with 20 available tents and the revision 1. */
  lemma LoadSeedsEmptyStore(s: Sync, now: int, revRead: Fetch<Option<Json>>)
    ensures var l := AfterLoad(s, Got(None), true, true, revRead, now);
      && l.seededWrite
      && l.sync.rev == JNum(1)
      && |l.sync.data.tents| == 20
      && (forall i :: 0 <= i < 20 ==> l.sync.data.tents[i].id == i + 1 && l.sync.data.tents[i].state == Av)
      && l.sync.data.reservations == []
      && l.sync.data.logs == [LogRow(now, System, "Seed inicial")]
  {
  }

  /** A stored document is adopted whole; only a revision read that throws keeps the old revision,
      and a missing or `null` revision is read as 1. */
  lemma LoadAdoptsStored(s: Sync, cur: Doc, seedWrite: bool, revWrite: bool, revRead: Fetch<Option<Json>>, now: int)
    ensures var l := AfterLoad(s, Got(Some(cur)), seedWrite, revWrite, revRead, now);
      && l.sync.data == cur && !l.seededWrite
      && l.sync.rev == (if revRead.Threw? then s.rev
                     else if revRead.value.None? || revRead.value == Some(JNull) then JNum(1)
                     else revRead.value.value)
  {
  }

  /** The seed document carries `rev: 0`. */
  lemma SeedRevIsZero()
    ensures Lookup(Seeded().config, "rev") == Some(JNum(0))
  {
  }

  /** A stored document with `rev: 0`, as the seed is, next to a counter set to
      1: the first merge afterwards stamps revision 1 into the document while
      the counter moves on to 2, so the stamp and the counter disagree. */
  lemma SeedStampLagsCounter(stateKey: string, revKey: string, doc: map<string, Json>)
    requires stateKey != revKey && Lookup(doc, "rev") == Some(JNum(0))
    ensures var entries := map[stateKey := JObj(doc), revKey := JNum(1)];
      var (resp, after) := HandleSpec(entries, true, stateKey, JObj(map[]), revKey, true, true, true);
      && resp.Merged? && resp.rev == Some(2)
      && resp.state["rev"] == JNum(1)
      && after[revKey] == JNum(2)
  {
    var entries := map[stateKey := JObj(doc), revKey := JNum(1)];
    assert CurrentDocument(Ok(Lookup(entries, stateKey))) == doc;
    assert PatchFields(JObj(map[])) == Some(map[]);
    RevWithoutPatchRev(doc, map[], 0);
    var next := NextDocument(doc, map[]);
    assert next["rev"] == JNum(1);
    var written := entries[stateKey := JObj(next)];
    assert written[revKey] == JNum(1);
    assert IncrReply(written, revKey, true) == Ok(2);
  }

  // ----- what the client sends -----

  /** `data.layout.count || 20` for "Regenerar en rejilla": None where reading
      `count` of a missing or null layout throws. A count that is not a number
      is coerced as makeGrid does (NaN gives no tents). */
  function LayoutCount(config: map<string, Json>): (r: Option<int>)
    ensures r.None? <==> Lookup(config, "layout") in {None, Some(JNull)}
    ensures r.Some? && r.value != 20 ==>
      && Lookup(config, "layout").value.JObj?
      && Lookup(Lookup(config, "layout").value.fields, "count").Some?
      && Truthy(Lookup(Lookup(config, "layout").value.fields, "count").value)
  {
    var layout := Lookup(config, "layout");
    if layout.None? || layout.value == JNull then None
    else
      var c := if layout.value.JObj? then Lookup(layout.value.fields, "count") else None;
      Some(if c.Some? && Truthy(c.value) then ToNumber(c.value).GetOr(0) else 20)
  }

  /** An unset or zero count regenerates the default 20 tents. */
  lemma RegenDefaultsTo20(config: map<string, Json>)
    requires Lookup(config, "layout") == Some(JObj(map[]))
      || Lookup(config, "layout") == Some(JObj(map["count" := JNum(0)]))
    ensures LayoutCount(config) == Some(20)
  {
  }

  /** The message logged for a merge about tent `id` (`#${id}`). */
  function TentMessage(prefix: string, id: int): string {
    prefix + "#" + IntToString(id)
  }

  /** On a sweep, the message once the merge returned (`Expiraron N reservas`). */
  function SweepMessage(n: nat): string {
    "Expiraron " + NatToString(n) + " reservas"
  }

  // ----- one client -----

  class ClientState {
    var data: Doc
    var rev: Json
    var cart: seq<CartLine>
    var selectedTent: Option<Tent>
    var myPendingResId: Option<string>
    var payOpen: bool
    var loaded: bool

    /** The state before the first load. */
    constructor ()
      ensures data == InitialDoc() && rev == JNum(0) && cart == [] && selectedTent == None
      ensures myPendingResId == None && !payOpen && !loaded
    {
      data := InitialDoc();
      rev := JNum(0);
      cart := [];
      selectedTent := None;
      myPendingResId := None;
      payOpen := false;
      loaded := false;
    }

    function State(): Sync
      reads this
    {
      Sync(data, rev)
    }

    /** `logEvent`: a row at the head of the local log; nothing is sent. */
    method Log(kind: LogKind, message: string, now: int)
      modifies this
      ensures data == Logged(old(data), kind, message, now)
      ensures rev == old(rev) && cart == old(cart) && selectedTent == old(selectedTent)
      ensures myPendingResId == old(myPendingResId) && payOpen == old(payOpen) && loaded == old(loaded)
    {
      data := data.(logs := LogEvent(data.logs, LogRow(now, kind, message)));
    }

    /** `mergeState`: the try block, falling through to the catch block. */
    method MergeState(patch: Patch, logMsg: string, now: int,
                      merged: Fetch<Option<Doc>>, revRead: Fetch<Option<Json>>)
      modifies this
      ensures State() == AfterMerge(old(State()), patch, logMsg, now, merged, revRead)
      ensures cart == old(cart) && selectedTent == old(selectedTent)
      ensures myPendingResId == old(myPendingResId) && payOpen == old(payOpen) && loaded == old(loaded)
    {
      if merged.Got? && merged.value.Some? {
        data := merged.value.value;
        if revRead.Got? {
          rev := OrElse(revRead.value, JNum(0));
          if logMsg != "" {
            Log(Action, logMsg, now);
          }
          return;
        }
      }
      data := Overlay(data, patch);
      rev := JsPlusOne(rev);
      if logMsg != "" {
        Log(ActionLocal, logMsg, now);
      }
    }

    /** One poll tick; a throw anywhere ends the tick quietly. */
    method Poll(revRead: Fetch<Option<Json>>, stateRead: Fetch<Option<Doc>>)
      modifies this
      ensures State() == AfterPoll(old(State()), revRead, stateRead)
      ensures cart == old(cart) && selectedTent == old(selectedTent)
      ensures myPendingResId == old(myPendingResId) && payOpen == old(payOpen) && loaded == old(loaded)
    {
      if revRead.Got? && revRead.value.Some? {
        var r := revRead.value.value;
        if r.JNum? && r != rev {
          rev := r;
          if stateRead.Got? && stateRead.value.Some? {
            data := stateRead.value.value;
          }
        }
      }
    }

    /** The first load; `loaded` is set whatever happens. Returns whether the seed was written. */
    method Load(stateRead: Fetch<Option<Doc>>, seedWrite: bool, revWrite: bool,
                revRead: Fetch<Option<Json>>, now: int) returns (seededWrite: bool)
      modifies this
      ensures Loaded(State(), seededWrite) == AfterLoad(old(State()), stateRead, seedWrite, revWrite, revRead, now)
      ensures loaded
      ensures cart == old(cart) && selectedTent == old(selectedTent)
      ensures myPendingResId == old(myPendingResId) && payOpen == old(payOpen)
    {
      seededWrite := false;
      if stateRead.Got? {
        if stateRead.value.None? {
          var seeded := Seeded();
          if seedWrite {
            seededWrite := true;
            if revWrite {
              data := seeded;
              rev := JNum(1);
              Log(System, "Seed inicial", now);
            }
          }
        } else {
          data := stateRead.value.value;
          if revRead.Got? {
            rev := Coalesce(revRead.value, JNum(1));
          }
        }
      }
      loaded := true;
    }

    /** "Reservar": refused (nothing changes) as `Reserve` says; otherwise the
        hold is merged, remembered as this client's pending reservation, and
        the payment dialog opens. */
    method Reservar(resId: string, now: int, customer: Customer,
                    merged: Fetch<Option<Doc>>, revRead: Fetch<Option<Json>>) returns (h: Hold)
      modifies this
      ensures h == Reserve(old(data).tents, old(data).reservations, old(selectedTent), resId, now, customer, old(cart))
      ensures !h.Held? ==> State() == old(State()) && myPendingResId == old(myPendingResId) && payOpen == old(payOpen)
      ensures h.Held? ==>
        && State() == AfterMerge(old(State()), ListPatch(Some(h.tents), Some(h.reservations), None),
                                 TentMessage("Reserva creada toldo ", old(selectedTent).value.id), now, merged, revRead)
        && myPendingResId == Some(resId) && payOpen
      ensures cart == old(cart) && selectedTent == old(selectedTent) && loaded == old(loaded)
    {
      h := Reserve(data.tents, data.reservations, selectedTent, resId, now, customer, cart);
      if h.Held? {
        MergeState(ListPatch(Some(h.tents), Some(h.reservations), None),
                   TentMessage("Reserva creada toldo ", selectedTent.value.id), now, merged, revRead);
        myPendingResId := Some(resId);
        payOpen := true;
      }
    }

    /** `releaseTent`: merges the release, forgets this client's pending
        reservation if it was that one, and drops the selection of that tent
        unless it was put back on hold. */
    method ReleaseTent(tentId: int, resId: string, toState: TentState, newStatus: ResStatus, now: int,
                       merged: Fetch<Option<Doc>>, revRead: Fetch<Option<Json>>)
      modifies this
      ensures var (ts, rs) := Release(old(data).tents, old(data).reservations, tentId, resId, toState, newStatus);
        State() == AfterMerge(old(State()), ListPatch(Some(ts), Some(rs), None),
                              TentMessage("Liberar toldo ", tentId), now, merged, revRead)
      ensures myPendingResId == if old(myPendingResId) == Some(resId) then None else old(myPendingResId)
      ensures selectedTent == if old(selectedTent).Some? && old(selectedTent).value.id == tentId && toState != Pr
                              then None else old(selectedTent)
      ensures cart == old(cart) && payOpen == old(payOpen) && loaded == old(loaded)
    {
      var (ts, rs) := Release(data.tents, data.reservations, tentId, resId, toState, newStatus);
      MergeState(ListPatch(Some(ts), Some(rs), None), TentMessage("Liberar toldo ", tentId), now, merged, revRead);
      if myPendingResId == Some(resId) {
        myPendingResId := None;
      }
      if selectedTent.Some? && selectedTent.value.id == tentId && toState != Pr {
        selectedTent := None;
      }
    }

    /** `confirmPaid`: merges occupied and paid, and forgets this client's
        pending reservation if it was that one. */
    method ConfirmPaid(tentId: int, resId: string, now: int,
                       merged: Fetch<Option<Doc>>, revRead: Fetch<Option<Json>>)
      modifies this
      ensures var (ts, rs) := Reservations.ConfirmPaid(old(data).tents, old(data).reservations, tentId, resId);
        State() == AfterMerge(old(State()), ListPatch(Some(ts), Some(rs), None),
                              TentMessage("Pago confirmado ", tentId), now, merged, revRead)
      ensures myPendingResId == if old(myPendingResId) == Some(resId) then None else old(myPendingResId)
      ensures cart == old(cart) && selectedTent == old(selectedTent) && payOpen == old(payOpen) && loaded == old(loaded)
    {
      var (ts, rs) := Reservations.ConfirmPaid(data.tents, data.reservations, tentId, resId);
      MergeState(ListPatch(Some(ts), Some(rs), None), TentMessage("Pago confirmado ", tentId), now, merged, revRead);
      if myPendingResId == Some(resId) {
        myPendingResId := None;
      }
    }

    /** "Cancelar y liberar" in the payment dialog: releases this client's
        reservation if it is still pending, then closes the dialog. */
    method CancelMyHold(now: int, merged: Fetch<Option<Doc>>, revRead: Fetch<Option<Json>>)
      modifies this
      ensures !payOpen && cart == old(cart) && loaded == old(loaded)
      ensures (forall i :: 0 <= i < |old(data).reservations| ==>
                !(old(myPendingResId) == Some(old(data).reservations[i].id) && old(data).reservations[i].status == Pending))
              ==> State() == old(State()) && myPendingResId == old(myPendingResId) && selectedTent == old(selectedTent)
      ensures var f := FindPending(old(data).reservations, old(myPendingResId));
        f.Some? ==>
          && State() == AfterMerge(old(State()),
                                   ListPatch(Some(WithTentState(old(data).tents, f.value.tentId, Av)),
                                             Some(WithResStatus(old(data).reservations, f.value.id, Expired)), None),
                                   TentMessage("Liberar toldo ", f.value.tentId), now, merged, revRead)
          && myPendingResId == None
          && selectedTent == if old(selectedTent).Some? && old(selectedTent).value.id == f.value.tentId
                             then None else old(selectedTent)
    {
      var found := FindPending(data.reservations, myPendingResId);
      if found.Some? {
        ReleaseTent(found.value.tentId, found.value.id, Av, Expired, now, merged, revRead);
      }
      payOpen := false;
    }

    /** One sweep tick at time `now`. The patch is sent to the store; the local
        tents and reservations are NOT updated (a later poll brings them back
        only on a new numeric revision); if the merge call returns, the count
        is logged locally. Returns the patch sent. */
    method SweepTick(now: int, mergeReturned: bool) returns (sent: Option<(seq<Tent>, seq<Reservation>)>)
      modifies this
      ensures sent == Sweep(old(data).tents, old(data).reservations, now)
      ensures sent.Some? && mergeReturned ==>
        data == Logged(old(data), System, SweepMessage(|DueOnes(old(data).reservations, now)|), now)
      ensures !(sent.Some? && mergeReturned) ==> data == old(data)
      ensures rev == old(rev) && cart == old(cart) && selectedTent == old(selectedTent)
      ensures myPendingResId == old(myPendingResId) && payOpen == old(payOpen) && loaded == old(loaded)
    {
      sent := Sweep(data.tents, data.reservations, now);
      if sent.Some? && mergeReturned {
        Log(System, SweepMessage(|DueOnes(data.reservations, now)|), now);
      }
    }

    /** The administrator's "Disponible", "Ocupada" and "Bloqueada": the selected tent's
        state is overwritten, and the log message is the button's label for that state. */
    method AdminSetState(state: TentState, now: int,
                         merged: Fetch<Option<Doc>>, revRead: Fetch<Option<Json>>)
      requires selectedTent.Some? && state != Pr
      modifies this
      ensures State() == AfterMerge(old(State()), ListPatch(Some(WithTentState(old(data).tents, old(selectedTent).value.id, state)), None, None),
                                    StateLabel(state), now, merged, revRead)
      ensures cart == old(cart) && selectedTent == old(selectedTent)
      ensures myPendingResId == old(myPendingResId) && payOpen == old(payOpen) && loaded == old(loaded)
    {
      MergeState(ListPatch(Some(WithTentState(data.tents, selectedTent.value.id, state)), None, None),
                 StateLabel(state), now, merged, revRead);
    }

    /** "+ Agregar Toldo". */
    method AddTent(now: int, merged: Fetch<Option<Doc>>, revRead: Fetch<Option<Json>>)
      modifies this
      ensures State() == AfterMerge(old(State()), ListPatch(Some(Tents.AddTent(old(data).tents)), None, None),
                                    "Agregar toldo", now, merged, revRead)
      ensures cart == old(cart) && selectedTent == old(selectedTent)
      ensures myPendingResId == old(myPendingResId) && payOpen == old(payOpen) && loaded == old(loaded)
    {
      MergeState(ListPatch(Some(Tents.AddTent(data.tents)), None, None), "Agregar toldo", now, merged, revRead);
    }

    /** "Regenerar en rejilla": a fresh grid of `layout.count || 20` tents; nothing happens when reading the count throws. */
    method RegenGrid(now: int, merged: Fetch<Option<Doc>>, revRead: Fetch<Option<Json>>)
      modifies this
      ensures LayoutCount(old(data).config).None? ==> State() == old(State())
      ensures LayoutCount(old(data).config).Some? ==>
        State() == AfterMerge(old(State()), ListPatch(Some(MakeGrid(LayoutCount(old(data).config).value)), None, None),
                              "Regenerar grilla", now, merged, revRead)
      ensures cart == old(cart) && selectedTent == old(selectedTent)
      ensures myPendingResId == old(myPendingResId) && payOpen == old(payOpen) && loaded == old(loaded)
    {
      var count := LayoutCount(data.config);
      if count.Some? {
        MergeState(ListPatch(Some(MakeGrid(count.value)), None, None), "Regenerar grilla", now, merged, revRead);
      }
    }

    /** A catalog button: computed from the current categories; a rejected
        or cancelled edit sends nothing. */
    method EditCatalog(op: CatalogOp, now: int, merged: Fetch<Option<Doc>>, revRead: Fetch<Option<Json>>)
      requires Offered(data.categories, op)
      modifies this
      ensures var e := Apply(old(data).categories, op);
        && (e.Rejected? ==> State() == old(State()))
        && (e.Done? ==>
              State() == AfterMerge(old(State()), ListPatch(None, None, Some(e.categories)), OpMessage(op), now, merged, revRead))
      ensures cart == old(cart) && selectedTent == old(selectedTent)
      ensures myPendingResId == old(myPendingResId) && payOpen == old(payOpen) && loaded == old(loaded)
    {
      var e := Apply(data.categories, op);
      if e.Done? {
        MergeState(ListPatch(None, None, Some(e.categories)), OpMessage(op), now, merged, revRead);
      }
    }

    /** "Limpiar log": the one merge that sends the log. */
    method ClearLog(now: int, merged: Fetch<Option<Doc>>, revRead: Fetch<Option<Json>>)
      modifies this
      ensures State() == AfterMerge(old(State()), Patch(None, None, None, Some([]), map[]), "Limpiar log", now, merged, revRead)
      ensures cart == old(cart) && selectedTent == old(selectedTent)
      ensures myPendingResId == old(myPendingResId) && payOpen == old(payOpen) && loaded == old(loaded)
    {
      MergeState(Patch(None, None, None, Some([]), map[]), "Limpiar log", now, merged, revRead);
    }

    /** The cart buttons. Only the cart changes. */
    method AddToCart(it: Item)
      modifies this
      ensures cart == Cart.AddOne(old(cart), it)
      ensures State() == old(State()) && selectedTent == old(selectedTent)
      ensures myPendingResId == old(myPendingResId) && payOpen == old(payOpen) && loaded == old(loaded)
    {
      cart := Cart.AddOne(cart, it);
    }

    method RemoveFromCart(it: Item)
      modifies this
      ensures cart == Cart.RemoveOne(old(cart), it)
      ensures State() == old(State()) && selectedTent == old(selectedTent)
      ensures myPendingResId == old(myPendingResId) && payOpen == old(payOpen) && loaded == old(loaded)
    {
      cart := Cart.RemoveOne(cart, it);
    }

    method DeleteCartLine(key: string)
      modifies this
      ensures cart == Cart.DelLine(old(cart), key)
      ensures State() == old(State()) && selectedTent == old(selectedTent)
      ensures myPendingResId == old(myPendingResId) && payOpen == old(payOpen) && loaded == old(loaded)
    {
      cart := Cart.DelLine(cart, key);
    }

    method EmptyCart()
      modifies this
      ensures cart == []
      ensures State() == old(State()) && selectedTent == old(selectedTent)
      ensures myPendingResId == old(myPendingResId) && payOpen == old(payOpen) && loaded == old(loaded)
    {
      cart := [];
    }
  }

  /** `reservations.find(x => x.id === myPendingResId && x.status === "pending")`. */
  function FindPending(rs: seq<Reservation>, id: Option<string>): (r: Option<Reservation>)
    ensures r.Some? ==> r.value in rs && id == Some(r.value.id) && r.value.status == Pending
    ensures r.Some? ==> exists i :: 0 <= i < |rs| && rs[i] == r.value
                          && forall j :: 0 <= j < i ==> !(id == Some(rs[j].id) && rs[j].status == Pending)
    ensures r.None? ==> forall i :: 0 <= i < |rs| ==> !(id == Some(rs[i].id) && rs[i].status == Pending)
    decreases |rs|
  {
    if rs == [] then None
    else if id == Some(rs[0].id) && rs[0].status == Pending then Some(rs[0])
    else
      var r := FindPending(rs[1..], id);
      assert r.None? ==> forall i :: 1 <= i < |rs| ==> rs[i] == rs[1..][i - 1];
      if r.Some? then
        ghost var k :| 0 <= k < |rs[1..]| && rs[1..][k] == r.value
                       && forall j :: 0 <= j < k ==> !(id == Some(rs[1..][j].id) && rs[1..][j].status == Pending);
        assert rs[k + 1] == r.value;
        r
      else r
  }
}
