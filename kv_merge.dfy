/** The merge endpoint: field-aware shallow merge of a stored state document
    with a patch, revision stamping, and the write / increment sequence
    against the key-value store, with its failure handling. */
module KvMerge {
  import opened Optional
  import opened Json

  /** Fields whose sub-keys are overlaid one level deep. `security` is not one of them. */
  const ObjKeys: seq<string> := ["brand", "background", "layout", "payments"]
  /** Fields that a patch replaces wholesale and that always come out as arrays. */
  const ArrKeys: seq<string> := ["categories", "tents", "reservations", "logs"]

  /** `{ ...(o || {}) }`: the sub-keys one side contributes to an object field;
      a missing or falsy side contributes none. */
  function SubKeys(o: Option<Json>): map<string, Json> {
    Spread(OrElse(o, JObj(map[])))
  }

  /** What the merge leaves under key `k` (None: the key is absent). */
  function MergedAt(current: map<string, Json>, patch: map<string, Json>, k: string): Option<Json> {
    if k in ObjKeys then
      if k in patch then Some(JObj(SubKeys(Lookup(current, k)) + SubKeys(Lookup(patch, k))))
      else Lookup(current, k)
    else if k in ArrKeys then
      Some(if k in patch && patch[k].JArr? then patch[k]
           else if k in current && current[k].JArr? then current[k]
           else JArr([]))
    else if k in patch then Some(patch[k])
    else Lookup(current, k)
  }

  /** The merged document as a whole: the four list fields are always arrays,
      and a key the patch does not name keeps its current value. */
  function MergeSpec(current: map<string, Json>, patch: map<string, Json>): (r: map<string, Json>)
    ensures forall k :: k in ArrKeys ==> k in r && r[k].JArr?
    ensures forall k :: k in current && k !in patch && k !in ArrKeys ==> k in r && r[k] == current[k]
  {
    map k | k in current.Keys + patch.Keys + (set a | a in ArrKeys) && MergedAt(current, patch, k).Some?
      :: MergedAt(current, patch, k).value
  }

  lemma GetMergeSpec(current: map<string, Json>, patch: map<string, Json>, k: string)
    ensures Lookup(MergeSpec(current, patch), k) == MergedAt(current, patch, k)
  {
  }

  lemma MapsEqualByGet(a: map<string, Json>, b: map<string, Json>)
    requires forall k :: Lookup(a, k) == Lookup(b, k)
    ensures a == b
  {
    assert forall k :: k in a <==> Lookup(a, k).Some?;
    assert a.Keys == b.Keys;
  }

  /** `shallowMerge`: copy `current`, then fill the object fields, the array
      fields and the remaining patch keys in three loops. */
  method ShallowMerge(current: map<string, Json>, patch: map<string, Json>) returns (next: map<string, Json>)
    ensures next == MergeSpec(current, patch)
  {
    next := current;
    for i := 0 to |ObjKeys|
      invariant forall k :: Lookup(next, k) == if k in ObjKeys[..i] then MergedAt(current, patch, k) else Lookup(current, k)
    {
      var k := ObjKeys[i];
      if k in patch {
        next := next[k := JObj(SubKeys(Lookup(current, k)) + SubKeys(Lookup(patch, k)))];
      } else if k in current {
        next := next[k := current[k]];
      }
      assert ObjKeys[..i + 1] == ObjKeys[..i] + [k];
    }
    assert ObjKeys[..|ObjKeys|] == ObjKeys;
    for i := 0 to |ArrKeys|
      invariant forall k :: Lookup(next, k) ==
                           if k in ObjKeys || k in ArrKeys[..i] then MergedAt(current, patch, k) else Lookup(current, k)
    {
      var k := ArrKeys[i];
      if k in patch {
        next := next[k := if patch[k].JArr? then patch[k]
                          else if k in current && current[k].JArr? then current[k]
                          else JArr([])];
      } else {
        next := next[k := if k in current && current[k].JArr? then current[k] else JArr([])];
      }
      assert ArrKeys[..i + 1] == ArrKeys[..i] + [k];
    }
    assert ArrKeys[..|ArrKeys|] == ArrKeys;
    var rest := patch.Keys;
    while rest != {}
      invariant rest <= patch.Keys
      invariant forall k :: Lookup(next, k) ==
                           if k in ObjKeys || k in ArrKeys || k in patch.Keys - rest then MergedAt(current, patch, k)
                           else Lookup(current, k)
      decreases rest
    {
      var k :| k in rest;
      if k !in ObjKeys && k !in ArrKeys {
        next := next[k := patch[k]];
      }
      rest := rest - {k};
    }
    forall k ensures Lookup(next, k) == Lookup(MergeSpec(current, patch), k) {
      GetMergeSpec(current, patch, k);
    }
    MapsEqualByGet(next, MergeSpec(current, patch));
  }

  // ----- what the merge promises, field by field -----

  /** An object field the patch supplies: each sub-key comes from the patch when
      the patch has it, else from the current value. */
  lemma ObjectFieldOverlay(current: map<string, Json>, patch: map<string, Json>, k: string, sub: string)
    requires k in ObjKeys && k in patch
    ensures var r := MergeSpec(current, patch);
      && k in r && r[k].JObj?
      && (sub in SubKeys(Lookup(patch, k)) ==> Lookup(r[k].fields, sub) == Some(SubKeys(Lookup(patch, k))[sub]))
      && (sub !in SubKeys(Lookup(patch, k)) ==> Lookup(r[k].fields, sub) == Lookup(SubKeys(Lookup(current, k)), sub))
  {
    GetMergeSpec(current, patch, k);
  }

  /** With objects on both sides the field becomes the overlay of the patch's object on the current one. */
  lemma ObjectFieldOfObjects(current: map<string, Json>, patch: map<string, Json>, k: string,
                             a: map<string, Json>, b: map<string, Json>)
    requires k in ObjKeys && Lookup(current, k) == Some(JObj(a)) && Lookup(patch, k) == Some(JObj(b))
    ensures k in MergeSpec(current, patch) && MergeSpec(current, patch)[k] == JObj(a + b)
  {
    GetMergeSpec(current, patch, k);
  }

  /** An object field the patch omits is kept as it is, and stays absent if it was absent. */
  lemma ObjectFieldAbsent(current: map<string, Json>, patch: map<string, Json>, k: string)
    requires k in ObjKeys && k !in patch
    ensures var r := MergeSpec(current, patch);
      (k in r <==> k in current) && (k in current ==> r[k] == current[k])
  {
    GetMergeSpec(current, patch, k);
  }

  /** An array field: the patch's array replaces the current one whole; a
      non-array in the patch falls back to the current array, else `[]`. */
  lemma ArrayFieldRule(current: map<string, Json>, patch: map<string, Json>, k: string)
    requires k in ArrKeys
    ensures var r := MergeSpec(current, patch);
      && k in r
      && (k in patch && patch[k].JArr? ==> r[k] == patch[k])
      && (!(k in patch && patch[k].JArr?) && k in current && current[k].JArr? ==> r[k] == current[k])
      && (!(k in patch && patch[k].JArr?) && !(k in current && current[k].JArr?) ==> r[k] == JArr([]))
  {
    GetMergeSpec(current, patch, k);
  }

  /** Whatever the inputs, all four array fields of the result are arrays. */
  lemma ArrayFieldsAreArrays(current: map<string, Json>, patch: map<string, Json>)
    ensures forall k :: k in ArrKeys ==> k in MergeSpec(current, patch) && MergeSpec(current, patch)[k].JArr?
  {
    forall k | k in ArrKeys ensures k in MergeSpec(current, patch) && MergeSpec(current, patch)[k].JArr? {
      GetMergeSpec(current, patch, k);
    }
  }

  /** Every other patch key (`security` and `rev` among them) is copied
      verbatim; every other current key the patch omits is retained. */
  lemma OtherKeys(current: map<string, Json>, patch: map<string, Json>, k: string)
    requires k !in ObjKeys && k !in ArrKeys
    ensures var r := MergeSpec(current, patch);
      && (k in patch ==> k in r && r[k] == patch[k])
      && (k !in patch ==> (k in r <==> k in current) && (k in current ==> r[k] == current[k]))
  {
    GetMergeSpec(current, patch, k);
  }

  /** The keys of the result: those of both inputs plus the four array fields. */
  lemma MergeKeys(current: map<string, Json>, patch: map<string, Json>)
    ensures MergeSpec(current, patch).Keys == current.Keys + patch.Keys + (set a | a in ArrKeys)
  {
    var r := MergeSpec(current, patch);
    forall k | k in current.Keys + patch.Keys + (set a | a in ArrKeys) ensures k in r {
      GetMergeSpec(current, patch, k);
    }
  }

  /** Merging the same patch a second time changes nothing. */
  lemma MergeIdempotent(current: map<string, Json>, patch: map<string, Json>)
    ensures MergeSpec(MergeSpec(current, patch), patch) == MergeSpec(current, patch)
  {
    var once := MergeSpec(current, patch);
    var twice := MergeSpec(once, patch);
    forall k ensures Lookup(twice, k) == Lookup(once, k) {
      GetMergeSpec(once, patch, k);
      GetMergeSpec(current, patch, k);
      if k in ObjKeys && k in patch {
        var fields := SubKeys(Lookup(current, k)) + SubKeys(Lookup(patch, k));
        assert Lookup(once, k) == Some(JObj(fields));
        assert SubKeys(Lookup(once, k)) == fields;
        assert fields + SubKeys(Lookup(patch, k)) == fields;
      }
    }
    MapsEqualByGet(twice, once);
  }

  /** An empty patch changes nothing, except that the four array fields are normalised to arrays. */
  lemma EmptyPatch(current: map<string, Json>)
    ensures var r := MergeSpec(current, map[]);
      && (forall k :: k !in ArrKeys ==> Lookup(r, k) == Lookup(current, k))
      && (forall k :: k in ArrKeys ==> k in r && r[k] == if k in current && current[k].JArr? then current[k] else JArr([]))
  {
    forall k ensures Lookup(MergeSpec(current, map[]), k) == MergedAt(current, map[], k) {
      GetMergeSpec(current, map[], k);
    }
  }

  /** Two sequential merges, `{tents: T}` then `{categories: C}`: the second keeps the first's array. */
  lemma SequentialMergesKeepOtherArrays(current: map<string, Json>, t: seq<Json>, c: seq<Json>)
    ensures var r := MergeSpec(MergeSpec(current, map["tents" := JArr(t)]), map["categories" := JArr(c)]);
      "tents" in r && r["tents"] == JArr(t) && "categories" in r && r["categories"] == JArr(c)
  {
    var first := MergeSpec(current, map["tents" := JArr(t)]);
    GetMergeSpec(current, map["tents" := JArr(t)], "tents");
    GetMergeSpec(first, map["categories" := JArr(c)], "tents");
    GetMergeSpec(first, map["categories" := JArr(c)], "categories");
  }

  // ----- revision stamping -----

  /** `Number(x) + 1`, where NaN stays NaN (None). */
  function PlusOne(n: Option<int>): Option<int> {
    if n.Some? then Some(n.value + 1) else None
  }

  /** `Number(next?.rev || current?.rev || 0) + 1`. */
  function NextRev(current: map<string, Json>, next: map<string, Json>): (r: Option<int>)
    ensures !Truthy(OrElse(Lookup(next, "rev"), JNull)) && !Truthy(OrElse(Lookup(current, "rev"), JNull)) ==> r == Some(1)
    ensures Lookup(next, "rev").Some? && Lookup(next, "rev").value.JNum? && Lookup(next, "rev").value.n != 0
            ==> r == Some(Lookup(next, "rev").value.n + 1)
  {
    PlusOne(ToNumber(OrElse(Lookup(next, "rev"), OrElse(Lookup(current, "rev"), JNum(0)))))
  }

  /** `next.rev = nextRev`; a NaN revision is written out as `null` by `JSON.stringify`. */
  function Stamp(next: map<string, Json>, rev: Option<int>): (r: map<string, Json>)
    ensures r.Keys == next.Keys + {"rev"}
    ensures forall k :: k in next && k != "rev" ==> r[k] == next[k]
    ensures r["rev"] == JNull || r["rev"].JNum?
  {
    next["rev" := if rev.Some? then JNum(rev.value) else JNull]
  }

  /** The revision the handler stamps: the patch's `rev` if truthy, else the
      current `rev` if truthy, else 0 — plus one. It is not a maximum. */
  lemma RevRule(current: map<string, Json>, patch: map<string, Json>)
    ensures var r := NextRev(current, MergeSpec(current, patch));
      && ("rev" in patch && Truthy(patch["rev"]) ==> r == PlusOne(ToNumber(patch["rev"])))
      && ((!("rev" in patch && Truthy(patch["rev"])) && "rev" in current && Truthy(current["rev"]))
            ==> r == PlusOne(ToNumber(current["rev"])))
      && ((!("rev" in patch && Truthy(patch["rev"])) && !("rev" in current && Truthy(current["rev"])))
            ==> r == Some(1))
  {
    OtherKeys(current, patch, "rev");
  }

  /** With no `rev` in the patch and a numeric current `rev`, the new revision is exactly one more. */
  lemma RevWithoutPatchRev(current: map<string, Json>, patch: map<string, Json>, n: int)
    requires "rev" !in patch && Lookup(current, "rev") == Some(JNum(n))
    ensures NextRev(current, MergeSpec(current, patch)) == Some(n + 1)
  {
    RevRule(current, patch);
  }

  /** `Number()` coerces a revision held as a decimal string: "n" stamps n + 1. */
  lemma RevOfDecimalString(current: map<string, Json>, patch: map<string, Json>, n: int)
    requires "rev" !in patch && Lookup(current, "rev") == Some(JStr(IntToString(n)))
    ensures NextRev(current, MergeSpec(current, patch)) == Some(n + 1)
  {
    RevRule(current, patch);
    NumberOfString(n);
  }

  /** A stale patch revision wins over a newer stored one: 1 against 5 stamps 2. */
  lemma RevIsNotAMax(current: map<string, Json>, patch: map<string, Json>)
    requires Lookup(current, "rev") == Some(JNum(5)) && Lookup(patch, "rev") == Some(JNum(1))
    ensures NextRev(current, MergeSpec(current, patch)) == Some(2)
  {
    RevRule(current, patch);
  }

  // ----- the key-value store and the handler -----

  /** The outcome of one store call: the store could not be reached or
      answered with an error status, or it answered. */
  datatype Reply<T> = Failed | Ok(value: T)

  /** The remote key-value store, with the three primitives the handler uses.
      `reachable` stands for whether the HTTP call to the store succeeds. */
  class KvStore {
    var entries: map<string, Json>

    constructor (initial: map<string, Json>)
      ensures entries == initial
    {
      entries := initial;
    }

    /** GET: the value under `key`, or `null` (None) when there is none. */
    method Get(key: string, reachable: bool) returns (r: Reply<Option<Json>>)
      ensures reachable ==> r.Ok? && r.value == Lookup(entries, key)
      ensures !reachable ==> r.Failed?
    {
      if reachable {
        r := Ok(if key in entries then Some(entries[key]) else None);
      } else {
        r := Failed;
      }
    }

    /** SET with `nx: false`: an unconditional overwrite. */
    method Set(key: string, value: Json, reachable: bool) returns (ok: bool)
      modifies this
      ensures ok == reachable
      ensures entries == if ok then old(entries)[key := value] else old(entries)
    {
      ok := reachable;
      if ok {
        entries := entries[key := value];
      }
    }

    /** INCR: creates the counter at 1, or adds one to an integer; a value that
        is not an integer is an error and stays as it is. */
    method Incr(key: string, reachable: bool) returns (r: Reply<int>)
      modifies this
      ensures r == IncrReply(old(entries), key, reachable)
      ensures entries == AfterIncr(old(entries), key, reachable)
    {
      if reachable && key !in entries {
        entries := entries[key := JNum(1)];
        r := Ok(1);
      } else if reachable && entries[key].JNum? {
        var n := entries[key].n + 1;
        entries := entries[key := JNum(n)];
        r := Ok(n);
      } else {
        r := Failed;
      }
    }
  }

  predicate CanIncr(entries: map<string, Json>, key: string) {
    key !in entries || entries[key].JNum?
  }

  function IncrReply(entries: map<string, Json>, key: string, reachable: bool): Reply<int> {
    if !reachable || !CanIncr(entries, key) then Failed
    else if key in entries then Ok(entries[key].n + 1)
    else Ok(1)
  }

  function AfterIncr(entries: map<string, Json>, key: string, reachable: bool): map<string, Json> {
    var r := IncrReply(entries, key, reachable);
    if r.Ok? then entries[key := JNum(r.value)] else entries
  }

  /** What the endpoint answers. */
  datatype Response =
    | MethodNotAllowed                               // 405
    | Crashed                                        // an uncaught TypeError: `k in patch` on a primitive
    | WriteFailed                                    // the SET's own error status, passed through
    | Merged(rev: Option<int>, state: map<string, Json>)  // 200 `{ ok: true, rev, state }`

  /** `patch || {}`, read as an object: None when `k in patch` would throw. */
  function PatchFields(patch: Json): Option<map<string, Json>> {
    if !Truthy(patch) then Some(map[])
    else if patch.JObj? || patch.JArr? then Some(Spread(patch))
    else None
  }

  /** `getRes.ok ? (result || {}) : {}`, spread into its own keys. */
  function CurrentDocument(read: Reply<Option<Json>>): map<string, Json> {
    if read.Ok? then Spread(OrElse(read.value, JObj(map[]))) else map[]
  }

  /** The document the handler writes. */
  function NextDocument(current: map<string, Json>, patch: map<string, Json>): map<string, Json> {
    var next := MergeSpec(current, patch);
    Stamp(next, NextRev(current, next))
  }

  /** `incrRes.ok ? Number(result || nextRev) : nextRev`. */
  function ResolvedRev(incr: Reply<int>, nextRev: Option<int>): Option<int> {
    if incr.Ok? && incr.value != 0 then Some(incr.value) else nextRev
  }

  /** The whole endpoint as a function of the store before the call and of
      which store calls succeed: the answer and the store afterwards. */
  function HandleSpec(entries: map<string, Json>, isPost: bool, stateKey: string, patch: Json, revKey: string,
                      getUp: bool, setUp: bool, incrUp: bool): (r: (Response, map<string, Json>))
    ensures !r.0.Merged? ==> r.1 == entries
    ensures forall k :: k != stateKey && k != revKey ==> Lookup(r.1, k) == Lookup(entries, k)
    ensures r.0.Merged? && stateKey != revKey ==> Lookup(r.1, stateKey) == Some(JObj(r.0.state))
    ensures r.0.Merged? ==> isPost && PatchFields(patch).Some? && setUp
  {
    if !isPost then (MethodNotAllowed, entries)
    else
      var fields := PatchFields(patch);
      if fields.None? then (Crashed, entries)
      else
        var current := CurrentDocument(if getUp then Ok(Lookup(entries, stateKey)) else Failed);
        var next := NextDocument(current, fields.value);
        var nextRev := NextRev(current, MergeSpec(current, fields.value));
        if !setUp then (WriteFailed, entries)
        else
          var written := entries[stateKey := JObj(next)];
          var incr := IncrReply(written, revKey, incrUp);
          (Merged(ResolvedRev(incr, nextRev), next), AfterIncr(written, revKey, incrUp))
  }

  /** The endpoint: read, merge, stamp, write, increment, with early returns. */
  method Handle(store: KvStore, isPost: bool, stateKey: string, patch: Json, revKey: string,
                getUp: bool, setUp: bool, incrUp: bool) returns (resp: Response)
    modifies store
    ensures (resp, store.entries)
         == HandleSpec(old(store.entries), isPost, stateKey, patch, revKey, getUp, setUp, incrUp)
  {
    if !isPost {
      return MethodNotAllowed;
    }
    var fields := PatchFields(patch);
    if fields.None? {
      return Crashed;
    }
    var getRes := store.Get(stateKey, getUp);
    var current := CurrentDocument(getRes);
    var next := ShallowMerge(current, fields.value);
    var nextRev := NextRev(current, next);
    next := Stamp(next, nextRev);
    var setOk := store.Set(stateKey, JObj(next), setUp);
    if !setOk {
      return WriteFailed;
    }
    var incrRes := store.Incr(revKey, incrUp);
    resp := Merged(ResolvedRev(incrRes, nextRev), next);
  }

  // ----- what the handler promises -----

  /** A failed write is passed back as a failure and the store, counter included, is untouched. */
  lemma WriteFailureTouchesNothing(entries: map<string, Json>, stateKey: string, patch: Json, revKey: string,
                                   getUp: bool, incrUp: bool)
    requires PatchFields(patch).Some?
    ensures HandleSpec(entries, true, stateKey, patch, revKey, getUp, false, incrUp) == (WriteFailed, entries)
  {
  }

  /** A successful write and increment: the document is stored, the counter
      goes up by one, and the answer carries the counter's new value (the
      stamped revision when that value is 0). */
  lemma WriteThenIncrement(entries: map<string, Json>, stateKey: string, patch: Json, revKey: string,
                           getUp: bool, n: int)
    requires PatchFields(patch).Some? && stateKey != revKey
    requires Lookup(entries, revKey) == Some(JNum(n))
    ensures var (resp, after) := HandleSpec(entries, true, stateKey, patch, revKey, getUp, true, true);
      var current := CurrentDocument(if getUp then Ok(Lookup(entries, stateKey)) else Failed);
      && resp.Merged?
      && resp.state == NextDocument(current, PatchFields(patch).value)
      && after == entries[stateKey := JObj(resp.state)][revKey := JNum(n + 1)]
      && resp.rev == (if n + 1 != 0 then Some(n + 1) else NextRev(current, MergeSpec(current, PatchFields(patch).value)))
  {
    var current := CurrentDocument(if getUp then Ok(Lookup(entries, stateKey)) else Failed);
    var next := NextDocument(current, PatchFields(patch).value);
    var written := entries[stateKey := JObj(next)];
    assert written[revKey] == JNum(n);
    assert IncrReply(written, revKey, true) == Ok(n + 1);
  }

  /** The first merge against a store with no counter: the increment creates
      it at 1, and the answer carries 1. */
  lemma FirstIncrementCreatesCounter(entries: map<string, Json>, stateKey: string, patch: Json, revKey: string,
                                     getUp: bool)
    requires PatchFields(patch).Some? && stateKey != revKey && revKey !in entries
    ensures var (resp, after) := HandleSpec(entries, true, stateKey, patch, revKey, getUp, true, true);
      && resp.Merged? && resp.rev == Some(1)
      && after == entries[stateKey := JObj(resp.state)][revKey := JNum(1)]
  {
    var current := CurrentDocument(if getUp then Ok(Lookup(entries, stateKey)) else Failed);
    var next := NextDocument(current, PatchFields(patch).value);
    var written := entries[stateKey := JObj(next)];
    assert revKey !in written;
    assert IncrReply(written, revKey, true) == Ok(1);
  }

  /** A failed increment: the document is still written, the counter stays, and
      the answer falls back to the locally stamped revision. */
  lemma IncrementFailureFallsBack(entries: map<string, Json>, stateKey: string, patch: Json, revKey: string,
                                  getUp: bool)
    requires PatchFields(patch).Some? && stateKey != revKey
    ensures var (resp, after) := HandleSpec(entries, true, stateKey, patch, revKey, getUp, true, false);
      && resp.Merged?
      && after == entries[stateKey := JObj(resp.state)]
      && resp.state["rev"] == (if resp.rev.Some? then JNum(resp.rev.value) else JNull)
  {
  }

  /** A failed read is treated as an empty document: the written document then
      holds only what the patch brings, with every array field it omits
      emptied. */
  lemma ReadFailureStartsFromEmpty(entries: map<string, Json>, stateKey: string, patch: map<string, Json>,
                                   revKey: string, k: string)
    requires k in ArrKeys && k !in patch
    ensures var (resp, after) := HandleSpec(entries, true, stateKey, JObj(patch), revKey, false, true, true);
      resp.Merged? && k in resp.state && resp.state[k] == JArr([])
  {
    ArrayFieldRule(map[], patch, k);
    var current: map<string, Json> := map[];
    var fields := PatchFields(JObj(patch));
    assert fields == Some(patch);
    var next := MergeSpec(current, patch);
    assert k != "rev";
    assert NextDocument(current, patch)[k] == next[k];
  }
}
