/** The per-shade motion bookkeeping of the coordinator
    (coordinator.py:29-40, 95-246, 382-435) as values: the state record,
    what one hub observation does to it, status ingestion as a fold over the
    hub's list, the cache prune, the failsafe clear, the effective position,
    the state a command leaves and the verify decision.  The class in
    coordinator.dfy applies these to its maps in place. */
module Motion {
  import opened Wrappers
  import opened Json
  import opened PyText

  /** `ShadeMotionState`; times are monotonic seconds. */
  datatype MotionState = MotionState(
    lastHubPos: Option<int>,
    pendingTarget: Option<int>,
    inMotion: bool,
    lastControlTs: Option<real>,
    retryAttempted: bool,
    uiMotionDir: int,
    uiMotionUntil: Option<real>)

  /** A fresh `ShadeMotionState()`. */
  const Idle := MotionState(None, None, false, None, false, 0, None)

  /** A hub position this close to the target counts as arrived. */
  const Tolerance := 2

  predicate Near(pos: int, target: int) {
    -Tolerance <= pos - target <= Tolerance
  }

  /** The shade is still tracked as moving. */
  predicate Pending(s: MotionState) {
    s.inMotion && s.pendingTarget.Some?
  }

  /** `in_motion` and `pending_target` are written together everywhere,
      so a shade is in motion exactly when it has a target. */
  predicate Coherent(s: MotionState) {
    s.inMotion <==> s.pendingTarget.Some?
  }

  predicate AllCoherent(m: map<string, MotionState>) {
    forall u :: u in m ==> Coherent(m[u])
  }

  /** `_pending_uids`: the shades still tracked as moving. */
  function PendingSet(m: map<string, MotionState>): (r: set<string>)
    ensures r <= m.Keys
    ensures AllCoherent(m) ==> forall u :: u in m ==> (u in r <==> m[u].inMotion)
  {
    set u | u in m && Pending(m[u])
  }

  // ---------------------------------------------------------------------
  // One hub observation

  /** What a hub reading `pos` does to a shade's state: `last_hub_pos`
      takes it, and a moving shade within tolerance of its target stops. */
  function Observe(s: MotionState, pos: Option<int>): (r: MotionState)
    ensures r.lastHubPos == pos
    ensures Pending(r) <==> Pending(s) && (pos.None? || !Near(pos.value, s.pendingTarget.value))
    ensures Pending(r) ==> r.pendingTarget == s.pendingTarget
    ensures Coherent(s) ==> Coherent(r)
    ensures r.retryAttempted == s.retryAttempted && r.lastControlTs == s.lastControlTs
    ensures r.uiMotionDir == s.uiMotionDir && r.uiMotionUntil == s.uiMotionUntil
  {
    var r := s.(lastHubPos := pos);
    if Pending(s) && pos.Some? && Near(pos.value, s.pendingTarget.value) then
      r.(inMotion := false, pendingTarget := None)
    else r
  }

  /** A run of observations, in order. */
  function ObserveAll(s: MotionState, obs: seq<Option<int>>): MotionState
    decreases |obs|
  {
    if obs == [] then s else Observe(ObserveAll(s, obs[..|obs| - 1]), obs[|obs| - 1])
  }

  /** A moving shade stops during a run of observations exactly when one of
      them is within tolerance of its target; until then the target stays;
      the last observation is the one remembered; the retry flag is
      untouched. */
  lemma {:induction false} ObserveAllFacts(s: MotionState, obs: seq<Option<int>>)
    ensures Pending(ObserveAll(s, obs)) <==>
      Pending(s) && forall i :: 0 <= i < |obs| && obs[i].Some? ==> !Near(obs[i].value, s.pendingTarget.value)
    ensures Pending(ObserveAll(s, obs)) ==> ObserveAll(s, obs).pendingTarget == s.pendingTarget
    ensures obs != [] ==> ObserveAll(s, obs).lastHubPos == obs[|obs| - 1]
    ensures obs == [] ==> ObserveAll(s, obs) == s
    ensures ObserveAll(s, obs).retryAttempted == s.retryAttempted
    ensures Coherent(s) ==> Coherent(ObserveAll(s, obs))
    decreases |obs|
  {
    if obs != [] {
      var pre := obs[..|obs| - 1];
      ObserveAllFacts(s, pre);
      assert forall i :: 0 <= i < |pre| ==> pre[i] == obs[i];
    }
  }

  // ---------------------------------------------------------------------
  // Status ingestion (`_build_status_by_uid`)

  /** The cached status of one shade: the three keys the coordinator keeps,
      each present or absent. */
  datatype StatusRecord = StatusRecord(position: Option<Json>, battery: Option<Json>, name: Option<Json>)

  const EmptyRecord := StatusRecord(None, None, None)

  /** `cur[key] = item[key]` when `key in item`. */
  function Copy(cur: Option<Json>, item: Object, key: string): (r: Option<Json>)
    ensures HasKey(item, key) ==> r == Some(Get(item, key))
    ensures !HasKey(item, key) ==> r == cur
  {
    if HasKey(item, key) then Some(Get(item, key)) else cur
  }

  /** The three keys of `item` merged into a record. */
  function Merge(cur: StatusRecord, item: Object): StatusRecord {
    StatusRecord(
      Copy(cur.position, item, "BottomRailPosition"),
      Copy(cur.battery, item, "BatteryVoltage"),
      Copy(cur.name, item, "Name"))
  }

  /** `str(item.get("PeripheralUID") or "")`; empty means the item is
      skipped. */
  function UidOf(item: Object): (u: string)
    ensures u == [] <==> !Truthy(Get(item, "PeripheralUID"))
  {
    var v := Get(item, "PeripheralUID");
    if Truthy(v) then PyStr(v) else ""
  }

  /** `int(pos) if pos is not None else None`, a value `int()` refuses
      giving None too. */
  function PosOf(pos: Option<Json>): Option<int> {
    match pos
    case None => None
    case Some(v) => PyInt(v)
  }

  function PositionOf(rec: StatusRecord): Option<int> {
    PosOf(rec.position)
  }

  /** The status map being built and the motion map. */
  datatype Tables = Tables(status: map<string, StatusRecord>, motion: map<string, MotionState>)

  /** One iteration of the ingestion loop. */
  function Step(t: Tables, item: Object): (r: Tables)
    ensures UidOf(item) == [] ==> r == t
    ensures UidOf(item) != [] ==>
      r.status.Keys == t.status.Keys + {UidOf(item)} && r.motion.Keys == t.motion.Keys + {UidOf(item)} &&
      r.motion[UidOf(item)].lastHubPos == PositionOf(r.status[UidOf(item)])
    ensures forall v :: v in t.status && v != UidOf(item) ==> r.status[v] == t.status[v]
    ensures forall v :: v in t.motion && v != UidOf(item) ==> r.motion[v] == t.motion[v]
  {
    var u := UidOf(item);
    if u == [] then t
    else
      var rec := Merge(if u in t.status then t.status[u] else EmptyRecord, item);
      var st := if u in t.motion then t.motion[u] else Idle;
      Tables(t.status[u := rec], t.motion[u := Observe(st, PositionOf(rec))])
  }

  /** The ingestion loop over `items`, in order. */
  function IngestAll(t: Tables, items: seq<Object>): (r: Tables)
    ensures t.status.Keys <= r.status.Keys && t.motion.Keys <= r.motion.Keys
    decreases |items|
  {
    if items == [] then t else Step(IngestAll(t, items[..|items| - 1]), items[|items| - 1])
  }

  /** `_build_status_by_uid(items)` against the motion map `m`: the status
      map it returns and the motion map it leaves. */
  function Ingest(m: map<string, MotionState>, items: seq<Object>): (r: Tables)
    ensures m.Keys <= r.motion.Keys
    ensures items == [] ==> r == Tables(map[], m)
  {
    IngestAll(Tables(map[], m), items)
  }

  /** The uids the items name (falsy ones skipped). */
  function Listed(items: seq<Object>): (r: set<string>)
    ensures [] !in r
    decreases |items|
  {
    if items == [] then {}
    else
      var u := UidOf(items[|items| - 1]);
      Listed(items[..|items| - 1]) + (if u == [] then {} else {u})
  }

  /** Ingestion adds exactly the listed uids to both maps. */
  lemma {:induction false} IngestKeys(t: Tables, items: seq<Object>)
    ensures IngestAll(t, items).status.Keys == t.status.Keys + Listed(items)
    ensures IngestAll(t, items).motion.Keys == t.motion.Keys + Listed(items)
    decreases |items|
  {
    if items != [] {
      IngestKeys(t, items[..|items| - 1]);
    }
  }

  /** A uid the items do not name keeps its state and its record. */
  lemma {:induction false} IngestUnlisted(t: Tables, items: seq<Object>, u: string)
    requires u !in Listed(items)
    ensures u in IngestAll(t, items).motion <==> u in t.motion
    ensures u in t.motion ==> IngestAll(t, items).motion[u] == t.motion[u]
    ensures u in IngestAll(t, items).status <==> u in t.status
    ensures u in t.status ==> IngestAll(t, items).status[u] == t.status[u]
    decreases |items|
  {
    if items != [] {
      IngestUnlisted(t, items[..|items| - 1], u);
    }
  }

  /** The value `key` has in the last item for `u` that holds it. */
  function LastValue(items: seq<Object>, u: string, key: string): Option<Json>
    decreases |items|
  {
    if items == [] then None
    else
      var x := items[|items| - 1];
      if UidOf(x) == u && HasKey(x, key) then Some(Get(x, key))
      else LastValue(items[..|items| - 1], u, key)
  }

  /** The record `_build_status_by_uid` returns for a listed uid holds, for
      each of the three keys, the value from the last item that carried it,
      and nothing for a key no item carried. */
  lemma {:induction false} IngestLastWins(m: map<string, MotionState>, items: seq<Object>, u: string)
    requires u in Listed(items)
    ensures u in Ingest(m, items).status
    ensures Ingest(m, items).status[u] == StatusRecord(
      LastValue(items, u, "BottomRailPosition"),
      LastValue(items, u, "BatteryVoltage"),
      LastValue(items, u, "Name"))
    decreases |items|
  {
    var pre := items[..|items| - 1];
    var x := items[|items| - 1];
    var before := Ingest(m, pre).status;
    IngestKeys(Tables(map[], m), items);
    IngestKeys(Tables(map[], m), pre);
    var base: StatusRecord;
    if u in Listed(pre) {
      IngestLastWins(m, pre, u);
      base := before[u];
    } else {
      LastValueUnlisted(pre, u, "BottomRailPosition");
      LastValueUnlisted(pre, u, "BatteryVoltage");
      LastValueUnlisted(pre, u, "Name");
      base := EmptyRecord;
    }
    assert base == StatusRecord(
      LastValue(pre, u, "BottomRailPosition"),
      LastValue(pre, u, "BatteryVoltage"),
      LastValue(pre, u, "Name"));
    assert Ingest(m, items) == Step(Ingest(m, pre), x);
    if UidOf(x) == u {
      assert Ingest(m, items).status[u] == Merge(base, x);
    } else {
      assert Ingest(m, items).status[u] == before[u];
    }
  }

  lemma {:induction false} LastValueUnlisted(items: seq<Object>, u: string, key: string)
    requires u != [] && u !in Listed(items)
    ensures LastValue(items, u, key) == None
    decreases |items|
  {
    if items != [] {
      LastValueUnlisted(items[..|items| - 1], u, key);
    }
  }

  /** The positions the hub reported for `u`, one per item naming it, each
      read from the record merged so far. */
  function Observed(items: seq<Object>, u: string): seq<Option<int>>
    decreases |items|
  {
    if items == [] then []
    else
      Observed(items[..|items| - 1], u) +
      (if UidOf(items[|items| - 1]) == u then [PosOf(LastValue(items, u, "BottomRailPosition"))] else [])
  }

  lemma {:induction false} ObservedUnlisted(items: seq<Object>, u: string)
    requires u != [] && u !in Listed(items)
    ensures Observed(items, u) == []
    decreases |items|
  {
    if items != [] {
      ObservedUnlisted(items[..|items| - 1], u);
    }
  }

  function StateOf(m: map<string, MotionState>, u: string): MotionState {
    if u in m then m[u] else Idle
  }

  /** Shade by shade, ingestion is the run of that shade's own
      observations applied to its previous state (a fresh one when it had
      none). */
  lemma {:induction false} IngestPerShade(m: map<string, MotionState>, items: seq<Object>, u: string)
    requires u != [] && (u in m || u in Listed(items))
    ensures u in Ingest(m, items).motion
    ensures Ingest(m, items).motion[u] == ObserveAll(StateOf(m, u), Observed(items, u))
    decreases |items|
  {
    IngestKeys(Tables(map[], m), items);
    if items == [] {
      assert Observed(items, u) == [];
    } else {
      var pre := items[..|items| - 1];
      var x := items[|items| - 1];
      IngestKeys(Tables(map[], m), pre);
      if UidOf(x) == u {
        if u in m || u in Listed(pre) {
          IngestPerShade(m, pre, u);
        } else {
          ObservedUnlisted(pre, u);
        }
        if u in Listed(pre) {
          IngestLastWins(m, pre, u);
        } else {
          LastValueUnlisted(pre, u, "BottomRailPosition");
        }
        IngestLastWins(m, items, u);
        var obs := Observed(items, u);
        assert obs[..|obs| - 1] == Observed(pre, u);
      } else {
        IngestPerShade(m, pre, u);
        assert Observed(items, u) == Observed(pre, u);
      }
    }
  }

  /** After ingestion every listed shade remembers the position its
      returned record holds. */
  lemma IngestLastHubPos(m: map<string, MotionState>, items: seq<Object>, u: string)
    requires u in Listed(items)
    ensures u in Ingest(m, items).motion && u in Ingest(m, items).status
    ensures Ingest(m, items).motion[u].lastHubPos == PositionOf(Ingest(m, items).status[u])
  {
    IngestKeys(Tables(map[], m), items);
    IngestPerShade(m, items, u);
    IngestLastWins(m, items, u);
    ObservedLast(items, u);
    ObserveAllFacts(StateOf(m, u), Observed(items, u));
  }

  lemma {:induction false} ObservedLast(items: seq<Object>, u: string)
    requires u in Listed(items)
    ensures Observed(items, u) != []
    ensures Observed(items, u)[|Observed(items, u)| - 1] == PosOf(LastValue(items, u, "BottomRailPosition"))
    decreases |items|
  {
    var pre := items[..|items| - 1];
    if UidOf(items[|items| - 1]) != u {
      ObservedLast(pre, u);
      assert Observed(items, u) == Observed(pre, u);
    }
  }

  /** A moving shade is settled by ingestion exactly when one of its
      reported positions is within tolerance of its target. */
  lemma IngestSettles(m: map<string, MotionState>, items: seq<Object>, u: string)
    requires u != [] && u in m
    ensures u in Ingest(m, items).motion
    ensures Pending(Ingest(m, items).motion[u]) <==>
      Pending(m[u]) && forall p :: p in Observed(items, u) && p.Some? ==> !Near(p.value, m[u].pendingTarget.value)
  {
    IngestPerShade(m, items, u);
    var obs := Observed(items, u);
    ObserveAllFacts(m[u], obs);
    assert forall p :: p in obs ==> exists i :: 0 <= i < |obs| && obs[i] == p;
  }

  /** Ingestion keeps every state coherent and never touches the retry
      flag. */
  lemma IngestKeeps(m: map<string, MotionState>, items: seq<Object>)
    ensures m.Keys <= Ingest(m, items).motion.Keys
    ensures AllCoherent(m) ==> AllCoherent(Ingest(m, items).motion)
    ensures forall u :: u in m ==> Ingest(m, items).motion[u].retryAttempted == m[u].retryAttempted
  {
    IngestKeys(Tables(map[], m), items);
    forall u | u in Ingest(m, items).motion
      ensures Coherent(StateOf(m, u)) ==> Coherent(Ingest(m, items).motion[u])
      ensures u in m ==> Ingest(m, items).motion[u].retryAttempted == m[u].retryAttempted
    {
      if u == [] {
        IngestUnlisted(Tables(map[], m), items, u);
      } else {
        IngestPerShade(m, items, u);
        ObserveAllFacts(StateOf(m, u), Observed(items, u));
      }
    }
  }

  // ---------------------------------------------------------------------
  // The cache prune and the failsafe

  /** The position the cached status holds for `u`, parsed as `int()`
      would; None when the shade has no record or no usable position. */
  function CachedPosition(status: map<string, StatusRecord>, u: string): Option<int> {
    if u in status then PositionOf(status[u]) else None
  }

  /** The cache prune of one shade: a parsed position overwrites
      `last_hub_pos` and stops the shade when within tolerance of its
      target; no position leaves the state alone.  On a moving shade this
      is exactly a hub observation. */
  function PruneOne(s: MotionState, pos: Option<int>): (r: MotionState)
    ensures pos.None? ==> r == s
    ensures Pending(s) && pos.Some? ==> r == Observe(s, pos)
  {
    match pos
    case None => s
    case Some(p) =>
      var r := s.(lastHubPos := pos);
      if s.pendingTarget.Some? && Near(p, s.pendingTarget.value) then
        r.(inMotion := false, pendingTarget := None)
      else r
  }

  /** The shades the prune stops: moving ones whose cached position is
      within tolerance of their target. */
  predicate SettledPerCache(m: map<string, MotionState>, status: map<string, StatusRecord>, u: string)
    requires u in m && Pending(m[u])
  {
    CachedPosition(status, u).Some? && Near(CachedPosition(status, u).value, m[u].pendingTarget.value)
  }

  /** The prune loop over every moving shade. */
  function PruneAll(m: map<string, MotionState>, status: map<string, StatusRecord>): (r: map<string, MotionState>)
    ensures r.Keys == m.Keys
    ensures PendingSet(r) == set u | u in PendingSet(m) && !SettledPerCache(m, status, u)
    ensures AllCoherent(m) ==> AllCoherent(r)
    ensures forall u :: u in m && !Pending(m[u]) ==> r[u] == m[u]
    ensures forall u :: u in m ==> r[u].retryAttempted == m[u].retryAttempted
  {
    map u | u in m :: if Pending(m[u]) then PruneOne(m[u], CachedPosition(status, u)) else m[u]
  }

  /** After the prune every shade still moving has a cached position
      outside the tolerance, or none. */
  lemma PruneLeavesOnlyFar(m: map<string, MotionState>, status: map<string, StatusRecord>, u: string)
    requires u in PendingSet(PruneAll(m, status))
    ensures u in m && Pending(m[u])
    ensures PruneAll(m, status)[u].pendingTarget == m[u].pendingTarget
    ensures CachedPosition(status, u).None? || !Near(CachedPosition(status, u).value, m[u].pendingTarget.value)
  {
  }

  /** The failsafe is due once more than this many seconds have passed
      since the last control. */
  const FailsafeSeconds: real := 120.0

  predicate FailsafeDue(lastControl: Option<real>, now: real) {
    lastControl.Some? && now - lastControl.value > FailsafeSeconds
  }

  /** The failsafe clear: every shade in motion loses motion and target. */
  function ClearAll(m: map<string, MotionState>): (r: map<string, MotionState>)
    ensures r.Keys == m.Keys
    ensures PendingSet(r) == {}
    ensures AllCoherent(m) ==> AllCoherent(r)
    ensures forall u :: u in m ==> r[u].lastHubPos == m[u].lastHubPos && r[u].retryAttempted == m[u].retryAttempted
    ensures forall u :: u in m && !m[u].inMotion ==> r[u] == m[u]
  {
    map u | u in m :: if m[u].inMotion then m[u].(inMotion := false, pendingTarget := None) else m[u]
  }

  // ---------------------------------------------------------------------
  // What the UI shows

  /** `get_effective_position`: the target while moving, else the last hub
      position, else the cached one. */
  function EffectivePosition(m: map<string, MotionState>, status: map<string, StatusRecord>, u: string): (r: Option<int>)
    ensures u in m && Pending(m[u]) ==> r == m[u].pendingTarget
    ensures u in m && !Pending(m[u]) && m[u].lastHubPos.Some? ==> r == m[u].lastHubPos
    ensures (u !in m || (!Pending(m[u]) && m[u].lastHubPos.None?)) ==> r == CachedPosition(status, u)
  {
    if u in m && Pending(m[u]) then m[u].pendingTarget
    else if u in m && m[u].lastHubPos.Some? then m[u].lastHubPos
    else CachedPosition(status, u)
  }

  /** Travel time the UI assumes, in seconds per percent. */
  const SecondsPerPercent: real := 0.25

  /** The opening (+1) / closing (-1) indicator and its end time. */
  datatype UiMotion = UiMotion(dir: int, until: Option<real>)

  function Abs(x: int): nat {
    if x < 0 then -x else x
  }

  /** The UI indication for a move from `base` to `target` started at
      `now`: the direction of travel, shown for a quarter second per
      percent; nothing when there is no travel. */
  function UiMotionFor(base: int, target: int, now: real): (r: UiMotion)
    ensures r.dir == (if target > base then 1 else if target < base then -1 else 0)
    ensures r.dir == 0 <==> r.until.None?
    ensures r.until.Some? ==> r.until.value - now == Abs(target - base) as real * SecondsPerPercent > 0.0
  {
    var distance := Abs(target - base);
    var duration := if distance > 0 then distance as real * SecondsPerPercent else 0.0;
    var duration := if distance > 0 && duration <= 0.0 then SecondsPerPercent else duration;
    if distance > 0 then
      var dir := if target > base then 1 else if target < base then -1 else 0;
      UiMotion(dir, if dir != 0 then Some(now + duration) else None)
    else UiMotion(0, None)
  }

  /** The base position of the UI indication: the effective position, else
      the last hub position, else 0. */
  function BasePosition(m: map<string, MotionState>, status: map<string, StatusRecord>, u: string): int {
    match EffectivePosition(m, status, u)
    case Some(p) => p
    case None => StateOf(m, u).lastHubPos.GetOr(0)
  }

  /** The core motion fields `register_command` sets. */
  function Commanded(s: MotionState, target: int, now: real): (r: MotionState)
    ensures Pending(r) && Coherent(r) && r.pendingTarget == Some(target)
    ensures r.lastControlTs == Some(now) && !r.retryAttempted
    ensures r.lastHubPos == s.lastHubPos
  {
    s.(inMotion := true, pendingTarget := Some(target), lastControlTs := Some(now), retryAttempted := false)
  }

  /** The state `register_command` leaves, with the base position read
      where the code reads it: after the new target is recorded. */
  function RegisterAsWritten(m: map<string, MotionState>, status: map<string, StatusRecord>,
                             u: string, target: int, now: real): (r: MotionState)
    ensures Pending(r) && r.pendingTarget == Some(target) && Coherent(r)
    ensures !r.retryAttempted && r.lastControlTs == Some(now)
    ensures r.lastHubPos == StateOf(m, u).lastHubPos
  {
    var moving := Commanded(StateOf(m, u), target, now);
    var ui := UiMotionFor(BasePosition(m[u := moving], status, u), target, now);
    moving.(uiMotionDir := ui.dir, uiMotionUntil := ui.until)
  }

  /** As written, the base is always the new target itself: whatever the
      shade's previous position, the UI never shows travel. */
  lemma RegisterAsWrittenShowsNoTravel(m: map<string, MotionState>, status: map<string, StatusRecord>,
                                       u: string, target: int, now: real)
    ensures RegisterAsWritten(m, status, u, target, now).uiMotionDir == 0
    ensures RegisterAsWritten(m, status, u, target, now).uiMotionUntil.None?
  {
    var moving := Commanded(StateOf(m, u), target, now);
    assert BasePosition(m[u := moving], status, u) == target;
  }

  /** The state `register_command` evidently means to leave: the base
      position read before the new target is recorded. */
  function RegisterIntended(m: map<string, MotionState>, status: map<string, StatusRecord>,
                            u: string, target: int, now: real): (r: MotionState)
    ensures Pending(r) && Coherent(r) && r.pendingTarget == Some(target) && !r.retryAttempted
    ensures r.lastControlTs == Some(now) && r.lastHubPos == StateOf(m, u).lastHubPos
    ensures EffectivePosition(m[u := r], status, u) == Some(target)
  {
    var ui := UiMotionFor(BasePosition(m, status, u), target, now);
    Commanded(StateOf(m, u), target, now).(uiMotionDir := ui.dir, uiMotionUntil := ui.until)
  }

  /** A command adds its shade to the pending ones and leaves the others
      as they were. */
  lemma RegisterAddsPending(m: map<string, MotionState>, status: map<string, StatusRecord>,
                            u: string, target: int, now: real)
    ensures PendingSet(m[u := RegisterIntended(m, status, u, target, now)]) == PendingSet(m) + {u}
  {
  }

  /** Read before the update, the indication points from where the UI
      showed the shade towards the target, for a quarter second per
      percent of travel. */
  lemma RegisterIntendedShowsTravel(m: map<string, MotionState>, status: map<string, StatusRecord>,
                                    u: string, target: int, now: real)
    ensures var b := BasePosition(m, status, u);
      var r := RegisterIntended(m, status, u, target, now);
      && (r.uiMotionDir == 1 <==> target > b)
      && (r.uiMotionDir == -1 <==> target < b)
      && (r.uiMotionUntil.Some? <==> target != b)
      && (r.uiMotionUntil.Some? ==> r.uiMotionUntil.value == now + Abs(target - b) as real * SecondsPerPercent)
  {
  }

  /** A shade resting at 0 sent to 100: as written the UI shows nothing;
      as intended it shows opening for 25 seconds. */
  lemma RegisterFromClosedToOpen(m: map<string, MotionState>, status: map<string, StatusRecord>)
    requires m == map["7" := Idle.(lastHubPos := Some(0))]
    ensures RegisterAsWritten(m, status, "7", 100, 5.0).uiMotionDir == 0
    ensures RegisterIntended(m, status, "7", 100, 5.0).uiMotionDir == 1
    ensures RegisterIntended(m, status, "7", 100, 5.0).uiMotionUntil == Some(30.0)
  {
    RegisterAsWrittenShowsNoTravel(m, status, "7", 100, 5.0);
    assert BasePosition(m, status, "7") == 0;
  }

  // ---------------------------------------------------------------------
  // The verify decision

  /** How a verify step ends. */
  datatype VerifyOutcome =
    | Superseded        // a newer command replaced this one
    | AlreadyRetried    // the shade's one retry is spent
    | ArrivedPerState   // the last hub position is already near the target
    | ArrivedPerCache   // the refreshed position is near the target
    | Retry             // one more control goes out

  /** `cmd_id is not None and (latest is None or latest["id"] != cmd_id)`. */
  predicate IsSuperseded(latest: Option<nat>, cmdId: Option<nat>) {
    cmdId.Some? && (latest.None? || latest.value != cmdId.value)
  }

  /** The decision of `async_verify_and_retry`, taken atomically: `latest`
      is the uid's latest command id, `s` its state before the refresh and
      `pos` the refreshed cached position. */
  function VerifyDecision(latest: Option<nat>, cmdId: Option<nat>, s: MotionState,
                          pos: Option<int>, target: int): (o: VerifyOutcome)
    ensures o == Retry ==> cmdId.Some? && latest == cmdId && !s.retryAttempted
    ensures o == Retry ==> pos.None? || !Near(pos.value, target)
    ensures o == Retry ==> !(s.pendingTarget.Some? && s.lastHubPos.Some? && Near(s.lastHubPos.value, s.pendingTarget.value))
  {
    if IsSuperseded(latest, cmdId) then Superseded
    else if s.retryAttempted then AlreadyRetried
    else if s.pendingTarget.Some? && s.lastHubPos.Some? && Near(s.lastHubPos.value, s.pendingTarget.value) then ArrivedPerState
    else if (pos.None? || !Near(pos.value, target)) && latest.Some? && cmdId == Some(latest.value) then Retry
    else ArrivedPerCache
  }

  /** The decision retries exactly when the command is still the latest,
      its retry is unspent, neither the state nor the refreshed cache shows
      the shade near its target. */
  lemma VerifyRetriesIff(latest: Option<nat>, cmdId: Option<nat>, s: MotionState, pos: Option<int>, target: int)
    ensures VerifyDecision(latest, cmdId, s, pos, target) == Retry <==>
      && cmdId.Some? && latest == cmdId
      && !s.retryAttempted
      && !(s.pendingTarget.Some? && s.lastHubPos.Some? && Near(s.lastHubPos.value, s.pendingTarget.value))
      && (pos.None? || !Near(pos.value, target))
  {
  }
}
