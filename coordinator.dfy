/** `ShadeAutoCoordinator`'s motion tracker (coordinator.py:43-435): a
    class over the maps the coordinator updates in place, with the status
    refresh, the cache prune, command registration, one pass of the
    long-poll watcher and the verify-and-retry step as methods.  Hub
    replies, clocks and configuration options are inputs. */
module Coordinator {
  import opened Wrappers
  import opened Json
  import opened PyText
  import opened Api
  import opened LongPoll
  import opened Motion

  /** `_last_cmd[uid]`: id, target and monotonic time of the latest
      command. */
  datatype CommandRecord = CommandRecord(id: nat, target: int, t: real)

  /** How one pass of the watcher loop ends. */
  datatype WatchOutcome =
    | Drained        // nothing pending at the top of the loop: the watcher stops
    | FailsafeFired  // two minutes without a control: motion cleared, watcher stops
    | PrunedByCache  // the cached status shows every shade arrived: watcher stops
    | Polled         // one hold handled (or failed); the loop goes round again
    | Crashed        // the status read for an event failed: the watcher stops

  /** The checks at the top of a watcher pass: whether the watcher stops
      before holding, and the motion map it leaves. */
  datatype Checked = Checked(exit: Option<WatchOutcome>, motion: map<string, MotionState>)

  /** The watcher stops when nothing is pending, fires the failsafe when
      the last control (monotonic seconds) is over two minutes old, and
      otherwise prunes against the cached status, when peripherals are
      known, and stops if that settles every shade. */
  function BeforeHold(m: map<string, MotionState>, status: map<string, StatusRecord>,
                      peripherals: set<string>, lastControl: Option<real>, nowMono: real): (c: Checked)
    ensures c.exit == Some(Drained) <==> PendingSet(m) == {}
    ensures c.exit == Some(FailsafeFired) <==> PendingSet(m) != {} && FailsafeDue(lastControl, nowMono)
    ensures c.exit == Some(FailsafeFired) ==> c.motion == ClearAll(m)
    ensures c.exit.Some? ==> c.exit.value in {Drained, FailsafeFired, PrunedByCache} && PendingSet(c.motion) == {}
    ensures c.exit.None? ==> PendingSet(c.motion) != {} && !FailsafeDue(lastControl, nowMono)
    ensures c.exit != Some(FailsafeFired) ==>
      c.motion == (if peripherals == {} || PendingSet(m) == {} then m else PruneAll(m, status))
    ensures AllCoherent(m) ==> AllCoherent(c.motion)
  {
    if PendingSet(m) == {} then Checked(Some(Drained), m)
    else if FailsafeDue(lastControl, nowMono) then Checked(Some(FailsafeFired), ClearAll(m))
    else if peripherals == {} then Checked(None, m)
    else
      var pruned := PruneAll(m, status);
      Checked(if PendingSet(pruned) == {} then Some(PrunedByCache) else None, pruned)
  }

  /** The tables after a status refresh answered by `response` (None: the
      read failed and the coordinator keeps its data). */
  function Refreshed(m: map<string, MotionState>, status: map<string, StatusRecord>,
                     response: Option<Json>): (t: Tables)
    ensures AllCoherent(m) ==> AllCoherent(t.motion)
    ensures m.Keys <= t.motion.Keys
    ensures forall u :: u in m ==> t.motion[u].retryAttempted == m[u].retryAttempted
  {
    match response
    case None => Tables(status, m)
    case Some(data) =>
      IngestKeeps(m, FindDictsWithKey(data, "PeripheralUID"));
      Ingest(m, FindDictsWithKey(data, "PeripheralUID"))
  }

  /** `str(p.get("PeripheralUID"))` for every listed peripheral. */
  function PeripheralUids(found: seq<Object>): (r: set<string>)
    ensures r == {} <==> found == []
    ensures forall i :: 0 <= i < |found| ==> PyStr(Get(found[i], "PeripheralUID")) in r
    decreases |found|
  {
    if found == [] then {}
    else PeripheralUids(found[..|found| - 1]) + {PyStr(Get(found[|found| - 1], "PeripheralUID"))}
  }

  /** Every uid in the set is the uid of some listed peripheral. */
  lemma {:induction false} PeripheralUidsListed(found: seq<Object>, u: string)
    requires u in PeripheralUids(found)
    ensures exists i :: 0 <= i < |found| && PyStr(Get(found[i], "PeripheralUID")) == u
    decreases |found|
  {
    var last := |found| - 1;
    if PyStr(Get(found[last], "PeripheralUID")) != u {
      var front := found[..last];
      PeripheralUidsListed(front, u);
      var i :| 0 <= i < |front| && PyStr(Get(front[i], "PeripheralUID")) == u;
      assert front[i] == found[i];
    }
  }

  /** What the coordinator's maps keep true: every state coherent, every
      latest command a distinct issued id of a known shade, at most one
      retry per id, and a spent retry marked on the shade whose latest
      command it was. */
  ghost predicate Tracked(motion: map<string, MotionState>, lastCmd: map<string, CommandRecord>,
                          cmdSeq: nat, retries: map<nat, nat>)
  {
    && AllCoherent(motion)
    && lastCmd.Keys <= motion.Keys
    && (forall id :: id in retries <==> 1 <= id <= cmdSeq)
    && (forall id :: id in retries ==> retries[id] <= 1)
    && (forall u :: u in lastCmd ==> 1 <= lastCmd[u].id <= cmdSeq)
    && (forall u, v :: u in lastCmd && v in lastCmd && u != v ==> lastCmd[u].id != lastCmd[v].id)
    && (forall u :: u in lastCmd && retries[lastCmd[u].id] == 1 ==> motion[u].retryAttempted)
  }

  /** Any change of the motion map that keeps its shades, keeps every state
      coherent and leaves every retry flag alone keeps the maps tracked. */
  lemma TrackedFrame(m: map<string, MotionState>, m': map<string, MotionState>,
                     lastCmd: map<string, CommandRecord>, cmdSeq: nat, retries: map<nat, nat>)
    requires Tracked(m, lastCmd, cmdSeq, retries)
    requires m.Keys <= m'.Keys && AllCoherent(m')
    requires forall u :: u in m ==> m'[u].retryAttempted == m[u].retryAttempted
    ensures Tracked(m', lastCmd, cmdSeq, retries)
  {
  }

  /** Ingesting a status reply keeps the maps tracked. */
  lemma IngestTracked(m: map<string, MotionState>, items: seq<Object>,
                      lastCmd: map<string, CommandRecord>, cmdSeq: nat, retries: map<nat, nat>)
    requires Tracked(m, lastCmd, cmdSeq, retries)
    ensures Tracked(Ingest(m, items).motion, lastCmd, cmdSeq, retries)
  {
    IngestKeeps(m, items);
    TrackedFrame(m, Ingest(m, items).motion, lastCmd, cmdSeq, retries);
  }

  /** A new command keeps the maps tracked: its id is fresh, so no other
      shade's latest command shares it, and its retry is unspent. */
  lemma TrackedRegister(m: map<string, MotionState>, lastCmd: map<string, CommandRecord>,
                        cmdSeq: nat, retries: map<nat, nat>, uid: string, st: MotionState,
                        target: int, now: real)
    requires Tracked(m, lastCmd, cmdSeq, retries)
    requires Coherent(st)
    ensures Tracked(m[uid := st], lastCmd[uid := CommandRecord(cmdSeq + 1, target, now)],
                    cmdSeq + 1, retries[cmdSeq + 1 := 0])
  {
  }

  /** Spending the retry of the uid's latest command keeps the maps
      tracked; that retry was unspent. */
  lemma TrackedRetry(m: map<string, MotionState>, lastCmd: map<string, CommandRecord>,
                     cmdSeq: nat, retries: map<nat, nat>, uid: string, now: real)
    requires Tracked(m, lastCmd, cmdSeq, retries)
    requires uid in lastCmd && !m[uid].retryAttempted
    ensures retries[lastCmd[uid].id] == 0
    ensures Tracked(m[uid := m[uid].(retryAttempted := true, lastControlTs := Some(now))], lastCmd,
                    cmdSeq, retries[lastCmd[uid].id := 1])
  {
  }

  /** The event lists a shade still pending: `PeripheralList` is a
      non-empty list one of whose entries, as `str()`, is a pending uid. */
  predicate NamesPending(event: Object, pending: set<string>): (b: bool)
    ensures b ==> pending != {} && Get(event, "PeripheralList").JArr?
  {
    var plist := Get(event, "PeripheralList");
    plist.JArr? && |plist.items| > 0 && exists k :: 0 <= k < |plist.items| && PyStr(plist.items[k]) in pending
  }

  /** How far the handling of a reply's events has got: the tables, the
      watermark, and whether a failed status read has ended the watcher. */
  datatype Pass = Pass(tables: Tables, watermark: int, crashed: bool)

  /** One decoded event: it moves the watermark, and one naming a pending
      shade triggers a status read, answered by `refresh`, which refreshes
      the tables or, failing, ends the watcher.  An ended pass takes no
      more events. */
  function EventStep(p: Pass, e: Object, refresh: Option<Json>): Pass {
    if p.crashed then p
    else
      var w := NextWatermark(p.watermark, e);
      if !NamesPending(e, PendingSet(p.tables.motion)) then Pass(p.tables, w, false)
      else if refresh.None? then Pass(p.tables, w, true)
      else Pass(Refreshed(p.tables.motion, p.tables.status, refresh), w, false)
  }

  /** A run of decoded events, handled in order. */
  function AfterEvents(p: Pass, events: seq<Object>, refresh: Option<Json>): Pass
    decreases |events|
  {
    if events == [] then p
    else EventStep(AfterEvents(p, events[..|events| - 1], refresh), events[|events| - 1], refresh)
  }

  /** The hold: the watermark clamped to the last second, then the events
      of the reply, when the call returned one. */
  function HoldPass(t: Tables, notifTs: int, nowWall: int, reply: Option<string>,
                    parse: string -> Option<Object>, refresh: Option<Json>): Pass
  {
    var start := Pass(t, ClampWatermark(notifTs, nowWall), false);
    match reply
    case None => start
    case Some(text) => AfterEvents(start, Events(ChunksIntended(text), parse), refresh)
  }

  /** The watcher ends exactly when the status reads fail and some event
      names a shade pending when the pass began; with failing reads the
      tables are left as they were. */
  lemma AfterEventsCrash(p: Pass, events: seq<Object>, refresh: Option<Json>)
    requires !p.crashed
    ensures AfterEvents(p, events, refresh).crashed <==>
      refresh.None? && exists k :: 0 <= k < |events| && NamesPending(events[k], PendingSet(p.tables.motion))
    ensures refresh.None? ==> AfterEvents(p, events, refresh).tables == p.tables
  {
    if refresh.None? {
      CrashWithoutRefresh(p, events);
    } else {
      NoCrashWithRefresh(p, events, refresh);
    }
  }

  /** With every status read failing, the tables never change, so the
      pending set stays the one the pass began with. */
  lemma {:induction false} CrashWithoutRefresh(p: Pass, events: seq<Object>)
    requires !p.crashed
    ensures AfterEvents(p, events, None).tables == p.tables
    ensures AfterEvents(p, events, None).crashed <==>
      exists k :: 0 <= k < |events| && NamesPending(events[k], PendingSet(p.tables.motion))
    decreases |events|
  {
    if events != [] {
      var front, last := events[..|events| - 1], events[|events| - 1];
      CrashWithoutRefresh(p, front);
      var q := AfterEvents(p, front, None);
      var pending := PendingSet(p.tables.motion);
      assert AfterEvents(p, events, None) == EventStep(q, last, None);
      if q.crashed {
        var k :| 0 <= k < |front| && NamesPending(front[k], pending);
        assert events[k] == front[k];
      } else if NamesPending(last, pending) {
        assert events[|events| - 1] == last;
      } else {
        forall k | 0 <= k < |events| ensures !NamesPending(events[k], pending) {
          if k < |front| {
            assert events[k] == front[k];
          }
        }
      }
    }
  }

  /** With a working status read, no event ends the watcher. */
  lemma {:induction false} NoCrashWithRefresh(p: Pass, events: seq<Object>, refresh: Option<Json>)
    requires !p.crashed && refresh.Some?
    ensures !AfterEvents(p, events, refresh).crashed
    decreases |events|
  {
    if events != [] {
      NoCrashWithRefresh(p, events[..|events| - 1], refresh);
    }
  }

  /** Until the watcher ends, the watermark is the one the events give on
      their own. */
  lemma {:induction false} AfterEventsWatermark(p: Pass, events: seq<Object>, refresh: Option<Json>)
    requires !p.crashed && !AfterEvents(p, events, refresh).crashed
    ensures AfterEvents(p, events, refresh).watermark == WatermarkAfter(p.watermark, events)
    decreases |events|
  {
    if events != [] {
      AfterEventsWatermark(p, events[..|events| - 1], refresh);
    }
  }

  /** The events never drop a shade, never break a state's coherence and
      never touch a retry flag. */
  lemma {:induction false} AfterEventsKeeps(p: Pass, events: seq<Object>, refresh: Option<Json>)
    requires AllCoherent(p.tables.motion)
    ensures var m := AfterEvents(p, events, refresh).tables.motion;
      AllCoherent(m) && p.tables.motion.Keys <= m.Keys &&
      forall u :: u in p.tables.motion ==> m[u].retryAttempted == p.tables.motion[u].retryAttempted
    decreases |events|
  {
    if events != [] {
      AfterEventsKeeps(p, events[..|events| - 1], refresh);
    }
  }

  /** What a whole run tells the caller: it ends the watcher only on a
      failed status read, and otherwise leaves the events' own watermark. */
  lemma PassOutcome(p: Pass, events: seq<Object>, refresh: Option<Json>)
    requires !p.crashed
    ensures AfterEvents(p, events, refresh).crashed ==> refresh.None?
    ensures !AfterEvents(p, events, refresh).crashed ==>
      AfterEvents(p, events, refresh).watermark == WatermarkAfter(p.watermark, events)
  {
    AfterEventsCrash(p, events, refresh);
    if !AfterEvents(p, events, refresh).crashed {
      AfterEventsWatermark(p, events, refresh);
    }
  }

  /** What a hold tells the caller: it ends the watcher only when a reply
      came and a status read failed; otherwise the watermark is the clamped
      one moved by the reply's events, and without a reply nothing but the
      clamp happens. */
  lemma HoldOutcome(t: Tables, notifTs: int, nowWall: int, reply: Option<string>,
                    parse: string -> Option<Object>, refresh: Option<Json>)
    ensures var h := HoldPass(t, notifTs, nowWall, reply, parse, refresh);
      h.crashed ==> reply.Some? && refresh.None?
    ensures var h := HoldPass(t, notifTs, nowWall, reply, parse, refresh);
      !h.crashed && reply.Some? ==>
        h.watermark == WatermarkAfter(ClampWatermark(notifTs, nowWall), Events(ChunksIntended(reply.value), parse))
    ensures var h := HoldPass(t, notifTs, nowWall, reply, parse, refresh);
      reply.None? ==> h == Pass(t, ClampWatermark(notifTs, nowWall), false)
  {
    if reply.Some? {
      PassOutcome(Pass(t, ClampWatermark(notifTs, nowWall), false), Events(ChunksIntended(reply.value), parse), refresh);
    }
  }

  /** An ended pass ignores whatever events follow. */
  lemma {:induction false} CrashedStays(p: Pass, events: seq<Object>, more: seq<Object>, refresh: Option<Json>)
    requires AfterEvents(p, events, refresh).crashed
    ensures AfterEvents(p, events + more, refresh) == AfterEvents(p, events, refresh)
    decreases |more|
  {
    if more == [] {
      assert events + more == events;
    } else {
      var c := events + more;
      assert c[..|c| - 1] == events + more[..|more| - 1];
      CrashedStays(p, events, more[..|more| - 1], refresh);
    }
  }

  /** One more fragment is one more event step when, and only when, it
      decodes. */
  lemma AfterEventsNextChunk(p: Pass, chunks: seq<string>, i: nat, parse: string -> Option<Object>,
                             refresh: Option<Json>)
    requires i < |chunks|
    ensures parse(chunks[i]).None? ==>
      AfterEvents(p, Events(chunks[..i + 1], parse), refresh) == AfterEvents(p, Events(chunks[..i], parse), refresh)
    ensures parse(chunks[i]).Some? ==>
      AfterEvents(p, Events(chunks[..i + 1], parse), refresh) ==
      EventStep(AfterEvents(p, Events(chunks[..i], parse), refresh), parse(chunks[i]).value, refresh)
  {
    var c := chunks[..i + 1];
    assert c[..|c| - 1] == chunks[..i] && c[|c| - 1] == chunks[i];
    var es := Events(chunks[..i], parse);
    match parse(chunks[i])
    case None =>
      assert Events(c, parse) == es;
    case Some(e) =>
      assert Events(c, parse) == es + [e];
      assert (es + [e])[..|es|] == es;
  }

  /** A pass that ends at fragment `i` is the pass over the whole reply. */
  lemma EndedHere(p: Pass, chunks: seq<string>, i: nat, parse: string -> Option<Object>, refresh: Option<Json>)
    requires i < |chunks| && AfterEvents(p, Events(chunks[..i + 1], parse), refresh).crashed
    ensures AfterEvents(p, Events(chunks, parse), refresh) == AfterEvents(p, Events(chunks[..i + 1], parse), refresh)
  {
    assert chunks[..i + 1] + chunks[i + 1..] == chunks;
    EventsAppend(chunks[..i + 1], chunks[i + 1..], parse);
    CrashedStays(p, Events(chunks[..i + 1], parse), Events(chunks[i + 1..], parse), refresh);
  }

  /** How one pass of the watcher ends, and the tables and watermark it
      leaves. */
  datatype Watched = Watched(outcome: WatchOutcome, tables: Tables, watermark: int)

  /** One pass of the watcher loop: the checks before the hold, then the
      hold, which ends the watcher when a status read fails. */
  function WatchPass(t: Tables, notifTs: int, peripherals: set<string>, lastControl: Option<real>,
                     nowMono: real, nowWall: int, reply: Option<string>,
                     parse: string -> Option<Object>, refresh: Option<Json>): Watched
  {
    var c := BeforeHold(t.motion, t.status, peripherals, lastControl, nowMono);
    if c.exit.Some? then Watched(c.exit.value, Tables(t.status, c.motion), notifTs)
    else
      var h := HoldPass(Tables(t.status, c.motion), notifTs, nowWall, reply, parse, refresh);
      Watched(if h.crashed then Crashed else Polled, h.tables, h.watermark)
  }

  /** A pass the pre-hold checks let through is the hold that follows
      them. */
  lemma WatchPassHeld(t: Tables, notifTs: int, peripherals: set<string>, lastControl: Option<real>,
                      nowMono: real, nowWall: int, reply: Option<string>,
                      parse: string -> Option<Object>, refresh: Option<Json>,
                      m: map<string, MotionState>, h: Pass)
    requires BeforeHold(t.motion, t.status, peripherals, lastControl, nowMono) == Checked(None, m)
    requires h == HoldPass(Tables(t.status, m), notifTs, nowWall, reply, parse, refresh)
    ensures WatchPass(t, notifTs, peripherals, lastControl, nowMono, nowWall, reply, parse, refresh) ==
      Watched(if h.crashed then Crashed else Polled, h.tables, h.watermark)
  {
  }

  /** How a watcher pass can stop before holding: at once when nothing is
      pending, by the failsafe exactly when something is pending and the
      last control is over two minutes old, and in every such case with
      each shade settled, the status kept and the watermark untouched. */
  lemma WatchPassStops(t: Tables, notifTs: int, peripherals: set<string>, lastControl: Option<real>,
                       nowMono: real, nowWall: int, reply: Option<string>,
                       parse: string -> Option<Object>, refresh: Option<Json>)
    ensures var r := WatchPass(t, notifTs, peripherals, lastControl, nowMono, nowWall, reply, parse, refresh);
      && (r.outcome == Drained <==> PendingSet(t.motion) == {})
      && (r.outcome == FailsafeFired <==> PendingSet(t.motion) != {} && FailsafeDue(lastControl, nowMono))
      && (r.outcome in {Drained, FailsafeFired, PrunedByCache} ==>
            r.watermark == notifTs && r.tables.status == t.status && PendingSet(r.tables.motion) == {})
  {
  }

  /** A pass that holds crashes only when a reply came and a status read
      failed; one that goes round again leaves the clamped watermark moved
      by the reply's events.  No state loses its coherence. */
  lemma WatchPassHolds(t: Tables, notifTs: int, peripherals: set<string>, lastControl: Option<real>,
                       nowMono: real, nowWall: int, reply: Option<string>,
                       parse: string -> Option<Object>, refresh: Option<Json>)
    ensures var r := WatchPass(t, notifTs, peripherals, lastControl, nowMono, nowWall, reply, parse, refresh);
      && (r.outcome == Crashed ==> reply.Some? && refresh.None?)
      && (r.outcome == Polled && reply.Some? ==>
            r.watermark == WatermarkAfter(ClampWatermark(notifTs, nowWall), Events(ChunksIntended(reply.value), parse)))
      && (r.outcome == Polled && reply.None? ==> r.watermark == ClampWatermark(notifTs, nowWall))
      && (AllCoherent(t.motion) ==> AllCoherent(r.tables.motion))
  {
    var c := BeforeHold(t.motion, t.status, peripherals, lastControl, nowMono);
    if c.exit.None? {
      var start := Tables(t.status, c.motion);
      HoldOutcome(start, notifTs, nowWall, reply, parse, refresh);
      if reply.Some? && AllCoherent(t.motion) {
        AfterEventsKeeps(Pass(start, ClampWatermark(notifTs, nowWall), false),
                         Events(ChunksIntended(reply.value), parse), refresh);
      }
    }
  }

  /** One pass of the `_build_status_by_uid` loop, updating the two maps
      in place: the item's fields are merged into its uid's record, and
      its shade observes the merged position.  `Motion.Step` is its
      specification, and the properties of ingestion are proved there. */
  method IngestItem(byUid: map<string, StatusRecord>, m: map<string, MotionState>, item: Object)
    returns (byUid': map<string, StatusRecord>, m': map<string, MotionState>)
    ensures Tables(byUid', m') == Step(Tables(byUid, m), item)
  {
    byUid', m' := byUid, m;
    var u := UidOf(item);
    if u != [] {
      var cur := if u in byUid then byUid[u] else EmptyRecord;
      cur := Merge(cur, item);
      byUid' := byUid[u := cur];
      var st := if u in m then m[u] else Idle;
      var pos := PositionOf(cur);
      st := st.(lastHubPos := pos);
      if st.inMotion && st.pendingTarget.Some? && pos.Some? && Near(pos.value, st.pendingTarget.value) {
        st := st.(inMotion := false, pendingTarget := None);
      }
      m' := m[u := st];
    }
  }

  class Coordinator {
    var motion: map<string, MotionState>
    var cmdSeq: nat
    var lastCmd: map<string, CommandRecord>
    /** `data["status"]`, the cached status by uid. */
    var status: map<string, StatusRecord>
    /** The uids of `_peripherals`. */
    var peripherals: set<string>
    var lastGlobalControlTs: Option<real>
    /** The long-poll watermark, in wall-clock seconds. */
    var notifTs: int
    /** A watcher task exists and has not finished. */
    var watcherRunning: bool
    /** How many retry controls went out for each command id issued. */
    ghost var retries: map<nat, nat>

    ghost predicate Valid()
      reads this`motion, this`lastCmd, this`cmdSeq, this`retries
    {
      Tracked(motion, lastCmd, cmdSeq, retries)
    }

    /** A coordinator before its first refresh; `nowWall` is `time.time()`. */
    constructor (nowWall: int)
      ensures Valid()
      ensures motion == map[] && cmdSeq == 0 && lastCmd == map[] && status == map[]
      ensures peripherals == {} && lastGlobalControlTs == None && notifTs == nowWall
      ensures !watcherRunning
    {
      motion := map[];
      cmdSeq := 0;
      lastCmd := map[];
      status := map[];
      peripherals := {};
      lastGlobalControlTs := None;
      notifTs := nowWall;
      watcherRunning := false;
      retries := map[];
    }

    /** The peripheral list of the first refresh: one entry per dict of the
        reply carrying `PeripheralUID`, keyed by `str()` of it. */
    method LoadPeripherals(response: Json)
      modifies this`peripherals
      ensures peripherals == PeripheralUids(FindDictsWithKey(response, "PeripheralUID"))
    {
      var found := FindDictsWithKey(response, "PeripheralUID");
      var uids: set<string> := {};
      var i := 0;
      while i < |found|
        invariant 0 <= i <= |found|
        invariant uids == PeripheralUids(found[..i])
      {
        assert found[..i + 1][..i] == found[..i];
        uids := uids + {PyStr(Get(found[i], "PeripheralUID"))};
        i := i + 1;
      }
      assert found[..i] == found;
      peripherals := uids;
    }

    /** `_build_status_by_uid`: merges the hub's items into a fresh status
        map and updates the motion map as it goes. */
    method BuildStatusByUid(items: seq<Object>) returns (byUid: map<string, StatusRecord>)
      requires Valid()
      modifies this`motion
      ensures Valid()
      ensures Tables(byUid, motion) == Ingest(old(motion), items)
    {
      var m := motion;
      byUid := map[];
      var i := 0;
      while i < |items|
        invariant 0 <= i <= |items|
        invariant motion == old(motion)
        invariant Tables(byUid, m) == Ingest(motion, items[..i])
      {
        assert items[..i + 1][..i] == items[..i];
        byUid, m := IngestItem(byUid, m, items[i]);
        i := i + 1;
      }
      assert items[..i] == items;
      IngestTracked(motion, items, lastCmd, cmdSeq, retries);
      motion := m;
    }

    /** A status refresh (`_async_update_data` through the coordinator's
        update): the hub reply's dicts carrying `PeripheralUID` are
        ingested and become the cached status; a failed read changes
        nothing. */
    method UpdateData(response: Option<Json>)
      requires Valid()
      modifies this`motion, this`status
      ensures Valid()
      ensures Tables(status, motion) == Refreshed(old(motion), old(status), response)
    {
      if response.Some? {
        var items := FindDictsWithKey(response.value, "PeripheralUID");
        var byUid := BuildStatusByUid(items);
        status := byUid;
      }
    }

    /** `_prune_pending_with_cache`: every moving shade whose cached
        position is within tolerance stops; true when none is left moving.
        With no peripherals known the cache is not consulted. */
    method PruneWithCache() returns (done: bool)
      requires Valid()
      modifies this`motion
      ensures Valid()
      ensures done <==> PendingSet(motion) == {}
      ensures motion == (if peripherals == {} || PendingSet(old(motion)) == {} then old(motion)
                         else PruneAll(old(motion), status))
    {
      var pending := PendingSet(motion);
      if peripherals == {} || pending == {} {
        return pending == {};
      }
      var m := motion;
      var todo := pending;
      while todo != {}
        invariant todo <= pending
        invariant m.Keys == motion.Keys
        invariant forall u :: u in m ==>
          m[u] == (if u in pending && u !in todo then PruneOne(motion[u], CachedPosition(status, u))
                   else motion[u])
        decreases todo
      {
        var u :| u in todo;
        var pos := CachedPosition(status, u);
        var st := m[u];
        if pos.Some? {
          st := st.(lastHubPos := pos);
          if st.pendingTarget.Some? && Near(pos.value, st.pendingTarget.value) {
            st := st.(inMotion := false, pendingTarget := None);
          }
        }
        m := m[u := st];
        todo := todo - {u};
      }
      assert m == PruneAll(motion, status);
      TrackedFrame(motion, m, lastCmd, cmdSeq, retries);
      motion := m;
      done := PendingSet(motion) == {};
    }

    /** The failsafe clear: every shade in motion stops and drops its
        target. */
    method FailsafeClear()
      requires Valid()
      modifies this`motion
      ensures Valid()
      ensures motion == ClearAll(old(motion))
      ensures PendingSet(motion) == {}
    {
      var m := motion;
      var todo := motion.Keys;
      while todo != {}
        invariant todo <= motion.Keys
        invariant m.Keys == motion.Keys
        invariant forall u :: u in m ==> m[u] == (if u !in todo then ClearAll(motion)[u] else motion[u])
        decreases todo
      {
        var u :| u in todo;
        if m[u].inMotion {
          m := m[u := m[u].(inMotion := false, pendingTarget := None)];
        }
        todo := todo - {u};
      }
      assert m == ClearAll(motion);
      TrackedFrame(motion, m, lastCmd, cmdSeq, retries);
      motion := m;
    }

    /** Issues the next command id as `uid`'s latest command, with its
        retry unspent, and records the shade's new state `st`. */
    method Issue(uid: string, st: MotionState, target: int, now: real) returns (cid: nat)
      requires Valid() && Coherent(st)
      modifies this`cmdSeq, this`lastCmd, this`motion, this`retries
      ensures Valid()
      ensures cid == cmdSeq == old(cmdSeq) + 1
      ensures lastCmd == old(lastCmd)[uid := CommandRecord(cid, target, now)]
      ensures motion == old(motion)[uid := st]
      ensures retries == old(retries)[cid := 0]
    {
      TrackedRegister(motion, lastCmd, cmdSeq, retries, uid, st, target, now);
      cmdSeq := cmdSeq + 1;
      cid := cmdSeq;
      lastCmd := lastCmd[uid := CommandRecord(cid, target, now)];
      retries := retries[cid := 0];
      motion := motion[uid := st];
    }

    /** The synchronous body of `register_command` at monotonic time
        `now`: a fresh command id recorded as the uid's latest command, the
        shade moving towards `target` with its retry unspent, the watcher
        started, and whether a verify step gets scheduled.  The UI base
        position is read before the new target is recorded (see
        `Motion.RegisterIntended`). */
    method RegisterCommand(uid: string, target: int, now: real, verifyEnabled: bool, verifyDelay: real)
      returns (cid: nat, verifyScheduled: bool)
      requires Valid()
      modifies this`cmdSeq, this`lastCmd, this`motion, this`lastGlobalControlTs, this`watcherRunning, this`retries
      ensures Valid()
      ensures cid == cmdSeq == old(cmdSeq) + 1
      ensures lastCmd == old(lastCmd)[uid := CommandRecord(cid, target, now)]
      ensures motion == old(motion)[uid := RegisterIntended(old(motion), status, uid, target, now)]
      ensures lastGlobalControlTs == Some(now) && watcherRunning
      ensures retries == old(retries)[cid := 0]
      ensures verifyScheduled <==> verifyEnabled && verifyDelay > 0.0
    {
      // The shade's new state: moving towards `target`, retry unspent, and
      // the UI animation from where it was shown before this command.
      var st := RegisterIntended(motion, status, uid, target, now);
      cid := Issue(uid, st, target, now);
      lastGlobalControlTs := Some(now);
      if !watcherRunning {
        watcherRunning := true;
      }
      verifyScheduled := verifyEnabled && verifyDelay > 0.0;
    }

    /** Marks the retry of `uid`'s latest command as spent at monotonic
        time `now`. */
    method SpendRetry(uid: string, now: real)
      requires Valid() && uid in lastCmd && !motion[uid].retryAttempted
      modifies this`motion, this`lastGlobalControlTs, this`retries
      ensures Valid()
      ensures old(retries)[lastCmd[uid].id] == 0 && retries == old(retries)[lastCmd[uid].id := 1]
      ensures motion == old(motion)[uid := old(motion)[uid].(retryAttempted := true, lastControlTs := Some(now))]
      ensures lastGlobalControlTs == Some(now)
    {
      TrackedRetry(motion, lastCmd, cmdSeq, retries, uid, now);
      motion := motion[uid := motion[uid].(retryAttempted := true, lastControlTs := Some(now))];
      lastGlobalControlTs := Some(now);
      retries := retries[lastCmd[uid].id := retries[lastCmd[uid].id] + 1];
    }

    /** `motion.setdefault(uid, ...)`: the uid's state, an idle one added
        when the uid has none yet. */
    method SetDefault(uid: string) returns (st: MotionState)
      requires Valid()
      modifies this`motion
      ensures Valid()
      ensures st == StateOf(old(motion), uid) && motion == old(motion)[uid := st]
    {
      if uid !in motion {
        TrackedFrame(motion, motion[uid := Idle], lastCmd, cmdSeq, retries);
        motion := motion[uid := Idle];
      }
      st := motion[uid];
    }

    /** `async_verify_and_retry` for `uid`, taken as one step once its
        delay is over: `refreshed` answers the status refresh, `now` and
        `nowWall` are the monotonic and wall clocks.  Returns the decision
        and the control payload resent, if any. */
    method VerifyAndRetry(uid: string, target: int, cmdId: Option<nat>, refreshed: Option<Json>,
                          now: real, nowWall: int)
      returns (outcome: VerifyOutcome, payload: Option<Object>)
      requires Valid()
      modifies this`motion, this`status, this`lastGlobalControlTs, this`retries
      ensures Valid()
      ensures outcome == VerifyDecision(
        if uid in old(lastCmd) then Some(old(lastCmd)[uid].id) else None,
        cmdId, StateOf(old(motion), uid), CachedPosition(status, uid), target)
      ensures payload.Some? <==> outcome == Retry
      ensures payload.Some? ==> payload.value == ControlPayload(UidText(uid), Some(target), nowWall)
      ensures outcome == Retry ==> cmdId.Some? && old(retries)[cmdId.value] == 0 && retries == old(retries)[cmdId.value := 1]
      ensures outcome == Retry ==> motion[uid].retryAttempted && lastGlobalControlTs == Some(now)
      ensures outcome != Retry ==> retries == old(retries) && lastGlobalControlTs == old(lastGlobalControlTs)
      ensures outcome in {Superseded, AlreadyRetried, ArrivedPerState} ==> status == old(status)
      ensures outcome == Superseded ==> motion == old(motion)
      ensures outcome in {AlreadyRetried, ArrivedPerState} ==> motion == old(motion)[uid := StateOf(old(motion), uid)]
      ensures outcome in {Retry, ArrivedPerCache} ==>
        var t := Refreshed(old(motion)[uid := StateOf(old(motion), uid)], old(status), refreshed);
        status == t.status && uid in t.motion &&
        motion == if outcome == Retry
          then t.motion[uid := t.motion[uid].(retryAttempted := true, lastControlTs := Some(now))]
          else t.motion
    {
      var latest := if uid in lastCmd then Some(lastCmd[uid].id) else None;
      payload := None;
      if IsSuperseded(latest, cmdId) {
        return Superseded, None;
      }
      var st := SetDefault(uid);
      if st.retryAttempted {
        return AlreadyRetried, None;
      }
      if st.pendingTarget.Some? && st.lastHubPos.Some? && Near(st.lastHubPos.value, st.pendingTarget.value) {
        return ArrivedPerState, None;
      }

      UpdateData(refreshed);
      outcome, payload := RetryUnlessArrived(uid, target, latest, cmdId, now, nowWall);
    }

    /** The end of `async_verify_and_retry`, once neither a newer command,
        a spent retry nor the last hub position has settled it and the
        status is refreshed: unless the cached position is near the target
        the control is resent, provided the command is still the latest. */
    method RetryUnlessArrived(uid: string, target: int, latest: Option<nat>, cmdId: Option<nat>,
                              now: real, nowWall: int)
      returns (outcome: VerifyOutcome, payload: Option<Object>)
      requires Valid() && uid in motion && !motion[uid].retryAttempted
      requires latest == if uid in lastCmd then Some(lastCmd[uid].id) else None
      modifies this`motion, this`lastGlobalControlTs, this`retries
      ensures Valid()
      ensures var pos := CachedPosition(status, uid);
        outcome == (if (pos.None? || !Near(pos.value, target)) && latest.Some? && cmdId == latest
                    then Retry else ArrivedPerCache)
      ensures payload.Some? <==> outcome == Retry
      ensures payload.Some? ==> payload.value == ControlPayload(UidText(uid), Some(target), nowWall)
      ensures outcome == Retry ==> cmdId.Some? && old(retries)[cmdId.value] == 0 && retries == old(retries)[cmdId.value := 1]
      ensures outcome == Retry ==> motion[uid].retryAttempted && lastGlobalControlTs == Some(now)
      ensures outcome != Retry ==> retries == old(retries) && lastGlobalControlTs == old(lastGlobalControlTs)
      ensures motion == if outcome == Retry
        then old(motion)[uid := old(motion)[uid].(retryAttempted := true, lastControlTs := Some(now))]
        else old(motion)
    {
      var pos := CachedPosition(status, uid);
      if (pos.None? || !Near(pos.value, target)) && latest.Some? && cmdId == latest {
        SpendRetry(uid, now);
        payload := Some(ControlPayload(UidText(uid), Some(target), nowWall));
        outcome := Retry;
      } else {
        payload := None;
        outcome := ArrivedPerCache;
      }
    }

    /** The three ways out of the watcher loop checked before each hold:
        nothing pending, the two-minute failsafe, and the cache showing
        every shade arrived. */
    method CheckBeforeHold(nowMono: real) returns (exit: Option<WatchOutcome>)
      requires Valid()
      modifies this`motion
      ensures Valid()
      ensures Checked(exit, motion) == BeforeHold(old(motion), status, peripherals, lastGlobalControlTs, nowMono)
    {
      if PendingSet(motion) == {} {
        return Some(Drained);
      }
      if FailsafeDue(lastGlobalControlTs, nowMono) {
        FailsafeClear();
        return Some(FailsafeFired);
      }
      var done := PruneWithCache();
      if done {
        return Some(PrunedByCache);
      }
      return None;
    }

    /** One decoded event: the watermark moves, and an event naming a
        pending shade triggers a status read, answered by `refresh`; a
        failed read ends the watcher (`crashed`). */
    method HandleEvent(event: Object, refresh: Option<Json>) returns (crashed: bool)
      requires Valid()
      modifies this`motion, this`status, this`notifTs
      ensures Valid()
      ensures Pass(Tables(status, motion), notifTs, crashed) ==
        EventStep(Pass(Tables(old(status), old(motion)), old(notifTs), false), event, refresh)
    {
      notifTs := NextWatermark(notifTs, event);
      crashed := false;
      if NamesPending(event, PendingSet(motion)) {
        if refresh.None? {
          crashed := true;
          return;
        }
        UpdateData(refresh);
      }
    }

    /** The fragments of one reply, in order: each one `parse` accepts
        moves the watermark, and one naming a pending shade triggers a
        status read answered by `refresh`; a failed read ends the watcher
        (`crashed`). */
    method HandleEvents(chunks: seq<string>, parse: string -> Option<Object>, refresh: Option<Json>)
      returns (crashed: bool)
      requires Valid()
      modifies this`motion, this`status, this`notifTs
      ensures Valid()
      ensures Pass(Tables(status, motion), notifTs, crashed) ==
        AfterEvents(Pass(Tables(old(status), old(motion)), old(notifTs), false), Events(chunks, parse), refresh)
      ensures crashed ==> refresh.None?
      ensures !crashed ==> notifTs == WatermarkAfter(old(notifTs), Events(chunks, parse))
    {
      ghost var start := Pass(Tables(status, motion), notifTs, false);
      PassOutcome(start, Events(chunks, parse), refresh);
      var i := 0;
      crashed := false;
      while i < |chunks| && !crashed
        invariant 0 <= i <= |chunks|
        invariant Valid()
        invariant crashed ==> 0 < i
        invariant Pass(Tables(status, motion), notifTs, crashed) == AfterEvents(start, Events(chunks[..i], parse), refresh)
      {
        crashed := HandleChunk(start, chunks, i, parse, refresh);
        i := i + 1;
      }
      if crashed {
        EndedHere(start, chunks, i - 1, parse, refresh);
      } else {
        assert chunks[..i] == chunks;
      }
    }

    /** One fragment of the reply: handled as an event when it decodes,
        skipped otherwise. */
    method HandleChunk(ghost start: Pass, chunks: seq<string>, i: nat, parse: string -> Option<Object>,
                       refresh: Option<Json>) returns (crashed: bool)
      requires Valid() && i < |chunks|
      requires Pass(Tables(status, motion), notifTs, false) == AfterEvents(start, Events(chunks[..i], parse), refresh)
      modifies this`motion, this`status, this`notifTs
      ensures Valid()
      ensures Pass(Tables(status, motion), notifTs, crashed) == AfterEvents(start, Events(chunks[..i + 1], parse), refresh)
    {
      AfterEventsNextChunk(start, chunks, i, parse, refresh);
      crashed := false;
      var decoded := parse(chunks[i]);
      if decoded.Some? {
        crashed := HandleEvent(decoded.value, refresh);
      }
    }

    /** The hold itself: the watermark is clamped to the last second, and
        the fragments of the reply, if the call returned one, are handled. */
    method Hold(nowWall: int, reply: Option<string>, parse: string -> Option<Object>, refresh: Option<Json>)
      returns (crashed: bool)
      requires Valid()
      modifies this`motion, this`status, this`notifTs
      ensures Valid()
      ensures Pass(Tables(status, motion), notifTs, crashed) ==
        HoldPass(Tables(old(status), old(motion)), old(notifTs), nowWall, reply, parse, refresh)
      ensures crashed ==> reply.Some? && refresh.None?
      ensures !crashed && reply.Some? ==>
        notifTs == WatermarkAfter(ClampWatermark(old(notifTs), nowWall), Events(ChunksIntended(reply.value), parse))
      ensures reply.None? ==> notifTs == ClampWatermark(old(notifTs), nowWall)
    {
      HoldOutcome(Tables(status, motion), notifTs, nowWall, reply, parse, refresh);
      notifTs := ClampWatermark(notifTs, nowWall);
      if reply.None? {
        return false;
      }
      crashed := HandleEvents(ChunksIntended(reply.value), parse, refresh);
    }

    /** One pass of the long-poll loop in `_notification_watch` at monotonic
        time `nowMono` and wall-clock second `nowWall`.  `reply` is what the
        hold returned (None: the call failed, and the loop sleeps a second
        and goes round again), `parse` stands for `json.loads`, and
        `refresh` answers each status read an event triggers. */
    method WatchStep(nowMono: real, nowWall: int, reply: Option<string>,
                     parse: string -> Option<Object>, refresh: Option<Json>)
      returns (outcome: WatchOutcome)
      requires Valid() && watcherRunning
      modifies this`motion, this`status, this`notifTs, this`watcherRunning
      ensures Valid()
      ensures Watched(outcome, Tables(status, motion), notifTs) ==
        WatchPass(Tables(old(status), old(motion)), old(notifTs), peripherals, lastGlobalControlTs,
                  nowMono, nowWall, reply, parse, refresh)
      ensures watcherRunning <==> outcome == Polled
    {
      var exit := CheckBeforeHold(nowMono);
      if exit.Some? {
        watcherRunning := false;
        return exit.value;
      }

      ghost var checked := motion;
      var crashed := Hold(nowWall, reply, parse, refresh);
      WatchPassHeld(Tables(old(status), old(motion)), old(notifTs), peripherals, lastGlobalControlTs,
                    nowMono, nowWall, reply, parse, refresh, checked, Pass(Tables(status, motion), notifTs, crashed));
      outcome := if crashed then Crashed else Polled;
      watcherRunning := !crashed;
    }
  }
}
