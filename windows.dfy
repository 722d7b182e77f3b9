/**
 * WindowManager.swift: the polling diff of on-screen windows.
 *
 * Each poll reads the window list (absent when the system does not return
 * one), keeps the standard-layer windows that are large enough, and compares
 * them with the previous poll's snapshot. The calls the diff makes on the
 * sound dispatcher are returned as `SoundRequest` values. The timer that
 * drives the polls is not modelled.
 */
module Windows {
  import opened Common

  /** A `CGRect`, with integer coordinates. */
  datatype Rect = Rect(x: int, y: int, width: int, height: int) {
    /** `size`: the part of the bounds that a resize changes. */
    function Size(): (int, int) {
      (width, height)
    }
  }

  /**
   * One dictionary of the window list, reduced to the three entries the poll
   * reads; each is absent when the key is missing or has another type.
   */
  datatype WindowRecord = WindowRecord(layer: Option<int>, id: Option<nat>, bounds: Option<Rect>)

  type Snapshot = map<nat, Rect>

  const MinSide: int := 50

  /** The filter of the poll: layer 0, an id, bounds, and both sides at least 50. */
  predicate Admitted(w: WindowRecord) {
    w.layer == Some(0) && w.id.Some? && w.bounds.Some?
    && !(w.bounds.value.width < MinSide || w.bounds.value.height < MinSide)
  }

  /** The snapshot a window list gives: admitted records by id, a later record overriding an earlier one. */
  function SnapshotOf(records: seq<WindowRecord>): Snapshot
  {
    if records == [] then map[]
    else
      var w := records[|records| - 1];
      var m := SnapshotOf(records[..|records| - 1]);
      if Admitted(w) then m[w.id.value := w.bounds.value] else m
  }

  /** Record `i` of the list is admitted and carries `id`. */
  predicate AdmittedWith(records: seq<WindowRecord>, i: int, id: nat) {
    0 <= i < |records| && Admitted(records[i]) && records[i].id.value == id
  }

  /** Record `i` is the last admitted record of the list that carries `id`. */
  predicate LastAdmittedWith(records: seq<WindowRecord>, i: int, id: nat) {
    AdmittedWith(records, i, id) && forall j :: i < j < |records| && Admitted(records[j]) ==> records[j].id.value != id
  }

  /** The snapshot holds exactly the ids of admitted records. */
  lemma {:induction false} SnapshotDomain(records: seq<WindowRecord>, id: nat)
    ensures id in SnapshotOf(records) <==> exists i :: AdmittedWith(records, i, id)
    decreases |records|
  {
    if records != [] {
      var n := |records| - 1;
      var init := records[..n];
      SnapshotDomain(init, id);
      if AdmittedWith(records, n, id) {
        assert id in SnapshotOf(records);
      } else if id in SnapshotOf(records) {
        assert id in SnapshotOf(init);
      }
      if id in SnapshotOf(init) {
        var i :| AdmittedWith(init, i, id);
        assert AdmittedWith(records, i, id);
      }
      if exists i :: AdmittedWith(records, i, id) {
        var i :| AdmittedWith(records, i, id);
        if i < n {
          assert AdmittedWith(init, i, id);
        }
      }
    }
  }

  /** Each id in the snapshot maps to the bounds of the last admitted record carrying it. */
  lemma {:induction false} SnapshotValue(records: seq<WindowRecord>, id: nat)
    requires id in SnapshotOf(records)
    ensures exists i :: LastAdmittedWith(records, i, id) && SnapshotOf(records)[id] == records[i].bounds.value
    decreases |records|
  {
    var n := |records| - 1;
    var init := records[..n];
    if AdmittedWith(records, n, id) {
      assert LastAdmittedWith(records, n, id);
    } else {
      SnapshotValue(init, id);
      var i :| LastAdmittedWith(init, i, id) && SnapshotOf(init)[id] == init[i].bounds.value;
      assert records[i] == init[i];
      forall j | i < j < |records| && Admitted(records[j])
        ensures records[j].id.value != id
      {
        if j < n {
          assert records[j] == init[j];
        }
      }
      assert LastAdmittedWith(records, i, id);
    }
  }

  /**
   * What the snapshot holds: exactly the ids of admitted records, each with
   * the bounds of the last admitted record carrying that id; so every
   * window in it is at least 50 by 50.
   */
  lemma SnapshotContents(records: seq<WindowRecord>, id: nat)
    ensures id in SnapshotOf(records) <==> exists i :: AdmittedWith(records, i, id)
    ensures id in SnapshotOf(records) ==>
              exists i :: LastAdmittedWith(records, i, id) && SnapshotOf(records)[id] == records[i].bounds.value
    ensures id in SnapshotOf(records) ==> SnapshotOf(records)[id].width >= MinSide && SnapshotOf(records)[id].height >= MinSide
  {
    SnapshotDomain(records, id);
    if id in SnapshotOf(records) {
      SnapshotValue(records, id);
      var i :| LastAdmittedWith(records, i, id) && SnapshotOf(records)[id] == records[i].bounds.value;
    }
  }

  /** How one window changed between two polls. */
  datatype Change = Unchanged | Moved | Resized

  /** The comparison of one window's bounds: a changed size is a resize, otherwise any change is a move. */
  function Classify(prev: Rect, cur: Rect): Change {
    if cur == prev then Unchanged
    else if cur.Size() != prev.Size() then Resized
    else Moved
  }

  /** Resized exactly when the size differs; moved exactly when the size is the same and the bounds differ. */
  lemma ClassifyCases(prev: Rect, cur: Rect)
    ensures Classify(prev, cur) == Resized <==> (cur.width, cur.height) != (prev.width, prev.height)
    ensures Classify(prev, cur) == Moved <==>
              (cur.width, cur.height) == (prev.width, prev.height) && (cur.x, cur.y) != (prev.x, prev.y)
    ensures Classify(prev, cur) == Unchanged <==> cur == prev
  {
  }

  /** Some window among `ids`, present in both polls, changed in the way `kind` says. */
  predicate ChangedAmong(prev: Snapshot, cur: Snapshot, ids: set<nat>, kind: Change) {
    exists id :: id in ids && id in prev && id in cur && Classify(prev[id], cur[id]) == kind
  }

  /** `n` calls of `play("window_close")`. */
  function Closes(n: nat): (r: seq<SoundRequest>)
    ensures |r| == n && forall i :: 0 <= i < n ==> r[i] == Play("window_close")
  {
    if n == 0 then [] else Closes(n - 1) + [Play("window_close")]
  }

  /** Looking at one more previous window adds a close exactly when that window vanished. */
  lemma VanishedStep(seen: set<nat>, id: nat, current: set<nat>)
    requires id !in seen
    ensures Closes(|(seen + {id}) - current|)
              == if id in current then Closes(|seen - current|) else Closes(|seen - current|) + [Play("window_close")]
  {
    if id in current {
      assert (seen + {id}) - current == seen - current;
    } else {
      assert (seen + {id}) - current == (seen - current) + {id};
    }
  }

  /** The calls one poll after the first makes, closes first. */
  function TickRequests(prev: Snapshot, cur: Snapshot): seq<SoundRequest> {
    Closes(|prev.Keys - cur.Keys|)
    + [if ChangedAmong(prev, cur, cur.Keys, Resized) then StartContinuous("window_resize") else StopContinuous("window_resize")]
    + [if ChangedAmong(prev, cur, cur.Keys, Moved) then StartContinuous("window_move") else StopContinuous("window_move")]
  }

  /**
   * A poll after the first plays `window_close` once per window that
   * vanished, then makes exactly one of start/stop for `window_resize` and
   * exactly one for `window_move`; a start exactly when some window that
   * stayed was resized (moved).
   */
  lemma TickRequestsShape(prev: Snapshot, cur: Snapshot)
    ensures var r := TickRequests(prev, cur);
      var k := |prev.Keys - cur.Keys|;
      && |r| == k + 2
      && (forall i :: 0 <= i < k ==> r[i] == Play("window_close"))
      && (r[k] == StartContinuous("window_resize") <==> exists id :: id in prev && id in cur && Classify(prev[id], cur[id]) == Resized)
      && (r[k] == StopContinuous("window_resize") <==> !exists id :: id in prev && id in cur && Classify(prev[id], cur[id]) == Resized)
      && (r[k + 1] == StartContinuous("window_move") <==> exists id :: id in prev && id in cur && Classify(prev[id], cur[id]) == Moved)
      && (r[k + 1] == StopContinuous("window_move") <==> !exists id :: id in prev && id in cur && Classify(prev[id], cur[id]) == Moved)
  {
  }

  /** A window that was not there before cannot have moved or been resized. */
  lemma ChangedIgnoresNewIds(prev: Snapshot, cur: Snapshot, id: nat, r: Rect, kind: Change)
    requires id !in prev
    ensures ChangedAmong(prev, cur[id := r], cur[id := r].Keys, kind) == ChangedAmong(prev, cur, cur.Keys, kind)
  {
    if ChangedAmong(prev, cur[id := r], cur[id := r].Keys, kind) {
      var w :| w in cur[id := r].Keys && w in prev && w in cur[id := r] && Classify(prev[w], cur[id := r][w]) == kind;
      assert w != id && w in cur.Keys;
    }
  }

  /** Adding an id the previous snapshot lacked vanishes nothing. */
  lemma VanishedIgnoresNewIds(previousIds: set<nat>, currentIds: set<nat>, id: nat)
    requires id !in previousIds
    ensures previousIds - (currentIds + {id}) == previousIds - currentIds
  {
  }

  /** Windows that appear make no sound: a poll sees only the windows the previous one had. */
  lemma AppearingWindowsAreSilent(prev: Snapshot, cur: Snapshot, id: nat, r: Rect)
    requires id !in prev && id !in cur
    ensures TickRequests(prev, cur[id := r]) == TickRequests(prev, cur)
  {
    assert cur[id := r].Keys == cur.Keys + {id};
    VanishedIgnoresNewIds(prev.Keys, cur.Keys, id);
    ChangedIgnoresNewIds(prev, cur, id, r, Resized);
    ChangedIgnoresNewIds(prev, cur, id, r, Moved);
  }

  /** When nothing changed on screen, a poll only stops both continuous sounds. */
  lemma StillScreenStopsBoth(s: Snapshot)
    ensures TickRequests(s, s) == [StopContinuous("window_resize"), StopContinuous("window_move")]
  {
    assert s.Keys - s.Keys == {};
  }

  class WindowManager {
    var previousWindows: Snapshot
    var isFirstRun: bool

    constructor ()
      ensures previousWindows == map[] && isFirstRun
    {
      previousWindows := map[];
      isFirstRun := true;
    }

    /** The filter loop of `checkWindows`. */
    static method FilterWindows(records: seq<WindowRecord>) returns (current: Snapshot)
      ensures current == SnapshotOf(records)
    {
      current := map[];
      var i := 0;
      while i < |records|
        invariant 0 <= i <= |records|
        invariant current == SnapshotOf(records[..i])
      {
        assert records[..i + 1][..i] == records[..i];
        var info := records[i];
        if info.layer == Some(0) && info.id.Some? && info.bounds.Some? {
          var bounds := info.bounds.value;
          if !(bounds.width < MinSide || bounds.height < MinSide) {
            current := current[info.id.value := bounds];
          }
        }
        i := i + 1;
      }
      assert records[..i] == records;
    }

    /** The "removed" loop, over the ids of the two snapshots: one `window_close` per id that vanished. */
    static method RemovedWindows(previousIds: set<nat>, currentIds: set<nat>) returns (closes: seq<SoundRequest>)
      ensures closes == Closes(|previousIds - currentIds|)
    {
      closes := [];
      var remaining := previousIds;
      ghost var seen: set<nat> := {};
      while remaining != {}
        invariant remaining !! seen && remaining + seen == previousIds
        invariant closes == Closes(|seen - currentIds|)
        decreases |remaining|
      {
        var id :| id in remaining;
        VanishedStep(seen, id, currentIds);
        if id !in currentIds {
          closes := closes + [Play("window_close")];
        }
        remaining := remaining - {id};
        seen := seen + {id};
      }
      assert seen == previousIds;
    }

    /** The "moved/resized" loop: whether some window present in both polls was resized, and moved. */
    static method ScanChanges(prev: Snapshot, cur: Snapshot) returns (resizing: bool, moving: bool)
      ensures resizing == ChangedAmong(prev, cur, cur.Keys, Resized)
      ensures moving == ChangedAmong(prev, cur, cur.Keys, Moved)
    {
      resizing, moving := false, false;
      var remaining := cur.Keys;
      ghost var seen: set<nat> := {};
      while remaining != {}
        invariant remaining !! seen && remaining + seen == cur.Keys
        invariant resizing == ChangedAmong(prev, cur, seen, Resized)
        invariant moving == ChangedAmong(prev, cur, seen, Moved)
        decreases |remaining|
      {
        var id :| id in remaining;
        if id in prev {
          var currentBounds, prevBounds := cur[id], prev[id];
          if currentBounds != prevBounds {
            if currentBounds.Size() != prevBounds.Size() {
              resizing := true;
            } else {
              moving := true;
            }
          }
        }
        remaining := remaining - {id};
        seen := seen + {id};
      }
    }

    /**
     * `checkWindows`, given the window list of this poll. Without a list
     * nothing changes. The first poll records the baseline silently; every
     * later poll makes the calls of `TickRequests` and keeps the new snapshot.
     */
    method CheckWindows(list: Option<seq<WindowRecord>>) returns (requests: seq<SoundRequest>)
      modifies this
      ensures list.None? ==>
                requests == [] && previousWindows == old(previousWindows) && isFirstRun == old(isFirstRun)
      ensures list.Some? && old(isFirstRun) ==>
                requests == [] && previousWindows == SnapshotOf(list.value) && !isFirstRun
      ensures list.Some? && !old(isFirstRun) ==>
                requests == TickRequests(old(previousWindows), SnapshotOf(list.value))
                && previousWindows == SnapshotOf(list.value) && !isFirstRun
    {
      if list.None? {
        return [];
      }
      var currentWindows := FilterWindows(list.value);
      if isFirstRun {
        previousWindows := currentWindows;
        isFirstRun := false;
        return [];
      }
      requests := RemovedWindows(previousWindows.Keys, currentWindows.Keys);
      var isAnyWindowResizing, isAnyWindowMoving := ScanChanges(previousWindows, currentWindows);
      if isAnyWindowResizing {
        requests := requests + [StartContinuous("window_resize")];
      } else {
        requests := requests + [StopContinuous("window_resize")];
      }
      if isAnyWindowMoving {
        requests := requests + [StartContinuous("window_move")];
      } else {
        requests := requests + [StopContinuous("window_move")];
      }
      previousWindows := currentWindows;
    }
  }
}
