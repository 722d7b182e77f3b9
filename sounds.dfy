/**
 * SoundManager.swift: the sound dispatcher.
 *
 * `Dispatcher` is the dispatcher's state as a value, with one transition
 * function per operation of the source; class `SoundManager` keeps the same
 * state in mutable fields and its methods are proved to make exactly those
 * transitions. Every block the source hands to a dispatch queue is one
 * atomic step here; the block `stopContinuous` schedules 0.25 s later is a
 * step of its own (`RunScheduledStop`), as is the cleanup of a finished
 * one-shot player.
 *
 * The audio device is abstract. A player handle is a `Player` value whose
 * `id` stands for the identity of the AVAudioPlayer object. What the device
 * answers when asked to load a file (the file is missing, it does not
 * decode, or a player is created) is a `Load` parameter. The device state
 * the dispatcher consults, `isPlaying` of a looping player, is the set
 * `sounding`: a looping player sounds from `play()` until `stop()` (a fade
 * to volume 0 does not stop it), or until the device ends it on its own
 * (`PlayerEnded`). A player is an object the runtime frees once nothing holds
 * it, and a freed player stops sounding (`Release`). What holds a looping
 * player is its entry in `activePlayers` and every pending scheduled stop that
 * captured it; every operation but the as-written scheduled stop drops only
 * references to players that are already stopped, so the release is spelled
 * out there alone.
 */
module Sounds {
  import opened Common
  import opened Text

  /** Throttle interval of key presses (0.05 s). */
  const KeyThrottle: Millis := 50
  /** Throttle interval of every other event (0.1 s). */
  const EventThrottle: Millis := 100
  /** Delay of the stop-and-remove block `stopContinuous` schedules (0.25 s). */
  const StopDelay: Millis := 250

  const KeyDown: string := "key_down"

  /** A player the device created; `id` is the object's identity. */
  datatype Player = Player(id: nat, event: string, path: string, looping: bool)

  /** The block `stopContinuous` hands to `asyncAfter`, with its deadline. */
  datatype ScheduledStop = ScheduledStop(event: string, player: Player, due: Millis)

  /** The device's answer to "load this path": the file-existence check, then `AVAudioPlayer(contentsOf:)`. */
  datatype Load = FileMissing | DecodeFailed | Loaded

  /** The throttle interval `play(event:)` applies to `event`. */
  function Threshold(event: string): Millis {
    if event == KeyDown then KeyThrottle else EventThrottle
  }

  /** The ledger key `playKey` throttles on: `"key_\(code)"`. */
  function KeyLedgerKey(code: int): string {
    "key_" + DecimalString(code)
  }

  /** `keySoundPaths` after merging the `keys` table of a configuration. */
  ghost predicate KeysMerged(before: map<int, string>, keys: Option<map<string, string>>, after: map<int, string>) {
    match keys
    case None => after == before
    case Some(ks) =>
      && (forall c :: c in after <==> c in before || ParsedKey(ks, c))
      && (forall c :: c in after && !ParsedKey(ks, c) ==> after[c] == before[c])
      && (forall c :: c in after && ParsedKey(ks, c) ==> SourcedFrom(ks, c, after[c]))
  }

  /** Some key of `ks` parses as the integer `c`. */
  ghost predicate ParsedKey(ks: map<string, string>, c: int) {
    exists k :: k in ks && ParseInt64(k) == Some(c)
  }

  /** `path` is the value of some key of `ks` that parses as `c`. */
  ghost predicate SourcedFrom(ks: map<string, string>, c: int, path: string) {
    exists k :: k in ks && ParseInt64(k) == Some(c) && ks[k] == path
  }

  /** `removeAll(where: { $0 == p })`. */
  function Without(ps: seq<Player>, p: Player): (r: seq<Player>)
    ensures forall q :: q in r <==> q in ps && q != p
    ensures |r| <= |ps|
  {
    if ps == [] then []
    else if ps[0] == p then Without(ps[1..], p)
    else [ps[0]] + Without(ps[1..], p)
  }

  /**
   * `removeAll(where:)` keeps the order of what it keeps: removing from two
   * lists joined is joining the two lists with the player removed.
   */
  lemma {:induction false} WithoutKeepsOrder(xs: seq<Player>, ys: seq<Player>, p: Player)
    ensures Without(xs + ys, p) == Without(xs, p) + Without(ys, p)
    ensures Without([p], p) == [] && forall q :: q != p ==> Without([q], p) == [q]
    decreases |xs|
  {
    if xs != [] {
      WithoutKeepsOrder(xs[1..], ys, p);
      assert (xs + ys)[1..] == xs[1..] + ys;
    } else {
      assert xs + ys == ys;
    }
    assert [p][1..] == [];
    forall q | q != p ensures Without([q], p) == [q] {
      assert [q][1..] == [];
    }
  }

  datatype Dispatcher = Dispatcher(
    eventSoundPaths: map<string, string>,
    keySoundPaths: map<int, string>,
    activePlayers: map<string, Player>,   // continuous players, by event
    oneShotPlayers: seq<Player>,          // one-shot players kept until their cleanup
    lastPlayed: map<string, Millis>,      // the throttle ledger
    isMuted: bool,
    nextId: nat,                          // identity of the next player the device creates
    sounding: set<Player>,                // looping players the device is playing
    fadedOut: set<Player>,                // players told to fade to volume 0 (over 0.2 s)
    scheduled: seq<ScheduledStop>)        // stop-and-remove blocks not yet run, by deadline
  {
    /** `isPlaying` of a continuous player. */
    predicate IsPlaying(p: Player) {
      p in sounding
    }

    /**
     * `playSoundOnMain`: nothing when muted or when the device cannot load the
     * file; otherwise a new player at volume 1.0, stored under `event` when
     * looping and appended to the one-shot list when not.
     */
    function PlaySoundOnMain(path: string, event: string, loop: bool, load: Load): Dispatcher {
      if isMuted || load != Loaded then this
      else
        var p := Player(nextId, event, path, loop);
        if loop then
          this.(nextId := nextId + 1, activePlayers := activePlayers[event := p], sounding := sounding + {p})
        else
          this.(nextId := nextId + 1, oneShotPlayers := oneShotPlayers + [p])
    }

    /** `play(event:)` at time `now`. */
    function Play(event: string, now: Millis, load: Load): Dispatcher {
      if event !in eventSoundPaths then this
      else if Recent(Lookup(lastPlayed, event), now, Threshold(event)) then this
      else this.(lastPlayed := lastPlayed[event := now])
               .PlaySoundOnMain(eventSoundPaths[event], event, false, load)
    }

    /** `playKey(keycode:)` at time `now`. */
    function PlayKey(code: int, now: Millis, load: Load): Dispatcher {
      var key := KeyLedgerKey(code);
      if Recent(Lookup(lastPlayed, key), now, KeyThrottle) then this
      else
        var d := this.(lastPlayed := lastPlayed[key := now]);
        if code in keySoundPaths then d.PlaySoundOnMain(keySoundPaths[code], key, false, load)
        else if KeyDown in eventSoundPaths then d.PlaySoundOnMain(eventSoundPaths[KeyDown], KeyDown, false, load)
        else d
    }

    /** `startContinuous(event:)`. */
    function StartContinuous(event: string, load: Load): Dispatcher {
      if event in activePlayers && IsPlaying(activePlayers[event]) then this
      else if event !in eventSoundPaths then this
      else PlaySoundOnMain(eventSoundPaths[event], event, true, load)
    }

    /** `stopContinuous(event:)` at time `now`. */
    function StopContinuous(event: string, now: Millis): Dispatcher {
      if event !in activePlayers then this
      else
        var p := activePlayers[event];
        if IsPlaying(p) then
          this.(fadedOut := fadedOut + {p}, scheduled := scheduled + [ScheduledStop(event, p, now + StopDelay)])
        else
          this.(activePlayers := activePlayers - {event})
    }

    /** Something still holds `p`: its event's entry, or a pending stop that captured it. */
    predicate Held(p: Player) {
      p in activePlayers.Values || exists i :: 0 <= i < |scheduled| && scheduled[i].player == p
    }

    /** The runtime frees `p` when nothing holds it any more, which stops it. */
    function Release(p: Player): Dispatcher {
      if Held(p) then this else this.(sounding := sounding - {p})
    }

    /**
     * The block `stopContinuous` scheduled, as the source writes it: stop the
     * player it captured, then remove whatever player is stored under the
     * event's key, which frees that player unless a later stop captured it.
     */
    function RunScheduledStop(now: Millis): Dispatcher
      requires scheduled != [] && scheduled[0].due <= now
    {
      var s := scheduled[0];
      var d := this.(scheduled := scheduled[1..], sounding := sounding - {s.player},
                     activePlayers := activePlayers - {s.event});
      if s.event in activePlayers then d.Release(activePlayers[s.event]) else d
    }

    /**
     * The same block, corrected: the map entry is removed only when it still
     * holds the player the block captured.
     */
    function RunScheduledStopChecked(now: Millis): Dispatcher
      requires scheduled != [] && scheduled[0].due <= now
    {
      var s := scheduled[0];
      this.(scheduled := scheduled[1..], sounding := sounding - {s.player},
            activePlayers := if s.event in activePlayers && activePlayers[s.event] == s.player
                             then activePlayers - {s.event} else activePlayers)
    }

    /** `setMuted(_:)`. */
    function SetMuted(muted: bool): Dispatcher {
      if muted then this.(isMuted := true, sounding := sounding - activePlayers.Values, activePlayers := map[])
      else this.(isMuted := false)
    }

    /** The cleanup block a one-shot player schedules for the end of its playback. */
    function CleanupOneShot(p: Player): Dispatcher {
      this.(oneShotPlayers := Without(oneShotPlayers, p))
    }

    /** The device ends a player by itself (not an operation of the source). */
    function PlayerEnded(p: Player): Dispatcher {
      this.(sounding := sounding - {p})
    }
  }

  /** The dispatcher as `SoundManager.shared` starts. */
  function Initial(): Dispatcher {
    Dispatcher(map[], map[], map[], [], map[], false, 0, {}, {}, [])
  }

  // ------------------------------------------------------------------ throttling

  /** `play` of an event with no configured path changes nothing, not even the ledger. */
  lemma PlayUnconfiguredIsNoOp(d: Dispatcher, event: string, now: Millis, load: Load)
    requires event !in d.eventSoundPaths
    ensures d.Play(event, now, load) == d
  {
  }

  /**
   * `play` of a configured event proceeds exactly when the ledger has no entry
   * for it or the entry is at least the event's interval old (50 ms for
   * `key_down`, 100 ms otherwise); proceeding records `now`, and a suppressed
   * call leaves the ledger and everything else as it was.
   */
  lemma PlayThrottle(d: Dispatcher, event: string, now: Millis, load: Load)
    requires event in d.eventSoundPaths
    ensures var proceeds := event !in d.lastPlayed || now - d.lastPlayed[event] >= Threshold(event);
      && (proceeds ==> d.Play(event, now, load).lastPlayed == d.lastPlayed[event := now])
      && (!proceeds ==> d.Play(event, now, load) == d)
      && (proceeds && !d.isMuted && load == Loaded ==>
            d.Play(event, now, load) == d.(lastPlayed := d.lastPlayed[event := now], nextId := d.nextId + 1,
                                           oneShotPlayers := d.oneShotPlayers + [Player(d.nextId, event, d.eventSoundPaths[event], false)]))
    ensures Threshold(event) == (if event == "key_down" then 50 else 100)
  {
  }

  /**
   * When muted, or when the file cannot be loaded, a `play` that passes the
   * throttle creates no player, but it has already recorded its time.
   */
  lemma PlayWithoutPlayerStillRecords(d: Dispatcher, event: string, now: Millis, load: Load)
    requires event in d.eventSoundPaths && !Recent(Lookup(d.lastPlayed, event), now, Threshold(event))
    requires d.isMuted || load != Loaded
    ensures d.Play(event, now, load) == d.(lastPlayed := d.lastPlayed[event := now])
  {
  }

  /**
   * `playKey` throttles on `"key_<code>"` at 50 ms and records the time before
   * any lookup, so the ledger moves even when no sound is configured; it
   * plays the key's own sound if there is one, else the `key_down` sound,
   * else nothing.
   */
  lemma PlayKeyLookup(d: Dispatcher, code: int, now: Millis)
    requires !Recent(Lookup(d.lastPlayed, KeyLedgerKey(code)), now, KeyThrottle)
    requires !d.isMuted
    ensures var d' := d.PlayKey(code, now, Loaded);
      && d'.lastPlayed == d.lastPlayed[KeyLedgerKey(code) := now]
      && (code in d.keySoundPaths ==>
            d'.oneShotPlayers == d.oneShotPlayers + [Player(d.nextId, KeyLedgerKey(code), d.keySoundPaths[code], false)])
      && (code !in d.keySoundPaths && KeyDown in d.eventSoundPaths ==>
            d'.oneShotPlayers == d.oneShotPlayers + [Player(d.nextId, KeyDown, d.eventSoundPaths[KeyDown], false)])
      && (code !in d.keySoundPaths && KeyDown !in d.eventSoundPaths ==>
            d' == d.(lastPlayed := d.lastPlayed[KeyLedgerKey(code) := now]))
  {
  }

  /**
   * A second press of the same key within 50 ms of the last recorded one
   * changes nothing at all, not even the ledger.
   */
  lemma PlayKeyThrottled(d: Dispatcher, code: int, now: Millis, load: Load)
    requires Recent(Lookup(d.lastPlayed, KeyLedgerKey(code)), now, KeyThrottle)
    ensures d.PlayKey(code, now, load) == d
    ensures d.PlayKey(code, now, load).lastPlayed[KeyLedgerKey(code)] > now - 50
  {
  }

  /**
   * Muted, or with a file the device cannot load, a key press that passes the
   * throttle creates no player but has already recorded its time.
   */
  lemma PlayKeyWithoutPlayerStillRecords(d: Dispatcher, code: int, now: Millis, load: Load)
    requires !Recent(Lookup(d.lastPlayed, KeyLedgerKey(code)), now, KeyThrottle)
    requires d.isMuted || load != Loaded
    ensures d.PlayKey(code, now, load) == d.(lastPlayed := d.lastPlayed[KeyLedgerKey(code) := now])
  {
  }

  /**
   * The ledger keys of two key codes differ when the codes do (the codes are
   * 64-bit), and no key code shares its ledger entry with `key_down`: each
   * key is throttled on its own.
   */
  lemma KeyLedgerKeysDistinct(a: int, b: int)
    requires Int64Min <= a <= Int64Max && Int64Min <= b <= Int64Max
    ensures KeyLedgerKey(a) == KeyLedgerKey(b) <==> a == b
    ensures KeyLedgerKey(a) != KeyDown
  {
    if KeyLedgerKey(a) == KeyLedgerKey(b) {
      assert DecimalString(a) == KeyLedgerKey(a)[4..];
      assert DecimalString(b) == KeyLedgerKey(b)[4..];
      DecimalStringInjective(a, b);
    }
    var s := DecimalString(a);
    assert s[0] != 'd' by {
      if a >= 0 {
        assert IsDigit(Digits(a)[0]);
      }
    }
    assert KeyLedgerKey(a)[4] == s[0];
    assert KeyDown[4] == 'd';
  }

  /**
   * A burst: an event with a 100 ms interval fired at
   * 0, 30, 60, 90 and 150 ms creates exactly two players, at 0 and at 150.
   */
  lemma BurstFiresTwice(d: Dispatcher, event: string)
    requires event in d.eventSoundPaths && event != KeyDown && event !in d.lastPlayed && !d.isMuted
    ensures var d' := d.Play(event, 0, Loaded).Play(event, 30, Loaded).Play(event, 60, Loaded)
                      .Play(event, 90, Loaded).Play(event, 150, Loaded);
      && d'.oneShotPlayers == d.oneShotPlayers + [Player(d.nextId, event, d.eventSoundPaths[event], false),
                                                  Player(d.nextId + 1, event, d.eventSoundPaths[event], false)]
      && d'.lastPlayed == d.lastPlayed[event := 150]
  {
    var d1 := d.Play(event, 0, Loaded);
    assert d1.lastPlayed[event] == 0;
    var d4 := d1.Play(event, 30, Loaded).Play(event, 60, Loaded).Play(event, 90, Loaded);
    assert d4 == d1;
  }

  // ------------------------------------------------------------------ continuous players

  /**
   * `startContinuous` does nothing when the event's player reports playing or
   * no path is configured; otherwise, unmuted and with a loadable file, it
   * stores exactly one new looping player under the event and starts it.
   */
  lemma StartContinuousCases(d: Dispatcher, event: string, load: Load)
    ensures ((event in d.activePlayers && d.IsPlaying(d.activePlayers[event])) || event !in d.eventSoundPaths)
              ==> d.StartContinuous(event, load) == d
    ensures !(event in d.activePlayers && d.IsPlaying(d.activePlayers[event])) && event in d.eventSoundPaths
              && !d.isMuted && load == Loaded ==>
              var p := Player(d.nextId, event, d.eventSoundPaths[event], true);
              var d' := d.StartContinuous(event, load);
              && d'.activePlayers == d.activePlayers[event := p]
              && d'.sounding == d.sounding + {p}
              && d'.oneShotPlayers == d.oneShotPlayers
              && d'.IsPlaying(d'.activePlayers[event])
  {
  }

  /** Asking to start twice in a row starts at most one player. */
  lemma StartContinuousIdempotent(d: Dispatcher, event: string, load: Load)
    ensures d.StartContinuous(event, load).StartContinuous(event, load) == d.StartContinuous(event, load)
  {
  }

  /**
   * `stopContinuous`: a playing player is told to fade out and a stop of that
   * player is scheduled 250 ms later, with the entry left in place; a player
   * that does not play is removed at once; without an entry nothing happens.
   */
  lemma StopContinuousCases(d: Dispatcher, event: string, now: Millis)
    ensures event !in d.activePlayers ==> d.StopContinuous(event, now) == d
    ensures event in d.activePlayers && d.IsPlaying(d.activePlayers[event]) ==>
              var p := d.activePlayers[event];
              var d' := d.StopContinuous(event, now);
              && d'.activePlayers == d.activePlayers && d'.sounding == d.sounding
              && d'.fadedOut == d.fadedOut + {p}
              && d'.scheduled == d.scheduled + [ScheduledStop(event, p, now + 250)]
    ensures event in d.activePlayers && !d.IsPlaying(d.activePlayers[event]) ==>
              d.StopContinuous(event, now) == d.(activePlayers := d.activePlayers - {event})
  {
  }

  /**
   * A start while the player fades out is a no-op: the fading player still
   * reports playing, and nothing cancels the scheduled stop.
   */
  lemma RestartDuringFadeIsNoOp(d: Dispatcher, event: string, now: Millis, load: Load)
    requires event in d.activePlayers && d.IsPlaying(d.activePlayers[event])
    ensures var faded := d.StopContinuous(event, now);
      && faded.StartContinuous(event, load) == faded
      && faded.scheduled[|faded.scheduled| - 1].player == d.activePlayers[event]
  {
  }

  /**
   * `setMuted(true)` stops every continuous player and empties the map,
   * leaving one-shot players alone; `setMuted(false)` leaves the continuous
   * players as they are.
   */
  lemma SetMutedCases(d: Dispatcher)
    ensures var m := d.SetMuted(true);
      && m.isMuted && m.activePlayers == map[]
      && (forall e :: e in d.activePlayers ==> !m.IsPlaying(d.activePlayers[e]))
      && m.oneShotPlayers == d.oneShotPlayers
    ensures var u := d.SetMuted(false);
      && !u.isMuted && u.activePlayers == d.activePlayers && u.sounding == d.sounding
  {
  }

  // ------------------------------------------------------------------ one handle per event

  /**
   * Every looping player the device is sounding is the one stored under its
   * own event: nothing plays that the dispatcher can no longer stop.
   */
  predicate Tracked(d: Dispatcher) {
    forall p :: p in d.sounding ==> p.event in d.activePlayers && d.activePlayers[p.event] == p
  }

  /** Under `Tracked`, at most one player sounds per event. */
  lemma TrackedOnePlayerPerEvent(d: Dispatcher, p: Player, q: Player)
    requires Tracked(d) && p in d.sounding && q in d.sounding && p.event == q.event
    ensures p == q
  {
  }

  /** Under `Tracked`, muting silences every looping player. */
  lemma TrackedMuteSilencesAll(d: Dispatcher)
    requires Tracked(d)
    ensures d.SetMuted(true).sounding == {}
  {
    forall p | p in d.sounding ensures p in d.activePlayers.Values {
      assert d.activePlayers[p.event] == p;
    }
  }

  /** One step of the dispatcher and of its environment, with the corrected scheduled stop. */
  datatype Step =
    | PlayStep(event: string, now: Millis, load: Load)
    | PlayKeyStep(code: int, now: Millis, load: Load)
    | StartStep(event: string, load: Load)
    | StopStep(event: string, now: Millis)
    | ScheduledStopStep(now: Millis)
    | MuteStep(muted: bool)
    | CleanupStep(player: Player)
    | EndedStep(player: Player)

  predicate Enabled(d: Dispatcher, s: Step) {
    s.ScheduledStopStep? ==> d.scheduled != [] && d.scheduled[0].due <= s.now
  }

  function Apply(d: Dispatcher, s: Step): Dispatcher
    requires Enabled(d, s)
  {
    match s
    case PlayStep(e, now, load) => d.Play(e, now, load)
    case PlayKeyStep(c, now, load) => d.PlayKey(c, now, load)
    case StartStep(e, load) => d.StartContinuous(e, load)
    case StopStep(e, now) => d.StopContinuous(e, now)
    case ScheduledStopStep(now) => d.RunScheduledStopChecked(now)
    case MuteStep(m) => d.SetMuted(m)
    case CleanupStep(p) => d.CleanupOneShot(p)
    case EndedStep(p) => d.PlayerEnded(p)
  }

  /**
   * With the corrected scheduled stop, every operation keeps `Tracked`, so
   * at most one player ever sounds per continuous event.
   */
  lemma StepKeepsTracked(d: Dispatcher, s: Step)
    requires Tracked(d) && Enabled(d, s)
    ensures Tracked(Apply(d, s))
  {
    match s
    case StartStep(e, load) =>
      var d' := d.StartContinuous(e, load);
      forall p | p in d'.sounding
        ensures p.event in d'.activePlayers && d'.activePlayers[p.event] == p
      {
        if p in d.sounding && p.event == e {
          assert d.activePlayers[e] == p;
        }
      }
    case StopStep(e, now) =>
      var d' := d.StopContinuous(e, now);
      forall p | p in d'.sounding
        ensures p.event in d'.activePlayers && d'.activePlayers[p.event] == p
      {
        assert d.activePlayers[p.event] == p;
      }
    case ScheduledStopStep(now) =>
      var d' := d.RunScheduledStopChecked(now);
      forall p | p in d'.sounding
        ensures p.event in d'.activePlayers && d'.activePlayers[p.event] == p
      {
        assert d.activePlayers[p.event] == p;
      }
    case MuteStep(m) =>
      if m { TrackedMuteSilencesAll(d); }
    case PlayStep(e, now, load) =>
    case PlayKeyStep(c, now, load) =>
    case CleanupStep(p) =>
    case EndedStep(p) =>
  }

  /**
   * The scheduled stop as written cuts off a restarted player. The window
   * poller stops a moving window's sound on every idle tick, so a fading
   * player gets several stops scheduled. Ticks at 0 (moving), 100 and 200
   * (idle) schedule stops due at 350 and 450; the first runs at 350, the
   * window moves again at 400 and a new player starts; the second stop runs
   * at 450, removes the new player's entry and so frees it: the loop of a
   * window that is moving stops 50 ms after it began, with no fade and no
   * `stopContinuous` for it, and the next moving tick starts the sound again
   * from its beginning. The corrected stop keeps that player sounding.
   */
  lemma ScheduledStopEvictsRestartedPlayer()
    ensures
      var move := "window_move";
      var d0 := Initial().(eventSoundPaths := map[move := "/sounds/move.wav"]);
      var d1 := d0.StartContinuous(move, Loaded);
      var d2 := d1.StopContinuous(move, 100).StopContinuous(move, 200);
      var d3 := d2.RunScheduledStop(350);
      var d4 := d3.StartContinuous(move, Loaded);
      var restarted := Player(1, move, "/sounds/move.wav", true);
      && d4.activePlayers == map[move := restarted] && d4.sounding == {restarted} && restarted !in d4.fadedOut
      && d4.scheduled == [ScheduledStop(move, Player(0, move, "/sounds/move.wav", true), 450)]
      && var d5 := d4.RunScheduledStop(450);
      && d5.sounding == {} && d5.activePlayers == map[] && d5.scheduled == []
      && var fixed := d4.RunScheduledStopChecked(450);
      && fixed.sounding == {restarted} && fixed.activePlayers == d4.activePlayers
      && d5.StartContinuous(move, Loaded).sounding == {Player(2, move, "/sounds/move.wav", true)}
  {
    var move := "window_move";
    var path := "/sounds/move.wav";
    var p0 := Player(0, move, path, true);
    var restarted := Player(1, move, path, true);
    var d0 := Initial().(eventSoundPaths := map[move := path]);
    var d1 := d0.StartContinuous(move, Loaded);
    assert d1.activePlayers == map[move := p0] && d1.sounding == {p0};
    var d2 := d1.StopContinuous(move, 100).StopContinuous(move, 200);
    assert d2.scheduled == [ScheduledStop(move, p0, 350), ScheduledStop(move, p0, 450)];
    var d3 := d2.RunScheduledStop(350);
    assert d3.sounding == {} && d3.activePlayers == map[];
    var d4 := d3.StartContinuous(move, Loaded);
    assert d4.activePlayers == map[move := restarted] && d4.sounding == {restarted};
    var d5 := d4.RunScheduledStop(450);
    assert !d4.(scheduled := [], activePlayers := map[]).Held(restarted);
    assert d5.sounding == {} && d5.activePlayers == map[];
  }

  /** The corrected stop leaves a restarted player in place. */
  lemma CheckedStopKeepsRestartedPlayer(d: Dispatcher, now: Millis)
    requires d.scheduled != [] && d.scheduled[0].due <= now
    requires var s := d.scheduled[0]; s.event in d.activePlayers && d.activePlayers[s.event] != s.player
    ensures d.RunScheduledStopChecked(now).activePlayers == d.activePlayers
    ensures d.RunScheduledStopChecked(now).sounding == d.sounding - {d.scheduled[0].player}
  {
  }

  // ------------------------------------------------------------------ the object

  class SoundManager {
    var eventSoundPaths: map<string, string>
    var keySoundPaths: map<int, string>
    var activePlayers: map<string, Player>
    var oneShotPlayers: seq<Player>
    var lastPlayed: map<string, Millis>
    var isMuted: bool
    var nextId: nat
    var sounding: set<Player>
    var fadedOut: set<Player>
    var scheduled: seq<ScheduledStop>

    function State(): Dispatcher
      reads this
    {
      Dispatcher(eventSoundPaths, keySoundPaths, activePlayers, oneShotPlayers, lastPlayed,
                 isMuted, nextId, sounding, fadedOut, scheduled)
    }

    constructor ()
      ensures State() == Initial()
    {
      eventSoundPaths, keySoundPaths, activePlayers, oneShotPlayers := map[], map[], map[], [];
      lastPlayed, isMuted, nextId := map[], false, 0;
      sounding, fadedOut, scheduled := {}, {}, [];
    }

    method SetMuted(muted: bool)
      modifies this
      ensures State() == old(State()).SetMuted(muted)
    {
      isMuted := muted;
      if muted {
        var stillPlaying := sounding;
        var todo := activePlayers.Keys;
        while todo != {}
          invariant todo <= activePlayers.Keys
          invariant stillPlaying == sounding - (set e | e in activePlayers && e !in todo :: activePlayers[e])
          decreases todo
        {
          var e :| e in todo;
          stillPlaying := stillPlaying - {activePlayers[e]};
          todo := todo - {e};
        }
        assert (set e | e in activePlayers && e !in todo :: activePlayers[e]) == activePlayers.Values;
        sounding := stillPlaying;
        activePlayers := map[];
      }
    }

    /**
     * `configure(with:)`: the event table is replaced; every key of `keys`
     * that parses as an integer adds or overwrites that key code's entry, and
     * entries from earlier calls are kept.
     */
    method Configure(events: map<string, string>, keys: Option<map<string, string>>)
      modifies this
      ensures KeysMerged(old(keySoundPaths), keys, keySoundPaths)
      ensures State() == old(State()).(eventSoundPaths := events, keySoundPaths := keySoundPaths)
    {
      eventSoundPaths := events;
      if keys.Some? {
        var ks := keys.value;
        var merged := keySoundPaths;
        var todo := ks.Keys;
        while todo != {}
          invariant todo <= ks.Keys
          invariant forall c :: c in merged <==> c in keySoundPaths || ParsedKey(ks - todo, c)
          invariant forall c :: c in merged && !ParsedKey(ks - todo, c) ==> merged[c] == keySoundPaths[c]
          invariant forall c :: c in merged && ParsedKey(ks - todo, c) ==> SourcedFrom(ks, c, merged[c])
          decreases todo
        {
          var k :| k in todo;
          var code := ParseInt64(k);
          ghost var done := ks - todo;
          todo := todo - {k};
          assert forall c :: ParsedKey(ks - todo, c) <==> ParsedKey(done, c) || code == Some(c) by {
            forall c ensures ParsedKey(ks - todo, c) ==> ParsedKey(done, c) || code == Some(c) {
              if ParsedKey(ks - todo, c) {
                var k' :| k' in ks - todo && ParseInt64(k') == Some(c);
                if k' != k { assert k' in done; }
              }
            }
            forall c | code == Some(c) ensures ParsedKey(ks - todo, c) {
              assert k in ks - todo;
            }
            forall c | ParsedKey(done, c) ensures ParsedKey(ks - todo, c) {
              var k' :| k' in done && ParseInt64(k') == Some(c);
              assert k' in ks - todo;
            }
          }
          if code.Some? {
            merged := merged[code.value := ks[k]];
          }
        }
        assert ks - todo == ks;
        keySoundPaths := merged;
      }
    }

    method PlaySoundOnMain(path: string, event: string, loop: bool, load: Load)
      modifies this
      ensures State() == old(State()).PlaySoundOnMain(path, event, loop, load)
    {
      if isMuted { return; }
      if load == FileMissing { return; }
      if load == DecodeFailed { return; }
      var player := Player(nextId, event, path, loop);
      nextId := nextId + 1;
      if loop {
        activePlayers := activePlayers[event := player];
        sounding := sounding + {player};
      } else {
        oneShotPlayers := oneShotPlayers + [player];
      }
    }

    method Play(event: string, now: Millis, load: Load)
      modifies this
      ensures State() == old(State()).Play(event, now, load)
    {
      if event !in eventSoundPaths { return; }
      var path := eventSoundPaths[event];
      var threshold := if event == KeyDown then KeyThrottle else EventThrottle;
      if event in lastPlayed && now - lastPlayed[event] < threshold { return; }
      lastPlayed := lastPlayed[event := now];
      PlaySoundOnMain(path, event, false, load);
    }

    method PlayKey(code: int, now: Millis, load: Load)
      modifies this
      ensures State() == old(State()).PlayKey(code, now, load)
    {
      var throttleKey := "key_" + DecimalString(code);
      if throttleKey in lastPlayed && now - lastPlayed[throttleKey] < KeyThrottle { return; }
      lastPlayed := lastPlayed[throttleKey := now];
      if code in keySoundPaths {
        PlaySoundOnMain(keySoundPaths[code], throttleKey, false, load);
      } else if KeyDown in eventSoundPaths {
        PlaySoundOnMain(eventSoundPaths[KeyDown], KeyDown, false, load);
      }
    }

    method StartContinuous(event: string, load: Load)
      modifies this
      ensures State() == old(State()).StartContinuous(event, load)
    {
      if event in activePlayers && activePlayers[event] in sounding { return; }
      if event !in eventSoundPaths { return; }
      PlaySoundOnMain(eventSoundPaths[event], event, true, load);
    }

    method StopContinuous(event: string, now: Millis)
      modifies this
      ensures State() == old(State()).StopContinuous(event, now)
    {
      if event in activePlayers {
        var player := activePlayers[event];
        if player in sounding {
          fadedOut := fadedOut + {player};
          scheduled := scheduled + [ScheduledStop(event, player, now + StopDelay)];
        } else {
          activePlayers := activePlayers - {event};
        }
      }
    }

    /** The scheduled stop-and-remove block, as the source writes it. */
    method RunScheduledStop(now: Millis)
      requires scheduled != [] && scheduled[0].due <= now
      modifies this
      ensures State() == old(State()).RunScheduledStop(now)
    {
      var block := scheduled[0];
      scheduled := scheduled[1..];
      sounding := sounding - {block.player};
      if block.event in activePlayers {
        var evicted := activePlayers[block.event];
        activePlayers := activePlayers - {block.event};
        if !State().Held(evicted) {
          sounding := sounding - {evicted};
        }
      }
    }

    /** The scheduled block, corrected to remove only the player it captured. */
    method RunScheduledStopChecked(now: Millis)
      requires scheduled != [] && scheduled[0].due <= now
      modifies this
      ensures State() == old(State()).RunScheduledStopChecked(now)
    {
      var block := scheduled[0];
      scheduled := scheduled[1..];
      sounding := sounding - {block.player};
      if block.event in activePlayers && activePlayers[block.event] == block.player {
        activePlayers := activePlayers - {block.event};
      }
    }

    method CleanupOneShot(player: Player)
      modifies this
      ensures State() == old(State()).CleanupOneShot(player)
    {
      oneShotPlayers := Without(oneShotPlayers, player);
    }
  }
}
