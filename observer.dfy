/**
 * AppObserver.swift: the role filter that decides which accessibility
 * elements may produce a "content changed" cue, and the per-notification
 * decisions of `handleNotification`.
 *
 * The environment variables MW_ENABLE_GROUP, MW_DISABLE_GROUP,
 * MW_IGNORE_ROLES and MW_INCLUDE_ROLES are given as the pieces
 * `split(separator: ",")` makes of them (an absent variable gives no
 * pieces). The accessibility attributes a notification carries (the title,
 * the role) are parameters; AXObserver registration is not modelled.
 */
module Observer {
  import opened Common
  import opened Text

  // ------------------------------------------------------------------ role groups

  const RolesStructural: set<string> := {
    "AXSplitGroup", "AXSplitter", "AXGroup", "AXBox", "AXDrawer",
    "AXGrowArea", "AXMatte", "AXRuler", "AXRulerMarker", "AXGrid", "AXColumn", "AXRow"
  }
  const RolesWeb: set<string> := {"AXWebArea", "AXLink", "AXList"}
  const RolesInput: set<string> := {"AXTextField", "AXTextArea"}
  const RolesMenus: set<string> := {
    "AXToolbar", "AXMenu", "AXMenuItem", "AXMenuBar", "AXMenuBarItem",
    "AXPopover", "AXHelpTag", "AXSystemWide"
  }
  const RolesControls: set<string> := {
    "AXCheckBox", "AXRadioButton", "AXRadioGroup", "AXDisclosureTriangle",
    "AXSlider", "AXValueIndicator", "AXRelevanceIndicator", "AXBusyIndicator", "AXButton"
  }
  const RolesUnknown: set<string> := {"AXUnknown", "Unknown"}

  /** The six groups of `roleGroups`. */
  datatype Group = Structural | Web | Input | Menus | Controls | UnknownRoles

  /** The roles each group holds. */
  function GroupRoles(g: Group): set<string> {
    match g
    case Structural => RolesStructural
    case Web => RolesWeb
    case Input => RolesInput
    case Menus => RolesMenus
    case Controls => RolesControls
    case UnknownRoles => RolesUnknown
  }

  /** The key of each group in `roleGroups`. */
  function GroupName(g: Group): string {
    match g
    case Structural => "structural"
    case Web => "web"
    case Input => "input"
    case Menus => "menus"
    case Controls => "controls"
    case UnknownRoles => "unknown"
  }

  /** `roleGroups[key]`: the group a key names, if any. */
  function ParseGroup(key: string): (g: Option<Group>)
    ensures g.Some? ==> GroupName(g.value) == key
  {
    if key == "structural" then Some(Structural)
    else if key == "web" then Some(Web)
    else if key == "input" then Some(Input)
    else if key == "menus" then Some(Menus)
    else if key == "controls" then Some(Controls)
    else if key == "unknown" then Some(UnknownRoles)
    else None
  }

  /** Every group is found by its own name, and only names of groups are found. */
  lemma ParseGroupIffName(key: string)
    ensures ParseGroup(key).Some? <==> exists g :: GroupName(g) == key
    ensures forall g :: ParseGroup(GroupName(g)) == Some(g)
  {
  }

  /** `defaultIgnoredRoles`: the union `init` builds with six `formUnion` calls. */
  const DefaultIgnoredRoles: set<string> :=
    RolesStructural + RolesWeb + RolesInput + RolesMenus + RolesControls + RolesUnknown

  /** A union over the six groups, for any assignment of members to groups. */
  lemma SixGroupUnion<T>(f: Group -> set<T>, x: T)
    ensures x in f(Structural) + f(Web) + f(Input) + f(Menus) + f(Controls) + f(UnknownRoles)
            <==> exists g :: x in f(g)
  {
    if exists g :: x in f(g) {
      var g :| x in f(g);
      match g
      case Structural =>
      case Web =>
      case Input =>
      case Menus =>
      case Controls =>
      case UnknownRoles =>
    }
  }

  /** The defaults are exactly the roles of the six groups. */
  lemma DefaultsAreTheGroups()
    ensures forall r :: r in DefaultIgnoredRoles <==> exists g :: r in GroupRoles(g)
  {
    assert DefaultIgnoredRoles == GroupRoles(Structural) + GroupRoles(Web) + GroupRoles(Input)
                                  + GroupRoles(Menus) + GroupRoles(Controls) + GroupRoles(UnknownRoles);
    forall r ensures r in DefaultIgnoredRoles <==> exists g :: r in GroupRoles(g) {
      SixGroupUnion(GroupRoles, r);
    }
  }

  // ------------------------------------------------------------------ the effective ignore set

  /** The four environment inputs, each as its comma-separated pieces. */
  datatype RoleEnv = RoleEnv(
    enableGroups: seq<string>,    // MW_ENABLE_GROUP
    disableGroups: seq<string>,   // MW_DISABLE_GROUP
    ignoreRoles: seq<string>,     // MW_IGNORE_ROLES
    includeRoles: seq<string>)    // MW_INCLUDE_ROLES

  /** A group name as `init` looks it up: trimmed and lower-cased. */
  function GroupKey(piece: string): string {
    Lower(Trim(piece))
  }

  /** The `map` that turns MW_ENABLE_GROUP / MW_DISABLE_GROUP pieces into keys. */
  function GroupKeys(pieces: seq<string>): (keys: seq<string>)
    ensures |keys| == |pieces|
    ensures forall i :: 0 <= i < |pieces| ==> keys[i] == GroupKey(pieces[i])
    ensures forall i, j :: 0 <= i < |keys| && 0 <= j < |keys[i]| ==> !IsUpper(keys[i][j])
  {
    seq(|pieces|, i requires 0 <= i < |pieces| => GroupKey(pieces[i]))
  }

  /** The roles of the group a key names; nothing when it names none. */
  function KeyRoles(key: string): set<string> {
    match ParseGroup(key)
    case Some(g) => GroupRoles(g)
    case None => {}
  }

  /** The roles of every known group among `keys`; unknown keys add nothing. */
  function NamedGroupRoles(keys: seq<string>): set<string>
  {
    if keys == [] then {}
    else NamedGroupRoles(keys[..|keys| - 1]) + KeyRoles(keys[|keys| - 1])
  }

  /** Role names as `init` uses them: trimmed, case kept. */
  function TrimmedRoles(pieces: seq<string>): set<string> {
    set p | p in pieces :: Trim(p)
  }

  /**
   * The ignore set as set algebra, in the order `init` applies the inputs:
   * defaults, minus enabled groups, plus disabled groups, plus ignored roles,
   * minus included roles.
   */
  function EffectiveIgnoredRoles(env: RoleEnv): set<string> {
    (DefaultIgnoredRoles - NamedGroupRoles(GroupKeys(env.enableGroups))
      + NamedGroupRoles(GroupKeys(env.disableGroups))
      + TrimmedRoles(env.ignoreRoles)) - TrimmedRoles(env.includeRoles)
  }

  /** The loop of `init` over MW_ENABLE_GROUP: each known group's roles are subtracted. */
  method SubtractGroups(start: set<string>, keys: seq<string>) returns (roles: set<string>)
    ensures roles == start - NamedGroupRoles(keys)
  {
    roles := start;
    var i := 0;
    while i < |keys|
      invariant 0 <= i <= |keys|
      invariant roles == start - NamedGroupRoles(keys[..i])
    {
      assert keys[..i + 1][..i] == keys[..i];
      var named := ParseGroup(keys[i]);
      if named.Some? {
        roles := roles - GroupRoles(named.value);
      }
      i := i + 1;
    }
    assert keys[..i] == keys;
  }

  /** The loop of `init` over MW_DISABLE_GROUP: each known group's roles are added. */
  method AddGroups(start: set<string>, keys: seq<string>) returns (roles: set<string>)
    ensures roles == start + NamedGroupRoles(keys)
  {
    roles := start;
    var i := 0;
    while i < |keys|
      invariant 0 <= i <= |keys|
      invariant roles == start + NamedGroupRoles(keys[..i])
    {
      assert keys[..i + 1][..i] == keys[..i];
      var named := ParseGroup(keys[i]);
      if named.Some? {
        roles := roles + GroupRoles(named.value);
      }
      i := i + 1;
    }
    assert keys[..i] == keys;
  }

  /**
   * `init`: start from the defaults, subtract each enabled group, add each
   * disabled group, add the ignored roles, subtract the included roles.
   */
  method BuildIgnoredRoles(env: RoleEnv) returns (roles: set<string>)
    ensures roles == EffectiveIgnoredRoles(env)
  {
    roles := SubtractGroups(DefaultIgnoredRoles, GroupKeys(env.enableGroups));
    roles := AddGroups(roles, GroupKeys(env.disableGroups));
    roles := roles + (set p | p in env.ignoreRoles :: Trim(p));
    roles := roles - (set p | p in env.includeRoles :: Trim(p));
  }

  /** A role named in MW_INCLUDE_ROLES is never ignored, whatever else is set. */
  lemma IncludedRolesNeverIgnored(env: RoleEnv, piece: string)
    requires piece in env.includeRoles
    ensures Trim(piece) !in EffectiveIgnoredRoles(env)
  {
  }

  /** A role belongs to the groups named by `keys` exactly when some key names a group holding it. */
  lemma {:induction false} NamedGroupRolesMembers(keys: seq<string>, r: string)
    ensures r in NamedGroupRoles(keys) <==> exists i :: 0 <= i < |keys| && r in KeyRoles(keys[i])
    decreases |keys|
  {
    if keys != [] {
      var init := keys[..|keys| - 1];
      NamedGroupRolesMembers(init, r);
      if r in NamedGroupRoles(init) {
        var i :| 0 <= i < |init| && r in KeyRoles(init[i]);
        assert keys[i] == init[i];
      }
      if exists i :: 0 <= i < |keys| && r in KeyRoles(keys[i]) {
        var i :| 0 <= i < |keys| && r in KeyRoles(keys[i]);
        if i < |init| {
          assert init[i] == keys[i];
        }
      }
    }
  }

  /**
   * Disabling wins over enabling: the roles of a group named in
   * MW_DISABLE_GROUP are ignored even when MW_ENABLE_GROUP names it too,
   * unless MW_INCLUDE_ROLES names them.
   */
  lemma DisableWinsOverEnable(env: RoleEnv, i: nat, r: string)
    requires i < |env.disableGroups| && r in KeyRoles(GroupKey(env.disableGroups[i]))
    requires r !in TrimmedRoles(env.includeRoles)
    ensures r in EffectiveIgnoredRoles(env)
  {
    var keys := GroupKeys(env.disableGroups);
    assert keys[i] == GroupKey(env.disableGroups[i]);
    NamedGroupRolesMembers(keys, r);
  }

  /**
   * A default role stops being ignored exactly when an enabled group holds
   * it, no disabled group holds it and it is not re-ignored by name, or when
   * it is included by name.
   */
  lemma DefaultRoleIgnoredUnless(env: RoleEnv, r: string)
    requires r in DefaultIgnoredRoles
    ensures r !in EffectiveIgnoredRoles(env) <==>
              (r in NamedGroupRoles(GroupKeys(env.enableGroups))
               && r !in NamedGroupRoles(GroupKeys(env.disableGroups))
               && r !in TrimmedRoles(env.ignoreRoles))
              || r in TrimmedRoles(env.includeRoles)
  {
  }

  /** Keys that name no group change nothing. */
  lemma {:induction false} UnknownGroupNamesSkipped(keys: seq<string>, unknown: string)
    requires ParseGroup(unknown).None?
    ensures NamedGroupRoles(keys + [unknown]) == NamedGroupRoles(keys)
  {
    assert (keys + [unknown])[..|keys|] == keys;
  }

  /** An environment of one enabled group name, one ignored role and one included role, as set algebra. */
  lemma SinglePieceEnv(name: string, ignored: string, included: string)
    ensures EffectiveIgnoredRoles(RoleEnv([name], [], [ignored], [included]))
            == (DefaultIgnoredRoles - KeyRoles(GroupKey(name)) + {Trim(ignored)}) - {Trim(included)}
  {
    assert GroupKeys([name]) == [GroupKey(name)];
    assert GroupKeys([]) == [];
    assert [GroupKey(name)][..0] == [];
    assert TrimmedRoles([ignored]) == {Trim(ignored)};
    assert TrimmedRoles([included]) == {Trim(included)};
  }

  /** " Menus " trims to "Menus", which lower-cases to "menus". */
  lemma PaddedMenusKey()
    ensures GroupKey(" Menus ") == "menus"
  {
    assert Trim(" Menus ") == "Menus" by {
      assert TrimStart(" Menus ") == TrimStart("Menus ");
      assert TrimEnd("Menus ") == TrimEnd("Menus");
    }
    LowerNoUpper("menus");
    assert Lower("Menus") == "menus" by {
      assert Lower("Menus")[0] == LowerChar('M');
    }
  }

  /** Group names are matched after trimming and lower-casing. */
  lemma GroupNamesNormalised()
    ensures NamedGroupRoles(GroupKeys([" Menus "])) == RolesMenus
  {
    PaddedMenusKey();
    assert GroupKeys([" Menus "]) == ["menus"];
    assert ["menus"][..0] == [];
  }

  /** Role names keep their case: including "axbutton" does not un-ignore "AXButton". */
  lemma RoleNamesCaseSensitive()
    ensures "AXButton" in EffectiveIgnoredRoles(RoleEnv([], [], [], ["axbutton"]))
  {
    TrimUnpadded("axbutton");
    assert TrimmedRoles(["axbutton"]) == {"axbutton"};
    assert "AXButton" in RolesControls;
  }

  /** The role names of the menus example, as `init` reads them. */
  lemma MenusExamplePieces()
    ensures GroupKey("menus") == "menus" && KeyRoles("menus") == RolesMenus
    ensures Trim("AXCustomRole") == "AXCustomRole" && Trim("AXMenu") == "AXMenu"
  {
    TrimUnpadded("menus");
    LowerNoUpper("menus");
    TrimUnpadded("AXCustomRole");
    TrimUnpadded("AXMenu");
  }

  /** "AXCustomRole" is no menu role; "AXButton" is a control and no menu role. */
  lemma MenusExampleRoles()
    ensures "AXCustomRole" !in RolesMenus
    ensures "AXButton" in DefaultIgnoredRoles && "AXButton" !in RolesMenus
  {
    assert "AXButton" in RolesControls;
  }

  /**
   * With MW_ENABLE_GROUP=menus, MW_IGNORE_ROLES=AXCustomRole and
   * MW_INCLUDE_ROLES=AXMenu: enabling "menus", ignoring
   * "AXCustomRole" and including "AXMenu" leaves no menu role ignored, adds
   * "AXCustomRole" and keeps the other defaults.
   */
  lemma MenusExample()
    ensures var ignored := EffectiveIgnoredRoles(RoleEnv(["menus"], [], ["AXCustomRole"], ["AXMenu"]));
      && (forall r :: r in RolesMenus ==> r !in ignored)
      && "AXCustomRole" in ignored
      && "AXButton" in ignored
  {
    SinglePieceEnv("menus", "AXCustomRole", "AXMenu");
    MenusExamplePieces();
    MenusExampleRoles();
  }

  // ------------------------------------------------------------------ notifications

  const TitleInterval: Millis := 100
  const ContentInterval: Millis := 250

  /** The notifications `watchApp` registers, with the attribute each one reads. */
  datatype Notification =
    | TitleChanged(title: Option<string>)   // kAXTitleAttribute, when it reads as a string
    | ValueChanged(role: Option<string>)    // kAXRoleAttribute, when it reads as a string
    | WindowCreated
    | ElementDestroyed

  /** `lastKnownTitle` and `lastTitleChangeTime`. */
  datatype TitleState = TitleState(lastKnownTitle: string, lastTitleChangeTime: Option<Millis>)

  datatype Reaction = Reaction(next: TitleState, request: Option<SoundRequest>)

  /**
   * `handleNotification` at time `now`, with the effective ignore set
   * `ignored`. A title or content cue never sounds within 100 ms of the last
   * recorded change and always records `now`; only a title notification
   * changes the known title; a content cue needs a role that is not ignored
   * and does not contain "Unknown"; a destroyed element does nothing.
   */
  function React(st: TitleState, ignored: set<string>, n: Notification, now: Millis): (r: Reaction)
    ensures r.request.Some? ==> r.request.value == Play(if n.WindowCreated? then "window_open" else "app_activity")
    ensures r.request.Some? && !n.WindowCreated? ==>
              !Recent(st.lastTitleChangeTime, now, TitleInterval) && r.next.lastTitleChangeTime == Some(now)
    ensures r.next != st ==> r.next.lastTitleChangeTime == Some(now) && (n.TitleChanged? || n.ValueChanged?)
    ensures r.next.lastKnownTitle != st.lastKnownTitle ==> n.TitleChanged?
    ensures n.ValueChanged? && r.request.Some? ==>
              n.role.GetOr("Unknown") !in ignored && !Contains(n.role.GetOr("Unknown"), "Unknown")
    ensures n.ElementDestroyed? ==> r == Reaction(st, None)
  {
    match n
    case TitleChanged(title) =>
      if title.None? || title.value == st.lastKnownTitle then Reaction(st, None)
      else if Recent(st.lastTitleChangeTime, now, TitleInterval) then Reaction(st, None)
      else Reaction(TitleState(title.value, Some(now)), Some(Play("app_activity")))
    case ValueChanged(r) =>
      var role := r.GetOr("Unknown");
      if role in ignored then Reaction(st, None)
      else if Recent(st.lastTitleChangeTime, now, ContentInterval) then Reaction(st, None)
      else
        var st' := st.(lastTitleChangeTime := Some(now));
        if Contains(role, "Unknown") then Reaction(st', None) else Reaction(st', Some(Play("app_activity")))
    case WindowCreated => Reaction(st, Some(Play("window_open")))
    case ElementDestroyed => Reaction(st, None)
  }

  /**
   * A new title equal to the last known one has no effect; a different one
   * within 100 ms of the last change has no effect and is not recorded;
   * otherwise both fields are updated and `app_activity` is played.
   */
  lemma TitleChangeCases(st: TitleState, ignored: set<string>, title: string, now: Millis)
    ensures title == st.lastKnownTitle ==>
              React(st, ignored, TitleChanged(Some(title)), now) == Reaction(st, None)
    ensures title != st.lastKnownTitle && st.lastTitleChangeTime.Some? && now - st.lastTitleChangeTime.value < 100 ==>
              React(st, ignored, TitleChanged(Some(title)), now) == Reaction(st, None)
    ensures title != st.lastKnownTitle && (st.lastTitleChangeTime.None? || now - st.lastTitleChangeTime.value >= 100) ==>
              React(st, ignored, TitleChanged(Some(title)), now)
                == Reaction(TitleState(title, Some(now)), Some(Play("app_activity")))
  {
  }

  /**
   * A value change with an ignored role, or within 250 ms of the last change,
   * has no effect. Otherwise the timestamp moves before the "Unknown" check,
   * so such a role uses up the interval without a sound.
   */
  lemma ValueChangeCases(st: TitleState, ignored: set<string>, r: Option<string>, now: Millis)
    ensures var role := r.GetOr("Unknown");
      && (role in ignored || Recent(st.lastTitleChangeTime, now, 250) ==>
            React(st, ignored, ValueChanged(r), now) == Reaction(st, None))
      && (role !in ignored && !Recent(st.lastTitleChangeTime, now, 250) ==>
            React(st, ignored, ValueChanged(r), now).next == TitleState(st.lastKnownTitle, Some(now))
            && (React(st, ignored, ValueChanged(r), now).request.Some? <==> !Contains(role, "Unknown")))
  {
  }

  /**
   * Title changes and content changes share one timestamp: after a cue of
   * either kind at `t`, a title change is held off until `t + 100` and a
   * content change until `t + 250`.
   */
  lemma SharedTimestamp(st: TitleState, ignored: set<string>, n: Notification, t: Millis, m: Notification, later: Millis)
    requires n.TitleChanged? || n.ValueChanged?
    requires React(st, ignored, n, t).next != st
    requires (m.TitleChanged? && later < t + 100) || (m.ValueChanged? && later < t + 250)
    ensures React(React(st, ignored, n, t).next, ignored, m, later).request == None
  {
  }

  /** A new window always asks for `window_open`; there is no local throttle. */
  lemma WindowCreatedAlwaysPlays(st: TitleState, ignored: set<string>, now: Millis)
    ensures React(st, ignored, WindowCreated, now) == Reaction(st, Some(Play("window_open")))
  {
  }

  /**
   * A run of title changes: titles "A", "A", "B" at 0, 50 and
   * 60 ms play once (at 0); "B" sent again at 100 plays.
   */
  lemma TitleExample(ignored: set<string>)
    ensures var s0 := TitleState("", None);
      var r1 := React(s0, ignored, TitleChanged(Some("A")), 0);
      var r2 := React(r1.next, ignored, TitleChanged(Some("A")), 50);
      var r3 := React(r2.next, ignored, TitleChanged(Some("B")), 60);
      var r4 := React(r3.next, ignored, TitleChanged(Some("B")), 100);
      && r1.request.Some? && r2.request.None? && r3.request.None? && r4.request.Some?
      && r4.next == TitleState("B", Some(100))
  {
  }

  // ------------------------------------------------------------------ the object

  class AppObserver {
    /** The environment the object was built from. */
    ghost const env: RoleEnv
    const effectiveIgnoredRoles: set<string>
    var currentPid: Option<int>
    var lastKnownTitle: string
    var lastTitleChangeTime: Option<Millis>

    constructor (env: RoleEnv)
      ensures this.env == env && effectiveIgnoredRoles == EffectiveIgnoredRoles(env)
      ensures currentPid == None && lastKnownTitle == "" && lastTitleChangeTime == None
    {
      this.env := env;
      var roles := BuildIgnoredRoles(env);
      effectiveIgnoredRoles := roles;
      currentPid := None;
      lastKnownTitle := "";
      lastTitleChangeTime := None;
    }

    /**
     * `shouldIgnore(role:)`: for the set built from `env`, a role included by
     * name is never ignored, and one ignored by name and not included is.
     */
    predicate ShouldIgnore(role: string)
      ensures effectiveIgnoredRoles == EffectiveIgnoredRoles(env) ==>
                (ShouldIgnore(role) ==> role !in TrimmedRoles(env.includeRoles))
                && (role in TrimmedRoles(env.ignoreRoles) && role !in TrimmedRoles(env.includeRoles) ==> ShouldIgnore(role))
    {
      role in effectiveIgnoredRoles
    }

    /**
     * `watchApp(app:)`: the current pid is a no-op; another pid becomes the
     * current one and is forwarded to `NetworkMonitor.updateTarget`.
     */
    method WatchApp(pid: int) returns (retarget: Option<int>)
      modifies this
      ensures old(currentPid) == Some(pid) ==> retarget == None && currentPid == old(currentPid)
      ensures old(currentPid) != Some(pid) ==> retarget == Some(pid) && currentPid == Some(pid)
      ensures lastKnownTitle == old(lastKnownTitle) && lastTitleChangeTime == old(lastTitleChangeTime)
    {
      if currentPid == Some(pid) {
        return None;
      }
      currentPid := Some(pid);
      retarget := Some(pid);
    }

    method HandleNotification(n: Notification, now: Millis) returns (request: Option<SoundRequest>)
      modifies this
      ensures var r := React(TitleState(old(lastKnownTitle), old(lastTitleChangeTime)), effectiveIgnoredRoles, n, now);
        && TitleState(lastKnownTitle, lastTitleChangeTime) == r.next && request == r.request
      ensures currentPid == old(currentPid)
    {
      request := None;
      match n {
        case TitleChanged(title) =>
          if title.Some? {
            var newTitle := title.value;
            if newTitle == lastKnownTitle { return; }
            if lastTitleChangeTime.Some? && now - lastTitleChangeTime.value < TitleInterval { return; }
            lastKnownTitle := newTitle;
            lastTitleChangeTime := Some(now);
            request := Some(Play("app_activity"));
          }
        case ValueChanged(r) =>
          var role := if r.Some? then r.value else "Unknown";
          if ShouldIgnore(role) { return; }
          if lastTitleChangeTime.Some? && now - lastTitleChangeTime.value < ContentInterval { return; }
          lastTitleChangeTime := Some(now);
          if Contains(role, "Unknown") { return; }
          request := Some(Play("app_activity"));
        case WindowCreated =>
          request := Some(Play("window_open"));
        case ElementDestroyed =>
      }
    }
  }
}
