/**
 * Config.swift: where the sound configuration comes from and how the
 * relative sound paths in it are rewritten.
 *
 * A path is handled as the list of its `/`-separated components (empty
 * components dropped), so `/a/b/config.json` is `["a", "b", "config.json"]`.
 * The file system is an input: `files` maps each existing path to the
 * configuration decoded from it, or to `None` when reading or decoding fails.
 */
module Config {
  import opened Common

  /** `SoundConfig`: sound paths by event name, and optionally by key code. */
  datatype SoundConfig = SoundConfig(events: map<string, string>, keys: Option<map<string, string>>)

  // ------------------------------------------------------------------ paths

  predicate HasPrefix(s: string, prefix: string) {
    |prefix| <= |s| && s[..|prefix|] == prefix
  }

  predicate NoSlash(s: string) {
    forall i :: 0 <= i < |s| ==> s[i] != '/'
  }

  /** The components of `s`, read after the partial component `acc`. */
  function Pieces(s: string, acc: string): seq<string>
    decreases |s|
  {
    if s == [] then (if acc == [] then [] else [acc])
    else if s[0] == '/' then (if acc == [] then [] else [acc]) + Pieces(s[1..], [])
    else Pieces(s[1..], acc + [s[0]])
  }

  /** The components of a path. */
  function Components(s: string): seq<string> {
    Pieces(s, [])
  }

  /** A stretch without a slash extends the partial component. */
  lemma {:induction false} PiecesNoSlash(s: string, acc: string)
    requires NoSlash(s)
    ensures Pieces(s, acc) == if acc + s == [] then [] else [acc + s]
    decreases |s|
  {
    if s == [] {
      assert acc + s == acc;
    } else {
      PiecesNoSlash(s[1..], acc + [s[0]]);
      assert s == [s[0]] + s[1..];
      assert acc + [s[0]] + s[1..] == acc + s;
    }
  }

  /** A slash after a stretch without one closes the component. */
  lemma {:induction false} PiecesSlash(a: string, b: string, acc: string)
    requires NoSlash(a)
    ensures Pieces(a + "/" + b, acc) == (if acc + a == [] then [] else [acc + a]) + Pieces(b, [])
    decreases |a|
  {
    if a == [] {
      assert a + "/" + b == ['/'] + b;
      assert (a + "/" + b)[1..] == b;
      assert acc + a == acc;
    } else {
      assert (a + "/" + b)[0] == a[0];
      assert (a + "/" + b)[1..] == a[1..] + "/" + b;
      assert a == [a[0]] + a[1..];
      PiecesSlash(a[1..], b, acc + [a[0]]);
      assert acc + [a[0]] + a[1..] == acc + a;
    }
  }

  /** `"/"` followed by the components joined with `/`: the `path` of a file URL. */
  function Render(cs: seq<string>): (p: string)
    ensures |p| > 0 && p[0] == '/'
  {
    if cs == [] then "/" else "/" + Join(cs)
  }

  function Join(cs: seq<string>): string
    decreases |cs|
  {
    if cs == [] then "" else if |cs| == 1 then cs[0] else cs[0] + "/" + Join(cs[1..])
  }

  /** The components `standardizedFileURL` leaves: no empty, `.` or `..` component. */
  predicate Clean(cs: seq<string>) {
    forall i :: 0 <= i < |cs| ==> cs[i] != "" && cs[i] != "." && cs[i] != ".."
  }

  /**
   * `standardizedFileURL` applied to `stack` with `rel` appended: `.` is
   * dropped and `..` removes the previous component (at the root it stays at
   * the root).
   */
  function Normalize(stack: seq<string>, rel: seq<string>): seq<string>
    decreases |rel|
  {
    if rel == [] then stack
    else if rel[0] == "" || rel[0] == "." then Normalize(stack, rel[1..])
    else if rel[0] == ".." then Normalize(if stack == [] then [] else stack[..|stack| - 1], rel[1..])
    else Normalize(stack + [rel[0]], rel[1..])
  }

  /** Normalising onto a clean stack gives a clean path. */
  lemma {:induction false} NormalizeClean(stack: seq<string>, rel: seq<string>)
    requires Clean(stack)
    ensures Clean(Normalize(stack, rel))
    decreases |rel|
  {
    if rel != [] {
      if rel[0] == "" || rel[0] == "." {
        NormalizeClean(stack, rel[1..]);
      } else if rel[0] == ".." {
        NormalizeClean(if stack == [] then [] else stack[..|stack| - 1], rel[1..]);
      } else {
        NormalizeClean(stack + [rel[0]], rel[1..]);
      }
    }
  }

  /** Normalising a joined list is normalising its first part, then the rest onto the result. */
  lemma {:induction false} NormalizeConcat(stack: seq<string>, a: seq<string>, b: seq<string>)
    ensures Normalize(stack, a + b) == Normalize(Normalize(stack, a), b)
    decreases |a|
  {
    if a == [] {
      assert a + b == b;
    } else {
      assert (a + b)[0] == a[0] && (a + b)[1..] == a[1..] + b;
      var next := if a[0] == "" || a[0] == "." then stack
                  else if a[0] == ".." then (if stack == [] then [] else stack[..|stack| - 1])
                  else stack + [a[0]];
      NormalizeConcat(next, a[1..], b);
    }
  }

  /** Clean components are pushed as they are. */
  lemma {:induction false} NormalizeCleanPushes(stack: seq<string>, cs: seq<string>)
    requires Clean(cs)
    ensures Normalize(stack, cs) == stack + cs
    decreases |cs|
  {
    if cs == [] {
      assert stack + cs == stack;
    } else {
      NormalizeCleanPushes(stack + [cs[0]], cs[1..]);
      assert stack + [cs[0]] + cs[1..] == stack + cs;
    }
  }

  /** A plain name after the directory is appended; `..` climbs one level. */
  lemma NormalizeSteps(stack: seq<string>, name: string, rest: seq<string>)
    ensures name != "" && name != "." && name != ".." ==>
              Normalize(stack, [name] + rest) == Normalize(stack + [name], rest)
    ensures stack != [] ==> Normalize(stack, [".."] + rest) == Normalize(stack[..|stack| - 1], rest)
    ensures Normalize(stack, ["."] + rest) == Normalize(stack, rest)
  {
    assert ([name] + rest)[1..] == rest;
    assert ([".."] + rest)[1..] == rest;
    assert (["."] + rest)[1..] == rest;
  }

  /** `URL(fileURLWithPath:).deletingLastPathComponent()`: the directory holding a file. */
  function Parent(path: string): seq<string> {
    var cs := Components(path);
    if cs == [] then [] else cs[..|cs| - 1]
  }

  /**
   * `resolve` inside `resolveRelativePaths`: a value starting with `./` or
   * `../` is appended to the directory and the whole path is standardised;
   * any other value is kept as it is.
   */
  function Resolve(dir: seq<string>, value: string): (r: string)
    ensures !HasPrefix(value, "./") && !HasPrefix(value, "../") ==> r == value
  {
    if HasPrefix(value, "./") || HasPrefix(value, "../") then Render(Normalize([], dir + Components(value)))
    else value
  }

  /** A resolved relative value is an absolute, standardised path, whatever the directory. */
  lemma ResolvedIsAbsolute(dir: seq<string>, value: string)
    requires HasPrefix(value, "./") || HasPrefix(value, "../")
    ensures Resolve(dir, value) == Render(Normalize([], dir + Components(value)))
    ensures Resolve(dir, value)[0] == '/' && Clean(Normalize([], dir + Components(value)))
  {
    NormalizeClean([], dir + Components(value));
  }

  /**
   * Only the standardised directory matters: `.` and `..` in the directory
   * are resolved as well as those in the value.
   */
  lemma ResolveStandardisesDir(dir: seq<string>, value: string)
    ensures Resolve(dir, value) == Resolve(Normalize([], dir), value)
  {
    var cs := Components(value);
    NormalizeConcat([], dir, cs);
    NormalizeClean([], dir);
    NormalizeCleanPushes([], Normalize([], dir));
    assert [] + Normalize([], dir) == Normalize([], dir);
    NormalizeConcat([], Normalize([], dir), cs);
  }

  /** On a directory that is already standard, the value is standardised onto it. */
  lemma ResolveCanonicalDir(dir: seq<string>, value: string)
    requires Clean(dir)
    requires HasPrefix(value, "./") || HasPrefix(value, "../")
    ensures Resolve(dir, value) == Render(Normalize(dir, Components(value)))
  {
    NormalizeConcat([], dir, Components(value));
    NormalizeCleanPushes([], dir);
    assert [] + dir == dir;
  }

  /** Resolving an already resolved value changes nothing, since the result is absolute. */
  lemma ResolveIdempotent(dir: seq<string>, value: string)
    ensures Resolve(dir, Resolve(dir, value)) == Resolve(dir, value)
  {
    var r := Resolve(dir, value);
    if HasPrefix(value, "./") || HasPrefix(value, "../") {
      assert r[0] == '/';
      assert !HasPrefix(r, "./") by { assert "./"[0] == '.'; }
      assert !HasPrefix(r, "../") by { assert "../"[0] == '.'; }
    }
  }

  /** Components a path can be written with: non-empty and without a slash. */
  predicate Writable(cs: seq<string>) {
    forall i :: 0 <= i < |cs| ==> cs[i] != "" && NoSlash(cs[i])
  }

  /** Reading back the components of a joined path gives the components. */
  lemma {:induction false} JoinRoundTrip(cs: seq<string>)
    requires Writable(cs)
    ensures Components(Join(cs)) == cs
    decreases |cs|
  {
    if |cs| == 1 {
      PiecesNoSlash(cs[0], []);
      assert [] + cs[0] == cs[0];
    } else if |cs| > 1 {
      JoinRoundTrip(cs[1..]);
      PiecesSlash(cs[0], Join(cs[1..]), []);
      assert [] + cs[0] == cs[0];
    }
  }

  /** `Components` inverts `Render` on writable components. */
  lemma RenderRoundTrip(cs: seq<string>)
    requires Writable(cs)
    ensures Components(Render(cs)) == cs
  {
    if cs != [] {
      JoinRoundTrip(cs);
      PiecesSlash("", Join(cs), []);
      assert "" + "/" + Join(cs) == Render(cs);
      assert Pieces(Render(cs), []) == [] + Pieces(Join(cs), []);
      assert [] + cs == cs;
    } else {
      assert "/"[1..] == "";
      assert Pieces("/", []) == [] + Pieces("", []);
    }
  }

  /** The directory of a rendered path is its components without the last one. */
  lemma ParentOfRender(cs: seq<string>)
    requires Writable(cs) && cs != []
    ensures Parent(Render(cs)) == cs[..|cs| - 1]
  {
    RenderRoundTrip(cs);
  }

  lemma ConfigPathRendered()
    ensures Render(["a", "b", "config.json"]) == "/a/b/config.json"
  {
    var cs := ["a", "b", "config.json"];
    assert cs[1..] == ["b", "config.json"] && cs[1..][1..] == ["config.json"];
  }

  lemma ConfigPathComponents()
    ensures Parent("/a/b/config.json") == ["a", "b"]
  {
    var cs := ["a", "b", "config.json"];
    assert Writable(cs) by {
      assert NoSlash("a") && NoSlash("b") && NoSlash("config.json");
    }
    ConfigPathRendered();
    ParentOfRender(cs);
  }

  lemma SoundPathJoined()
    ensures Join([".", "sounds", "x.wav"]) == "./sounds/x.wav"
  {
    var cs := [".", "sounds", "x.wav"];
    assert cs[1..] == ["sounds", "x.wav"] && cs[1..][1..] == ["x.wav"];
  }

  lemma SoundPathComponents()
    ensures Components("./sounds/x.wav") == [".", "sounds", "x.wav"]
  {
    var cs := [".", "sounds", "x.wav"];
    assert Writable(cs) by {
      assert NoSlash(".") && NoSlash("sounds") && NoSlash("x.wav");
    }
    SoundPathJoined();
    JoinRoundTrip(cs);
  }

  lemma ExampleRender()
    ensures Render(["a", "b", "sounds", "x.wav"]) == "/a/b/sounds/x.wav"
  {
    assert ["a", "b", "sounds", "x.wav"][1..] == ["b", "sounds", "x.wav"];
    assert ["b", "sounds", "x.wav"][1..] == ["sounds", "x.wav"];
    assert ["sounds", "x.wav"][1..] == ["x.wav"];
  }

  lemma ExampleNormalize()
    ensures Normalize(["a", "b"], [".", "sounds", "x.wav"]) == ["a", "b", "sounds", "x.wav"]
  {
    NormalizeSteps(["a", "b"], ".", ["sounds", "x.wav"]);
    NormalizeSteps(["a", "b"], "sounds", ["x.wav"]);
    NormalizeSteps(["a", "b", "sounds"], "x.wav", []);
  }

  /** `./sounds/x.wav` in a configuration at `/a/b/config.json` resolves to `/a/b/sounds/x.wav`. */
  lemma ResolveExample()
    ensures Resolve(Parent("/a/b/config.json"), "./sounds/x.wav") == "/a/b/sounds/x.wav"
  {
    ConfigPathComponents();
    ExampleOnDir();
  }

  lemma ExampleOnDir()
    ensures Resolve(["a", "b"], "./sounds/x.wav") == "/a/b/sounds/x.wav"
  {
    SoundPathComponents();
    ExampleNormalize();
    ExampleRender();
    assert HasPrefix("./sounds/x.wav", "./");
    assert Clean(["a", "b"]);
    ResolveInSteps(["a", "b"], "./sounds/x.wav", [".", "sounds", "x.wav"], ["a", "b", "sounds", "x.wav"]);
  }

  /** Resolution of a relative value onto a standard directory, from its components and their standard form. */
  lemma ResolveInSteps(dir: seq<string>, value: string, cs: seq<string>, standard: seq<string>)
    requires Clean(dir) && HasPrefix(value, "./")
    requires Components(value) == cs && Normalize(dir, cs) == standard
    ensures Resolve(dir, value) == Render(standard)
  {
    ResolveCanonicalDir(dir, value);
  }

  // ------------------------------------------------------------------ resolveRelativePaths

  /**
   * Every value of a dictionary resolved, the keys kept: a value that does not
   * start with `./` or `../` is left as it is, and a relative one becomes the
   * absolute path: the directory joined with it, the whole path standardised.
   */
  function ResolveAll(dir: seq<string>, m: map<string, string>): (r: map<string, string>)
    ensures r.Keys == m.Keys
    ensures forall k :: k in m ==> r[k] == Resolve(dir, m[k])
    ensures forall k :: k in m && !HasPrefix(m[k], "./") && !HasPrefix(m[k], "../") ==> r[k] == m[k]
    ensures forall k :: k in m && (HasPrefix(m[k], "./") || HasPrefix(m[k], "../")) ==>
              r[k] == Render(Normalize([], dir + Components(m[k]))) && r[k][0] == '/'
  {
    map k | k in m :: Resolve(dir, m[k])
  }

  /** `resolveRelativePaths(config, configPath:)` as a value. */
  function Resolved(config: SoundConfig, configPath: string): SoundConfig {
    var dir := Parent(configPath);
    SoundConfig(ResolveAll(dir, config.events),
                match config.keys case None => None case Some(keys) => Some(ResolveAll(dir, keys)))
  }

  /**
   * Resolution keeps every event name and key code, leaves a missing key
   * table missing, and changes only values that start with `./` or `../`.
   */
  lemma ResolvedKeepsShape(config: SoundConfig, configPath: string)
    ensures var r := Resolved(config, configPath);
      && r.events.Keys == config.events.Keys
      && r.keys.Some? == config.keys.Some?
      && (config.keys.Some? ==> r.keys.value.Keys == config.keys.value.Keys)
      && (forall k :: k in config.events && !HasPrefix(config.events[k], "./") && !HasPrefix(config.events[k], "../")
            ==> r.events[k] == config.events[k])
  {
  }

  /** Resolving a configuration twice is resolving it once. */
  lemma ResolvedIdempotent(config: SoundConfig, configPath: string)
    ensures Resolved(Resolved(config, configPath), configPath) == Resolved(config, configPath)
  {
    var dir := Parent(configPath);
    ResolveAllIdempotent(dir, config.events);
    if config.keys.Some? {
      ResolveAllIdempotent(dir, config.keys.value);
    }
  }

  lemma ResolveAllIdempotent(dir: seq<string>, m: map<string, string>)
    ensures ResolveAll(dir, ResolveAll(dir, m)) == ResolveAll(dir, m)
  {
    forall k | k in m ensures ResolveAll(dir, ResolveAll(dir, m))[k] == ResolveAll(dir, m)[k] {
      ResolveIdempotent(dir, m[k]);
    }
  }

  /** One of the two loops of `resolveRelativePaths`: each entry rewritten in place. */
  method ResolveEntries(dir: seq<string>, m: map<string, string>) returns (r: map<string, string>)
    ensures r == ResolveAll(dir, m)
  {
    r := m;
    var remaining := m.Keys;
    while remaining != {}
      invariant remaining <= m.Keys && r.Keys == m.Keys
      invariant forall k :: k in m && k !in remaining ==> r[k] == Resolve(dir, m[k])
      invariant forall k :: k in remaining ==> r[k] == m[k]
      decreases remaining
    {
      var k :| k in remaining;
      r := r[k := Resolve(dir, r[k])];
      remaining := remaining - {k};
    }
  }

  /** `resolveRelativePaths`. */
  method ResolveRelativePaths(config: SoundConfig, configPath: string) returns (r: SoundConfig)
    ensures r == Resolved(config, configPath)
  {
    var configDir := Parent(configPath);
    var newEvents := ResolveEntries(configDir, config.events);
    var newKeys: Option<map<string, string>> := None;
    if config.keys.Some? {
      var keys := ResolveEntries(configDir, config.keys.value);
      newKeys := Some(keys);
    }
    r := SoundConfig(newEvents, newKeys);
  }

  // ------------------------------------------------------------------ loadConfig

  const ConfigFile: string := "/config.json"
  const DocumentsFile: string := "/MacOSMiddleWareSoundProducer/config.json"

  /**
   * The candidate files in priority order: the working directory, the
   * executable's directory when there is one, the Documents sub-folder when
   * there is one.
   */
  function Candidates(cwd: string, execPath: Option<string>, documents: Option<string>): (paths: seq<string>)
    ensures |paths| == 1 + (if execPath.Some? then 1 else 0) + (if documents.Some? then 1 else 0)
    ensures paths[0] == cwd + ConfigFile
    ensures execPath.Some? ==> paths[1] == Render(Parent(execPath.value)) + ConfigFile
    ensures documents.Some? ==> paths[|paths| - 1] == documents.value + DocumentsFile
  {
    [cwd + ConfigFile]
    + (match execPath case Some(p) => [Render(Parent(p)) + ConfigFile] case None => [])
    + (match documents case Some(d) => [d + DocumentsFile] case None => [])
  }

  /** A candidate that exists and decodes. */
  predicate Loadable(files: map<string, Option<SoundConfig>>, path: string) {
    path in files && files[path].Some?
  }

  /** The first loadable candidate, if any. */
  function FirstLoadable(paths: seq<string>, files: map<string, Option<SoundConfig>>): (r: Option<string>)
    ensures r.Some? ==> Loadable(files, r.value) && r.value in paths
    decreases |paths|
  {
    if paths == [] then None
    else if Loadable(files, paths[0]) then Some(paths[0])
    else FirstLoadable(paths[1..], files)
  }

  /**
   * The chosen candidate is loadable and every earlier one is not (missing,
   * or failing to decode); there is none exactly when no candidate is
   * loadable.
   */
  lemma {:induction false} FirstLoadableSpec(paths: seq<string>, files: map<string, Option<SoundConfig>>)
    ensures FirstLoadable(paths, files).None? <==> forall i :: 0 <= i < |paths| ==> !Loadable(files, paths[i])
    ensures FirstLoadable(paths, files).Some? ==>
              exists i :: 0 <= i < |paths| && paths[i] == FirstLoadable(paths, files).value
                && Loadable(files, paths[i]) && forall j :: 0 <= j < i ==> !Loadable(files, paths[j])
    decreases |paths|
  {
    if paths != [] && !Loadable(files, paths[0]) {
      FirstLoadableSpec(paths[1..], files);
      assert forall i :: 1 <= i < |paths| ==> paths[i] == paths[1..][i - 1];
      if FirstLoadable(paths, files).Some? {
        var i :| 0 <= i < |paths[1..]| && paths[1..][i] == FirstLoadable(paths, files).value
          && Loadable(files, paths[1..][i]) && forall j :: 0 <= j < i ==> !Loadable(files, paths[1..][j]);
        assert paths[i + 1] == paths[1..][i];
        forall j | 0 <= j < i + 1 ensures !Loadable(files, paths[j]) {
          if j > 0 { assert paths[j] == paths[1..][j - 1]; }
        }
      }
    } else if paths != [] {
      assert Loadable(files, paths[0]);
    }
  }

  /** A candidate that exists but does not decode gives way to the next one. */
  lemma DecodeFailureFallsThrough(first: string, rest: seq<string>, files: map<string, Option<SoundConfig>>)
    requires first in files && files[first].None?
    ensures FirstLoadable([first] + rest, files) == FirstLoadable(rest, files)
  {
    assert ([first] + rest)[1..] == rest;
  }

  /** `loadConfig`: the resolved configuration of the first loadable candidate, or none. */
  method LoadConfig(cwd: string, execPath: Option<string>, documents: Option<string>,
                    files: map<string, Option<SoundConfig>>) returns (config: Option<SoundConfig>)
    ensures var chosen := FirstLoadable(Candidates(cwd, execPath, documents), files);
      && (chosen.None? ==> config.None?)
      && (chosen.Some? ==> config == Some(Resolved(files[chosen.value].value, chosen.value)))
  {
    var pathsToCheck := [cwd + ConfigFile];
    if execPath.Some? {
      pathsToCheck := pathsToCheck + [Render(Parent(execPath.value)) + ConfigFile];
    }
    if documents.Some? {
      pathsToCheck := pathsToCheck + [documents.value + DocumentsFile];
    }
    assert pathsToCheck == Candidates(cwd, execPath, documents);
    var i := 0;
    while i < |pathsToCheck|
      invariant 0 <= i <= |pathsToCheck|
      invariant FirstLoadable(pathsToCheck, files) == FirstLoadable(pathsToCheck[i..], files)
    {
      var path := pathsToCheck[i];
      if path in files {
        var decoded := files[path];
        if decoded.Some? {
          var resolved := ResolveRelativePaths(decoded.value, path);
          return Some(resolved);
        }
      }
      assert pathsToCheck[i..][1..] == pathsToCheck[i + 1..];
      i := i + 1;
    }
    return None;
  }
}
