/** Where Bear Alarm finds its bundled resources and keeps its per-user data
    (src/core/paths.py). Paths follow POSIX `pathlib` semantics: a path is a root
    flag and a list of components; `/` joins, and an absolute right-hand side
    replaces the left-hand side. The platform, the environment, the home directory
    and the interpreter's bundle attributes are parameters. */
module Paths {
  import opened Wrappers
  import Text

  datatype Path = Path(absolute: bool, parts: seq<string>)

  /** The components `pathlib` keeps: empty ones (from `//`) and `.` are dropped. */
  function Components(raw: seq<string>): (r: seq<string>)
    ensures forall i :: 0 <= i < |r| ==> r[i] != "" && r[i] != "." && r[i] in raw
    ensures |r| <= |raw|
    ensures forall x :: x in r <==> x in raw && x != "" && x != "."
  {
    if |raw| == 0 then []
    else
      assert forall x :: x in raw <==> x == raw[0] || x in raw[1..];
      (if raw[0] == "" || raw[0] == "." then [] else [raw[0]]) + Components(raw[1..])
  }

  /** Dropping the empty and "." parts keeps the order of the others. */
  lemma {:induction false} ComponentsAppend(a: seq<string>, b: seq<string>)
    ensures Components(a + b) == Components(a) + Components(b)
  {
    if |a| == 0 {
      assert a + b == b;
    } else {
      assert (a + b)[0] == a[0] && (a + b)[1..] == a[1..] + b;
      ComponentsAppend(a[1..], b);
    }
  }

  /** `Path(s)`: absolute exactly when the text starts with a slash. */
  function ParsePath(s: string): (p: Path)
    ensures p.absolute <==> (|s| > 0 && s[0] == '/')
    ensures forall i :: 0 <= i < |p.parts| ==> '/' !in p.parts[i] && p.parts[i] != ""
    ensures forall x :: x in p.parts <==> x in Text.Split(s, '/') && x != "" && x != "."
  {
    Path(|s| > 0 && s[0] == '/', Components(Text.Split(s, '/')))
  }

  /** `p / q`. */
  function Join(p: Path, q: Path): (r: Path)
    ensures q.absolute ==> r == q
    ensures !q.absolute ==> r.absolute == p.absolute && r.parts == p.parts + q.parts
  {
    if q.absolute then q else Path(p.absolute, p.parts + q.parts)
  }

  /** `p / "name"` for a string operand. */
  function Child(p: Path, name: string): Path {
    Join(p, ParsePath(name))
  }

  /** `q` lies under `p`: same root and `p`'s components are a prefix of `q`'s. */
  predicate Under(q: Path, p: Path) {
    q.absolute == p.absolute && |p.parts| <= |q.parts| && q.parts[..|p.parts|] == p.parts
  }

  // ---------------------------------------------------------------- bundle and resources

  /** How the program was started: PyInstaller sets `sys.frozen` and `sys._MEIPASS`. */
  datatype Bundle = Bundle(frozen: bool, meipass: Option<string>, projectRoot: Path)

  predicate IsPackaged(b: Bundle) {
    b.frozen && b.meipass.Some?
  }

  function BundleDir(b: Bundle): Path {
    if IsPackaged(b) then ParsePath(b.meipass.value) else b.projectRoot
  }

  function ResourcesDir(b: Bundle): Path {
    Child(BundleDir(b), "resources")
  }

  /** The resources directory is the bundle directory's child named "resources". */
  lemma ResourcesUnderBundle(b: Bundle)
    ensures ResourcesDir(b) == Path(BundleDir(b).absolute, BundleDir(b).parts + ["resources"])
    ensures Under(ResourcesDir(b), BundleDir(b))
  {
    ChildName(BundleDir(b), "resources");
    ExtendUnder(BundleDir(b), "resources");
  }

  // ---------------------------------------------------------------- user data

  /** What the process sees of its host: `platform.system()`, `Path.home()` and the
      two environment variables consulted (present even when set to ""). */
  datatype Host = Host(system: string, home: Path, localAppData: Option<string>, xdgDataHome: Option<string>)

  function UserDataDir(h: Host): Path {
    if h.system == "Darwin" then
      Child(Child(Child(h.home, "Library"), "Application Support"), "BearAlarm")
    else if h.system == "Windows" then
      var base := match h.localAppData
        case Some(v) => ParsePath(v)
        case None => Child(Child(h.home, "AppData"), "Local");
      Child(base, "BearAlarm")
    else
      var base := match h.xdgDataHome
        case Some(v) => ParsePath(v)
        case None => Child(Child(h.home, ".local"), "share");
      Child(base, "bear-alarm")
  }

  function UserConfigPath(h: Host): Path {
    Child(UserDataDir(h), "config.yaml")
  }

  function DatabasePath(h: Host): Path {
    Child(UserDataDir(h), "bear_alarm.db")
  }

  /** A single file or directory name parses to a one-component relative path. */
  lemma ParseName(n: string)
    requires '/' !in n && n != "" && n != "."
    ensures ParsePath(n) == Path(false, [n])
  {
    Text.SplitNoSeparator(n, '/');
    assert Components([n]) == [n] + Components([]);
  }

  /** Appending one plain name adds exactly that component. */
  lemma ChildName(d: Path, n: string)
    requires '/' !in n && n != "" && n != "."
    ensures Child(d, n) == Path(d.absolute, d.parts + [n])
  {
    ParseName(n);
  }

  lemma ExtendUnder(d: Path, n: string)
    ensures Under(Path(d.absolute, d.parts + [n]), d)
  {
    assert (d.parts + [n])[..|d.parts|] == d.parts;
  }

  /** The configuration file and the database sit side by side in the data directory
      and are distinct files. */
  lemma ConfigAndDatabaseSiblings(h: Host)
    ensures UserConfigPath(h) != DatabasePath(h)
    ensures Under(UserConfigPath(h), UserDataDir(h)) && Under(DatabasePath(h), UserDataDir(h))
  {
    SiblingNames(UserDataDir(h));
  }

  lemma SiblingNames(d: Path)
    ensures Child(d, "config.yaml") != Child(d, "bear_alarm.db")
    ensures Under(Child(d, "config.yaml"), d) && Under(Child(d, "bear_alarm.db"), d)
  {
    DataFileNames();
    DistinctChildren(d, "config.yaml", "bear_alarm.db");
  }

  lemma DataFileNames()
    ensures '/' !in "config.yaml" && "config.yaml" != "" && "config.yaml" != "."
    ensures '/' !in "bear_alarm.db" && "bear_alarm.db" != "" && "bear_alarm.db" != "."
    ensures "config.yaml" != "bear_alarm.db"
  {
    assert |"config.yaml"| != |"bear_alarm.db"|;
  }

  /** Two different plain names give two different paths, both under the directory. */
  lemma DistinctChildren(d: Path, a: string, b: string)
    requires '/' !in a && a != "" && a != "."
    requires '/' !in b && b != "" && b != "."
    requires a != b
    ensures Child(d, a) != Child(d, b) && Under(Child(d, a), d) && Under(Child(d, b), d)
  {
    ChildName(d, a);
    ChildName(d, b);
    assert Child(d, a).parts[|d.parts|] == a;
    ExtendUnder(d, a);
    ExtendUnder(d, b);
  }

  // ---------------------------------------------------------------- sound files

  const ResourcesPrefix := "resources/"

  /** The text left after removing one leading "resources/". */
  function StripResourcesPrefix(s: string): (r: string)
    ensures Text.StartsWith(s, ResourcesPrefix) ==> s == ResourcesPrefix + r
    ensures !Text.StartsWith(s, ResourcesPrefix) ==> r == s
  {
    if Text.StartsWith(s, ResourcesPrefix) then s[|ResourcesPrefix|..] else s
  }

  /** `resolve_sound_path` as written: an absolute path is kept; otherwise one leading
      "resources/" is stripped and the rest is joined under the resources directory. */
  function ResolveSoundPath(resources: Path, s: string): (r: Path)
    ensures ParsePath(s).absolute ==> r == ParsePath(s)
    ensures !ParsePath(s).absolute ==> r == Join(resources, ParsePath(StripResourcesPrefix(s)))
  {
    var path := ParsePath(s);
    if path.absolute then path
    else Join(resources, ParsePath(StripResourcesPrefix(s)))
  }

  /** A relative name whose remainder after the prefix is itself relative ends up
      under the resources directory. */
  lemma ResolveRelativeUnder(resources: Path, s: string)
    requires !ParsePath(s).absolute
    requires !ParsePath(StripResourcesPrefix(s)).absolute
    ensures Under(ResolveSoundPath(resources, s), resources)
  {
    assert (resources.parts + ParsePath(StripResourcesPrefix(s)).parts)[..|resources.parts|] == resources.parts;
  }

  /** "sounds/x.wav" and "resources/sounds/x.wav" name the same file. */
  lemma ResolveIgnoresResourcesPrefix(resources: Path, t: string)
    requires !ParsePath(t).absolute && !Text.StartsWith(t, ResourcesPrefix)
    ensures ResolveSoundPath(resources, ResourcesPrefix + t) == ResolveSoundPath(resources, t)
  {
    var s := ResourcesPrefix + t;
    assert s[..|ResourcesPrefix|] == ResourcesPrefix;
    assert s[|ResourcesPrefix|..] == t;
  }

  lemma SplitRelativeName()
    ensures Text.Split("tmp/x.wav", '/') == ["tmp", "x.wav"]
  {
    assert "tmp/x.wav" == "tmp" + ['/'] + "x.wav";
    Text.SplitTwo("tmp", "x.wav", '/');
  }

  lemma SplitLeadingSlash()
    ensures Text.Split("/tmp/x.wav", '/') == [""] + Text.Split("tmp/x.wav", '/')
  {
    Text.SplitAt("/tmp/x.wav", '/', 0);
    assert "/tmp/x.wav"[1..] == "tmp/x.wav" && "/tmp/x.wav"[..0] == "";
  }

  lemma SplitEscapingName()
    ensures Text.Split("/tmp/x.wav", '/') == ["", "tmp", "x.wav"]
  {
    SplitLeadingSlash();
    SplitRelativeName();
  }

  lemma ComponentsEscapingName()
    ensures Components(["", "tmp", "x.wav"]) == ["tmp", "x.wav"]
  {
    assert Components(["x.wav"]) == ["x.wav"] + Components([]);
    assert ["", "tmp", "x.wav"][1..] == ["tmp", "x.wav"];
    assert ["tmp", "x.wav"][1..] == ["x.wav"];
  }

  const EscapingName := "resources//tmp/x.wav"

  lemma StripEscapingName()
    ensures !ParsePath(EscapingName).absolute
    ensures StripResourcesPrefix(EscapingName) == "/tmp/x.wav"
  {
    assert EscapingName[..|ResourcesPrefix|] == ResourcesPrefix;
    assert EscapingName[|ResourcesPrefix|..] == "/tmp/x.wav";
  }

  lemma ParseEscapingRemainder()
    ensures ParsePath("/tmp/x.wav") == Path(true, ["tmp", "x.wav"])
  {
    SplitEscapingName();
    ComponentsEscapingName();
  }

  /** The relative name "resources//tmp/x.wav" escapes the resources directory:
      after the prefix is stripped the remainder "/tmp/x.wav" is absolute and the
      join keeps only it. */
  lemma ResolveEscapesResources(resources: Path)
    requires |resources.parts| > 0 && resources.parts[|resources.parts| - 1] == "resources"
    ensures !ParsePath(EscapingName).absolute
    ensures ResolveSoundPath(resources, EscapingName) == Path(true, ["tmp", "x.wav"])
    ensures !Under(ResolveSoundPath(resources, EscapingName), resources)
  {
    StripEscapingName();
    ParseEscapingRemainder();
    ResolveAbsoluteRemainder(resources, EscapingName);
    OutsideResources(resources);
  }

  /** A relative name whose remainder after the prefix is absolute resolves to that
      remainder, whatever the resources directory. */
  lemma ResolveAbsoluteRemainder(resources: Path, s: string)
    requires !ParsePath(s).absolute && ParsePath(StripResourcesPrefix(s)).absolute
    ensures ResolveSoundPath(resources, s) == ParsePath(StripResourcesPrefix(s))
  {
  }

  lemma OutsideResources(resources: Path)
    requires |resources.parts| > 0 && resources.parts[|resources.parts| - 1] == "resources"
    ensures !Under(Path(true, ["tmp", "x.wav"]), resources)
  {
  }

  /** The relative part of a path: the same components without the root. */
  function AsRelative(p: Path): Path {
    Path(false, p.parts)
  }

  /** Resolution that keeps every relative name under the resources directory: the
      remainder after the prefix is always joined as a relative path. */
  function ResolveSoundPathContained(resources: Path, s: string): (r: Path)
    ensures ParsePath(s).absolute ==> r == ParsePath(s)
    ensures !ParsePath(s).absolute ==> Under(r, resources)
  {
    var path := ParsePath(s);
    if path.absolute then path
    else
      var rest := ParsePath(StripResourcesPrefix(s)).parts;
      assert (resources.parts + rest)[..|resources.parts|] == resources.parts;
      Join(resources, AsRelative(ParsePath(StripResourcesPrefix(s))))
  }

  /** Where the written resolution keeps a name inside the resources directory, the
      contained one picks the same path. */
  lemma ContainedAgrees(resources: Path, s: string)
    requires !ParsePath(StripResourcesPrefix(s)).absolute
    ensures ResolveSoundPathContained(resources, s) == ResolveSoundPath(resources, s)
  {
  }
}
