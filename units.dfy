/** Identity of a service unit and the fragment paths derived from it
    (`Service::new`, `unit_name` and `fragment_path` in `src/systemd/service.rs`). */
module Units {
  import opened Results
  import opened Text

  /** The package name the fragments carry (`env!("CARGO_PKG_NAME")`). */
  const PACKAGE_NAME := "shh"

  /** A service unit: its name and, for an instance of a template, the instance argument. */
  datatype Service = Service(name: string, arg: Option<string>)

  /** The two drop-in fragments the tool owns. */
  datatype FragmentKind = Profiling | Hardening

  function KindName(kind: FragmentKind): string {
    match kind
    case Profiling => "profile"
    case Hardening => "harden"
  }

  /** `Service::new`: the unit token split on its first `@`. */
  function New(unit: string): (svc: Service)
    ensures '@' !in svc.name
    ensures svc.arg.None? <==> '@' !in unit
    ensures svc.arg.None? ==> svc.name == unit
    ensures svc.arg.Some? ==> unit == svc.name + "@" + svc.arg.value
  {
    match SplitOnce(unit, '@')
    case Some((name, arg)) => Service(name, Some(arg))
    case None => Service(unit, None)
  }

  /** `Service::unit_name`: `<name>[@<arg>].service`. */
  function UnitName(svc: Service): string {
    svc.name + (if svc.arg.Some? then "@" + svc.arg.value else "") + ".service"
  }

  /** Parsing a token and naming the unit gives back the token with the `.service` suffix. */
  lemma UnitNameOfNew(unit: string)
    ensures UnitName(New(unit)) == unit + ".service"
  {
  }

  /** A name without `@` and any argument are recovered by parsing what they spell. */
  lemma NewOfParts(name: string, arg: string)
    requires '@' !in name
    ensures New(name + "@" + arg) == Service(name, Some(arg))
    ensures New(name) == Service(name, None)
  {
    var unit := name + "@" + arg;
    var svc := New(unit);
    assert unit[|name|] == '@';
    assert svc.name == unit[..|svc.name|] == name;
    assert svc.arg.value == unit[|name| + 1..] == arg;
  }

  /** `PathBuf::push` on Unix: an absolute component replaces the whole path; otherwise a `/` is
      put in between unless the path is empty or already ends with one. */
  function PathJoin(base: string, component: string): string {
    if StartsWith(component, "/") then component
    else if base == [] || EndsWith(base, '/') then base + component
    else base + "/" + component
  }

  /** Pushing a relative component onto a path that does not end with `/` adds a `/` and the component. */
  lemma JoinWithSlash(base: string, component: string)
    requires base != [] && !EndsWith(base, '/') && component != [] && component[0] != '/'
    ensures PathJoin(base, component) == base + "/" + component
  {
  }

  /** Pushing a relative component onto a path ending with `/` appends the component as it is. */
  lemma JoinAfterSlash(base: string, component: string)
    requires EndsWith(base, '/') && component != [] && component[0] != '/'
    ensures PathJoin(base, component) == base + component
  {
  }

  /** The tree of the fragments: `/etc` for persistent ones, `/run` for the others. */
  function Root(persistent: bool): (root: string)
    ensures |root| == 4 && root[0] == '/' && root[3] != '/'
  {
    if persistent then "/etc" else "/run"
  }

  const SYSTEM_DIR := "systemd/system/"

  /** The fragment directory: `<name>@.service.d` for a template instance, `<name>.service.d` otherwise. */
  function FragmentDir(svc: Service): (dir: string)
    ensures |dir| > 0 && dir[|dir| - 1] == 'd'
    ensures dir != [] && (dir[0] == '/' <==> StartsWith(svc.name, "/"))
  {
    var dir := svc.name + (if svc.arg.Some? then "@" else "") + ".service.d";
    assert svc.name != [] ==> dir[0] == svc.name[0] && svc.name[..1] == [svc.name[0]];
    assert svc.name == [] ==> dir[0] in "@.";
    dir
  }

  /** The fragment file name: `zz_shh-<kind>.conf`, so that it sorts after other drop-ins. */
  function FragmentFile(kind: FragmentKind): (file: string)
    ensures |file| > 0 && file[0] == 'z'
  {
    "zz_" + PACKAGE_NAME + "-" + KindName(kind) + ".conf"
  }

  /** `Service::fragment_path`: the four components pushed in turn onto an empty path. */
  function FragmentPath(svc: Service, kind: FragmentKind, persistent: bool): string {
    PathJoin(PathJoin(PathJoin(PathJoin("", Root(persistent)), SYSTEM_DIR), FragmentDir(svc)), FragmentFile(kind))
  }

  /** The fragment lives in the fragment directory under `/etc/systemd/system/` or
      `/run/systemd/system/`, unless the unit name is itself an absolute path, which then replaces
      the tree. */
  lemma FragmentPathLayout(svc: Service, kind: FragmentKind, persistent: bool)
    ensures !StartsWith(svc.name, "/") ==>
      FragmentPath(svc, kind, persistent) == Root(persistent) + "/" + SYSTEM_DIR + FragmentDir(svc) + "/" + FragmentFile(kind)
    ensures StartsWith(svc.name, "/") ==>
      FragmentPath(svc, kind, persistent) == FragmentDir(svc) + "/" + FragmentFile(kind)
  {
    var root := Root(persistent);
    var dir := FragmentDir(svc);
    var file := FragmentFile(kind);
    assert PathJoin("", root) == root;
    assert SYSTEM_DIR[0] == 's' && SYSTEM_DIR[|SYSTEM_DIR| - 1] == '/';
    var inTree := root + "/" + SYSTEM_DIR;
    assert PathJoin(root, SYSTEM_DIR) == inTree by {
      JoinWithSlash(root, SYSTEM_DIR);
    }
    assert EndsWith(inTree, '/');
    if dir[0] == '/' {
      assert dir[..1] == "/";
      JoinWithSlash(dir, file);
    } else {
      JoinAfterSlash(inTree, dir);
      JoinWithSlash(inTree + dir, file);
    }
  }

  /** The tree is `/etc` exactly for a persistent fragment and `/run` otherwise. */
  lemma FragmentRoot(svc: Service, kind: FragmentKind, persistent: bool)
    requires !StartsWith(svc.name, "/")
    ensures StartsWith(FragmentPath(svc, kind, persistent), "/etc/") <==> persistent
    ensures StartsWith(FragmentPath(svc, kind, persistent), "/run/") <==> !persistent
  {
    FragmentPathLayout(svc, kind, persistent);
    var p := FragmentPath(svc, kind, persistent);
    assert p[..5] == Root(persistent) + "/";
    if persistent {
      assert p[1] == 'e' && "/run/"[1] == 'r';
    } else {
      assert p[1] == 'r' && "/etc/"[1] == 'e';
    }
  }

  /** The instance argument does not take part in the fragment path: all instances of a
      template share their fragments, which differ from those of the plain unit of that name. */
  lemma FragmentPathOfInstances(name: string, arg1: string, arg2: string, kind: FragmentKind, persistent: bool)
    ensures FragmentPath(Service(name, Some(arg1)), kind, persistent)
         == FragmentPath(Service(name, Some(arg2)), kind, persistent)
    ensures FragmentPath(Service(name, Some(arg1)), kind, persistent)
         != FragmentPath(Service(name, None), kind, persistent)
  {
    FragmentPathLayout(Service(name, Some(arg1)), kind, persistent);
    FragmentPathLayout(Service(name, Some(arg2)), kind, persistent);
    FragmentPathLayout(Service(name, None), kind, persistent);
    var p1 := FragmentPath(Service(name, Some(arg1)), kind, persistent);
    var p0 := FragmentPath(Service(name, None), kind, persistent);
    assert |p1| == |p0| + 1;
  }

  /** The profiling fragment (transient) and the hardening fragment (persistent) never coincide. */
  lemma FragmentsDistinct(svc: Service)
    ensures FragmentPath(svc, Profiling, false) != FragmentPath(svc, Hardening, true)
  {
    FragmentPathLayout(svc, Profiling, false);
    FragmentPathLayout(svc, Hardening, true);
    var p := FragmentPath(svc, Profiling, false);
    var h := FragmentPath(svc, Hardening, true);
    assert |p| == |h| + 1;
  }
}
