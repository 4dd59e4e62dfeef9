/**
 The installed-component manager of internal/component/component_manager.go.
 */
module ComponentManager {
  import opened Components

  datatype Component = Component(name: string, version: string, commit: string, active: bool,
                                 release: string, path: string, url: string)

  datatype Error =
    | UnknownName | NoVersion
    | AlreadyInstalled | AlreadyExist | AlreadyLatest
    | DownloadFailed | SaveFailed | LoadFailed | NotInstalled | RefusedActive

  datatype Outcome = Ok | Err(error: Error)

  /** What DownloadFileWithProgress and WriteFile return. */
  datatype Environment = Environment(downloads: bool, write: Write)

  /** os.WriteFile truncates before it writes, so a failure may leave nothing readable. */
  datatype Write = Written | Refused | Truncated

  /** The installed file. */
  datatype Stored = Absent | Readable(list: seq<Component>) | Unreadable

  function AfterWrite(write: Write, list: seq<Component>, was: Stored): Stored {
    match write
    case Written => Readable(list)
    case Refused => was
    case Truncated => Unreadable
  }

  predicate Is(c: Component, name: string, version: string) {
    c.name == name && c.version == version
  }

  /** Where the binary of a component lives. */
  function File(c: Component): string {
    c.path + "/" + c.name
  }

  // ------------------------------------------------------------ the invariant

  ghost predicate Unique(cs: seq<Component>) {
    forall i, j :: 0 <= i < j < |cs| ==> !(cs[i].name == cs[j].name && cs[i].version == cs[j].version)
  }

  ghost predicate OneActive(cs: seq<Component>) {
    forall i, j :: 0 <= i < j < |cs| && cs[i].name == cs[j].name ==> !(cs[i].active && cs[j].active)
  }

  ghost predicate Inv(cs: seq<Component>) {
    Unique(cs) && OneActive(cs)
  }

  ghost predicate Installed(cs: seq<Component>, name: string, version: string) {
    exists i :: 0 <= i < |cs| && Is(cs[i], name, version)
  }

  // ---------------------------------------------- the list operations as values

  /** SetDefaultVersion: the named version becomes the active one of its name. */
  function Activated(cs: seq<Component>, name: string, version: string): (r: seq<Component>)
    ensures |r| == |cs|
    ensures forall i :: 0 <= i < |cs| ==>
      r[i] == if cs[i].name == name then cs[i].(active := cs[i].version == version) else cs[i]
  {
    seq(|cs|, i requires 0 <= i < |cs| =>
      if cs[i].name == name then cs[i].(active := cs[i].version == version) else cs[i])
  }

  /** The list without the components of a (name, version) pair. */
  function Without(cs: seq<Component>, name: string, version: string): seq<Component> {
    if cs == [] then []
    else (if Is(cs[0], name, version) then [] else [cs[0]]) + Without(cs[1..], name, version)
  }

  function WithoutName(cs: seq<Component>, name: string): seq<Component> {
    if cs == [] then []
    else (if cs[0].name == name then [] else [cs[0]]) + WithoutName(cs[1..], name)
  }

  function WithName(cs: seq<Component>, name: string): seq<Component> {
    if cs == [] then []
    else (if cs[0].name == name then [cs[0]] else []) + WithName(cs[1..], name)
  }

  /** A new component goes in: in place of the one with its name and version, or at
      the end; and becomes the active one of its name. */
  ghost predicate Placed(cs: seq<Component>, c: Component, r: seq<Component>) {
    if Installed(cs, c.name, c.version) then
      exists k :: 0 <= k < |cs| && Is(cs[k], c.name, c.version) && r == Activated(cs[k := c], c.name, c.version)
    else r == Activated(cs + [c], c.name, c.version)
  }

  // ------------------------------------------------------ what operations keep

  lemma ActivatedInv(cs: seq<Component>, name: string, version: string)
    requires Inv(cs)
    ensures Inv(Activated(cs, name, version))
  {
  }

  /** Activating one version repairs a name with several active ones. */
  lemma ActivatedRepairs(cs: seq<Component>, name: string, version: string)
    requires Unique(cs)
    requires forall i, j :: 0 <= i < j < |cs| && cs[i].name == cs[j].name != name ==> !(cs[i].active && cs[j].active)
    ensures Inv(Activated(cs, name, version))
  {
  }

  lemma PlacedInv(cs: seq<Component>, c: Component, r: seq<Component>)
    requires Inv(cs) && Placed(cs, c, r)
    ensures Inv(r)
  {
    if Installed(cs, c.name, c.version) {
      var k :| 0 <= k < |cs| && Is(cs[k], c.name, c.version) && r == Activated(cs[k := c], c.name, c.version);
      ActivatedRepairs(cs[k := c], c.name, c.version);
    } else {
      ActivatedRepairs(cs + [c], c.name, c.version);
    }
  }

  /** Whatever was active before, afterwards exactly the new version is; and no
      other name is touched. */
  lemma PlacedActivates(cs: seq<Component>, c: Component, r: seq<Component>)
    requires Placed(cs, c, r)
    ensures Installed(r, c.name, c.version)
    ensures forall i :: 0 <= i < |r| && r[i].name == c.name ==> (r[i].active <==> r[i].version == c.version)
    ensures |cs| <= |r| <= |cs| + 1
    ensures forall i :: 0 <= i < |cs| && cs[i].name != c.name ==> r[i] == cs[i]
    ensures forall i :: 0 <= i < |cs| && cs[i].name == c.name ==> Is(r[i], c.name, cs[i].version)
  {
    if Installed(cs, c.name, c.version) {
      var k :| 0 <= k < |cs| && Is(cs[k], c.name, c.version) && r == Activated(cs[k := c], c.name, c.version);
      assert Is(r[k], c.name, c.version);
    } else {
      assert Is(r[|cs|], c.name, c.version);
    }
  }

  /** Removing keeps order and everything else. */
  lemma {:induction false} WithoutKeeps(cs: seq<Component>, name: string, version: string)
    ensures var r := Without(cs, name, version);
      && |r| <= |cs|
      && (forall c :: c in r <==> c in cs && !Is(c, name, version))
      && (|r| == |cs| <==> !Installed(cs, name, version))
      && (Inv(cs) ==> Inv(r))
  {
    if cs != [] {
      WithoutKeeps(cs[1..], name, version);
      assert cs == [cs[0]] + cs[1..];
      var r := Without(cs[1..], name, version);
      assert Installed(cs, name, version) <==> Is(cs[0], name, version) || Installed(cs[1..], name, version) by {
        if Installed(cs[1..], name, version) {
          var i :| 0 <= i < |cs[1..]| && Is(cs[1..][i], name, version);
          assert Is(cs[i + 1], name, version);
        }
      }
      if Inv(cs) {
        TailInv(cs);
        if !Is(cs[0], name, version) {
          ConsInv(cs, r);
        }
      }
    }
  }

  lemma TailInv(cs: seq<Component>)
    requires cs != [] && Inv(cs)
    ensures Inv(cs[1..])
  {
  }

  /** Part of the tail behind the same head. */
  lemma ConsInv(cs: seq<Component>, r: seq<Component>)
    requires cs != [] && Inv(cs) && Inv(r)
    requires forall c :: c in r ==> c in cs[1..]
    ensures Inv([cs[0]] + r)
  {
    var s := [cs[0]] + r;
    forall j | 0 < j < |s|
      ensures !(s[0].name == s[j].name && s[0].version == s[j].version)
      ensures s[0].name == s[j].name ==> !(s[0].active && s[j].active)
    {
      assert s[j] == r[j - 1] && r[j - 1] in cs[1..];
      var i :| 0 <= i < |cs[1..]| && cs[1..][i] == s[j];
      assert cs[i + 1] == s[j];
    }
  }

  lemma {:induction false} WithoutNameKeeps(cs: seq<Component>, name: string)
    ensures var r := WithoutName(cs, name);
      && (forall c :: c in r <==> c in cs && c.name != name)
      && (Inv(cs) ==> Inv(r))
  {
    if cs != [] {
      WithoutNameKeeps(cs[1..], name);
      assert cs == [cs[0]] + cs[1..];
      if Inv(cs) {
        TailInv(cs);
        if cs[0].name != name {
          ConsInv(cs, WithoutName(cs[1..], name));
        }
      }
    }
  }

  lemma {:induction false} WithNameKeeps(cs: seq<Component>, name: string)
    ensures forall c :: c in WithName(cs, name) <==> c in cs && c.name == name
    ensures WithName(cs, name) == [] <==> forall i :: 0 <= i < |cs| ==> cs[i].name != name
  {
    if cs != [] {
      WithNameKeeps(cs[1..], name);
      assert cs == [cs[0]] + cs[1..];
      if WithName(cs, name) == [] {
        forall i | 0 <= i < |cs| ensures cs[i].name != name {
          assert i > 0 ==> cs[i] == cs[1..][i - 1];
        }
      }
    }
  }

  // ------------------------------------------------------------ whole sessions

  /** The lists in memory and on disk. */
  datatype State = State(installed: seq<Component>, saved: Stored)

  ghost predicate StateInv(s: State) {
    Inv(s.installed) && (s.saved.Readable? ==> Inv(s.saved.list))
  }

  /** What any one operation may do to them. */
  ghost predicate Transition(s: State, t: State) {
    && (t.saved == s.saved || t.saved == Readable(t.installed) || t.saved == Unreadable)
    && (|| t.installed == s.installed
        || s.saved == Readable(t.installed)
        || (exists c :: Placed(s.installed, c, t.installed))
        || (exists n, v :: t.installed == Activated(s.installed, n, v))
        || (exists n, v :: t.installed == Without(s.installed, n, v))
        || (exists n :: t.installed == WithoutName(s.installed, n)))
  }

  lemma TransitionInv(s: State, t: State)
    requires StateInv(s) && Transition(s, t)
    ensures StateInv(t)
  {
    if c :| Placed(s.installed, c, t.installed) {
      PlacedInv(s.installed, c, t.installed);
    } else if n, v :| t.installed == Activated(s.installed, n, v) {
      ActivatedInv(s.installed, n, v);
    } else if n, v :| t.installed == Without(s.installed, n, v) {
      WithoutKeeps(s.installed, n, v);
    } else if n :| t.installed == WithoutName(s.installed, n) {
      WithoutNameKeeps(s.installed, n);
    }
  }

  /** Over every sequence of operations, failures of downloads and saves included:
      (name, version) pairs stay unique, and no name has two active versions. */
  lemma {:induction false} SessionsKeepInv(states: seq<State>)
    requires states != [] && StateInv(states[0])
    requires forall i :: 0 <= i < |states| - 1 ==> Transition(states[i], states[i + 1])
    ensures forall i :: 0 <= i < |states| ==> StateInv(states[i])
    decreases |states|
  {
    if |states| > 1 {
      TransitionInv(states[0], states[1]);
      forall i | 0 <= i < |states[1..]| - 1 ensures Transition(states[1..][i], states[1..][i + 1]) {
        assert Transition(states[i + 1], states[i + 2]);
      }
      SessionsKeepInv(states[1..]);
      assert forall i :: 1 <= i < |states| ==> states[i] == states[1..][i - 1];
    }
  }

  // -------------------------------------------------------------- the manager

  /** `saved` is the content of the installed file, `files` the binaries on disk. */
  class Manager {
    var installed: seq<Component>
    var saved: Stored
    var files: set<string>
    const repodata: map<string, Repo>
    const rootDir: string
    const mirror: string

    constructor (repodata: map<string, Repo>, rootDir: string, mirror: string, saved: Stored, files: set<string>)
      ensures installed == [] && this.saved == saved && this.files == files
      ensures this.repodata == repodata && this.rootDir == rootDir && this.mirror == mirror
    {
      this.repodata, this.rootDir, this.mirror := repodata, rootDir, mirror;
      installed, this.saved, this.files := [], saved, files;
    }

    function Lists(): State
      reads this
    {
      State(installed, saved)
    }

    method LoadInstalledComponents() returns (r: Outcome)
      modifies this`installed
      ensures Transition(old(Lists()), Lists())
      ensures r == if saved.Unreadable? then Err(LoadFailed) else Ok
      ensures installed == if saved.Readable? then saved.list else old(installed)
    {
      if saved.Absent? {
        return Ok;
      } else if saved.Unreadable? {
        return Err(LoadFailed);
      }
      installed := saved.list;
      r := Ok;
    }

    method SaveInstalledComponents(env: Environment) returns (r: Outcome)
      modifies this`saved
      ensures Transition(old(Lists()), Lists())
      ensures r == if env.write.Written? then Ok else Err(SaveFailed)
      ensures saved == AfterWrite(env.write, installed, old(saved))
    {
      saved := AfterWrite(env.write, installed, saved);
      r := if env.write.Written? then Ok else Err(SaveFailed);
    }

    /** What a requested version stands for: "latest" is resolved to a tag. */
    ghost predicate Resolves(name: string, version: string, found: string, d: Detail) {
      && name in repodata
      && var repo := repodata[name];
      if version == LATEST then IsLatest(repo.tags, found) && d == repo.tags[found]
      else found == version &&
           if version == MAIN then MAIN in repo.branches && d == repo.branches[MAIN]
           else version in repo.tags && d == repo.tags[version]
    }

    method FindVersion(name: string, version: string) returns (r: Outcome, found: string, d: Detail)
      ensures r.Ok? ==> Resolves(name, version, found, d)
      ensures r.Err? ==> r.error in {UnknownName, NoVersion} && forall f, e :: !Resolves(name, version, f, e)
    {
      found, d := version, Detail("", "", "");
      if name !in repodata {
        return Err(UnknownName), found, d;
      }
      var repo := repodata[name];
      if version == LATEST {
        var latest := GetLatest(repo);
        if latest.None? {
          return Err(NoVersion), found, d;
        }
        return Ok, latest.value, repo.tags[latest.value];
      } else if version == MAIN {
        if MAIN !in repo.branches {
          return Err(NoVersion), found, d;
        }
        return Ok, version, repo.branches[MAIN];
      }
      if version !in repo.tags {
        return Err(NoVersion), found, d;
      }
      r, d := Ok, repo.tags[version];
    }

    /** Position of the installed component, or the length of the list. */
    method FindInstallComponent(name: string, version: string) returns (k: nat)
      ensures k <= |installed|
      ensures k < |installed| ==> Is(installed[k], name, version)
      ensures forall i :: 0 <= i < k ==> !Is(installed[i], name, version)
    {
      k := 0;
      while k < |installed|
        invariant k <= |installed|
        invariant forall i :: 0 <= i < k ==> !Is(installed[i], name, version)
      {
        if Is(installed[k], name, version) {
          return;
        }
        k := k + 1;
      }
    }

    method SetDefaultVersion(name: string, version: string) returns (r: Outcome)
      modifies this`installed
      ensures Transition(old(Lists()), Lists())
      ensures installed == Activated(old(installed), name, version)
      ensures r == if Installed(old(installed), name, version) then Ok else Err(NotInstalled)
    {
      var found := false;
      for i := 0 to |installed|
        invariant |installed| == |old(installed)|
        invariant forall j :: 0 <= j < i ==> installed[j] == Activated(old(installed), name, version)[j]
        invariant forall j :: i <= j < |installed| ==> installed[j] == old(installed)[j]
        invariant found <==> exists j :: 0 <= j < i && Is(old(installed)[j], name, version)
      {
        if installed[i].name == name {
          if installed[i].version == version {
            installed := installed[i := installed[i].(active := true)];
            found := true;
            assert Is(old(installed)[i], name, version);
          } else {
            installed := installed[i := installed[i].(active := false)];
          }
        }
      }
      r := if found then Ok else Err(NotInstalled);
    }

    function NewComponent(name: string, version: string, d: Detail): Component {
      Component(name, version, d.commit, false, d.buildTime,
        rootDir + "/" + name + "/" + version, mirror + "/" + d.path)
    }

    /** installOrUpdateComponent */
    method InstallOrUpdate(name: string, version: string, isUpdate: bool, env: Environment)
      returns (r: Outcome, found: string)
      modifies this
      ensures Transition(old(Lists()), Lists())
      // a success, or a failure to save only, has placed the resolved version
      ensures r.Ok? || r == Err(SaveFailed) ==> exists d ::
        && Resolves(name, version, found, d)
        && Placed(old(installed), NewComponent(name, found, d), installed)
        && files == old(files) + {File(NewComponent(name, found, d))}
      ensures r.Ok? || r == Err(SaveFailed) ==> saved == AfterWrite(env.write, installed, old(saved))
      ensures r.Ok? && !isUpdate ==> !Installed(old(installed), name, found)
      ensures r.Err? && r.error != SaveFailed ==>
        installed == old(installed) && saved == old(saved) && files == old(files)
      // every refusal has its reason
      ensures r.Err? && r.error in {UnknownName, NoVersion} ==> forall f, d :: !Resolves(name, version, f, d)
      ensures r == Err(DownloadFailed) ==> !env.downloads
      ensures r.Ok? ==> env.write.Written?
      ensures r == Err(SaveFailed) ==> !env.write.Written?
      ensures r.Ok? || r.error !in {NotInstalled, RefusedActive, LoadFailed}
      ensures r == Err(AlreadyInstalled) ==> !isUpdate && Installed(old(installed), name, found)
      ensures r == Err(AlreadyExist) ==> isUpdate && version == LATEST && Installed(old(installed), name, found)
      ensures r == Err(AlreadyLatest) ==> isUpdate && exists d, i ::
        && Resolves(name, version, found, d) && 0 <= i < |installed| && Is(installed[i], name, found)
        && !Less(installed[i].release, d.buildTime)
    {
      var d;
      r, found, d := FindVersion(name, version);
      if r.Err? {
        return;
      }
      var k := FindInstallComponent(name, found);
      if !isUpdate && k < |installed| {
        return Err(AlreadyInstalled), found;
      }
      if isUpdate && k < |installed| {
        if version == LATEST {
          return Err(AlreadyExist), found;
        }
        if !Less(installed[k].release, d.buildTime) {
          return Err(AlreadyLatest), found;
        }
      }
      var c := NewComponent(name, found, d);
      if !env.downloads {
        return Err(DownloadFailed), found;
      }
      files := files + {File(c)};
      if isUpdate && k < |installed| {
        installed := installed[k := c];
      } else {
        installed := installed + [c];
      }
      assert Is(installed[if k < |old(installed)| then k else |old(installed)|], name, found);
      r := SetDefaultVersion(name, found);
      assert Placed(old(installed), c, installed);
      r := SaveInstalledComponents(env);
    }

    /** RemoveComponent: deletes the binary of every match it passes, and refuses
        when it meets an active one. */
    method RemoveComponent(name: string, version: string, force: bool, save: bool, env: Environment)
      returns (r: Outcome)
      modifies this
      ensures Transition(old(Lists()), Lists())
      ensures var hit := exists i ::
          0 <= i < |old(installed)| && Is(old(installed)[i], name, version) && old(installed)[i].active;
        r == Err(RefusedActive) <==> !force && hit
      ensures r == Err(RefusedActive) ==> installed == old(installed) && saved == old(saved)
      ensures r == Err(RefusedActive) && Unique(old(installed)) ==> files == old(files)
      ensures r == Err(NotInstalled) <==> !Installed(old(installed), name, version)
      ensures r == Err(NotInstalled) ==> installed == old(installed) && saved == old(saved) && files == old(files)
      ensures r.Ok? || r == Err(SaveFailed) ==>
        && installed == Without(old(installed), name, version)
        && files == old(files) - BinariesOf(old(installed), |old(installed)|, name, version)
      ensures saved ==
        if save && (r.Ok? || r == Err(SaveFailed)) then AfterWrite(env.write, installed, old(saved)) else old(saved)
      ensures r.Ok? || r in {Err(RefusedActive), Err(NotInstalled), Err(SaveFailed)}
      ensures r.Ok? || r == Err(SaveFailed) ==> (r == Err(SaveFailed) <==> save && !env.write.Written?)
    {
      var kept, refused := RemoveFiles(name, version, force);
      if refused {
        return Err(RefusedActive);
      }
      WithoutKeeps(installed, name, version);
      if |kept| == |installed| {
        NoBinaries(installed, |installed|, name, version);
        return Err(NotInstalled);
      }
      installed := kept;
      r := Ok;
      if save {
        r := SaveInstalledComponents(env);
      }
    }

    /** The loop of RemoveComponent. */
    method RemoveFiles(name: string, version: string, force: bool) returns (kept: seq<Component>, refused: bool)
      modifies this`files
      ensures refused <==>
        !force && exists i :: 0 <= i < |installed| && Is(installed[i], name, version) && installed[i].active
      ensures refused && Unique(installed) ==> files == old(files)
      ensures !refused ==> kept == Without(installed, name, version)
      ensures !refused ==> files == old(files) - BinariesOf(installed, |installed|, name, version)
    {
      kept := [];
      for i := 0 to |installed|
        invariant kept + Without(installed[i..], name, version) == Without(installed, name, version)
        invariant files == old(files) - BinariesOf(installed, i, name, version)
        invariant force || forall j :: 0 <= j < i && Is(installed[j], name, version) ==> !installed[j].active
      {
        var c := installed[i];
        WithoutHead(installed, i, name, version, kept);
        if Is(c, name, version) && c.active && !force {
          if Unique(installed) {
            NoBinariesBefore(installed, i, name, version);
          }
          return kept, true;
        }
        BinariesStep(installed, i, name, version);
        if !Is(c, name, version) {
          kept := kept + [c];
        } else {
          files := files - {File(c)};
        }
      }
      assert installed[|installed|..] == [] && kept + [] == kept;
      refused := false;
    }

    /** The first loop of RemoveComponents. */
    method Partition(name: string) returns (kept: seq<Component>, removed: seq<Component>)
      ensures kept == WithoutName(installed, name) && removed == WithName(installed, name)
    {
      kept, removed := [], [];
      for i := 0 to |installed|
        invariant kept + WithoutName(installed[i..], name) == WithoutName(installed, name)
        invariant removed + WithName(installed[i..], name) == WithName(installed, name)
      {
        var c := installed[i];
        PartitionHead(installed, i, name, kept, removed);
        if c.name != name {
          kept := kept + [c];
        } else {
          removed := removed + [c];
        }
      }
      assert installed[|installed|..] == [] && kept + [] == kept && removed + [] == removed;
    }

    /** Deletes the binaries of the removed components. */
    method DeleteFiles(removed: seq<Component>)
      modifies this`files
      ensures files == old(files) - set c | c in removed :: File(c)
    {
      for i := 0 to |removed|
        invariant files == old(files) - set c | c in removed[..i] :: File(c)
      {
        assert removed[..i + 1] == removed[..i] + [removed[i]];
        files := files - {File(removed[i])};
      }
      assert removed[..|removed|] == removed;
    }

    /** RemoveComponents: all versions of a name. */
    method RemoveComponents(name: string, save: bool, env: Environment) returns (r: Outcome)
      modifies this
      ensures Transition(old(Lists()), Lists())
      ensures r == Err(NotInstalled) <==> forall i :: 0 <= i < |old(installed)| ==> old(installed)[i].name != name
      ensures r == Err(NotInstalled) ==> installed == old(installed) && saved == old(saved) && files == old(files)
      ensures r.Ok? || r == Err(SaveFailed) ==>
        && installed == WithoutName(old(installed), name)
        && files == old(files) - set c | c in WithName(old(installed), name) :: File(c)
      ensures saved ==
        if save && (r.Ok? || r == Err(SaveFailed)) then AfterWrite(env.write, installed, old(saved)) else old(saved)
      ensures r.Ok? || r in {Err(NotInstalled), Err(SaveFailed)}
      ensures r.Ok? || r == Err(SaveFailed) ==> (r == Err(SaveFailed) <==> save && !env.write.Written?)
    {
      var kept, removed := Partition(name);
      WithNameKeeps(installed, name);
      if removed == [] {
        return Err(NotInstalled);
      }
      DeleteFiles(removed);
      installed := kept;
      r := Ok;
      if save {
        r := SaveInstalledComponents(env);
      }
    }
  }

  /** What one more component adds to the lists kept and removed so far. */
  lemma PartitionHead(cs: seq<Component>, i: nat, name: string, kept: seq<Component>, removed: seq<Component>)
    requires i < |cs|
    ensures kept + WithoutName(cs[i..], name) ==
      (if cs[i].name != name then kept + [cs[i]] else kept) + WithoutName(cs[i + 1..], name)
    ensures removed + WithName(cs[i..], name) ==
      (if cs[i].name == name then removed + [cs[i]] else removed) + WithName(cs[i + 1..], name)
  {
    assert cs[i..][0] == cs[i] && cs[i..][1..] == cs[i + 1..];
    var out, named := WithoutName(cs[i + 1..], name), WithName(cs[i + 1..], name);
    assert kept + ([cs[i]] + out) == (kept + [cs[i]]) + out;
    assert removed + ([cs[i]] + named) == (removed + [cs[i]]) + named;
  }

  lemma WithoutHead(cs: seq<Component>, i: nat, name: string, version: string, kept: seq<Component>)
    requires i < |cs|
    ensures kept + Without(cs[i..], name, version) ==
      (if Is(cs[i], name, version) then kept else kept + [cs[i]]) + Without(cs[i + 1..], name, version)
  {
    assert cs[i..][0] == cs[i] && cs[i..][1..] == cs[i + 1..];
    var out := Without(cs[i + 1..], name, version);
    assert kept + ([cs[i]] + out) == (kept + [cs[i]]) + out;
  }

  /** The binaries of the matches among the first `n` components. */
  ghost function BinariesOf(cs: seq<Component>, n: nat, name: string, version: string): set<string>
    requires n <= |cs|
  {
    set i | 0 <= i < n && Is(cs[i], name, version) :: File(cs[i])
  }

  lemma BinariesStep(cs: seq<Component>, n: nat, name: string, version: string)
    requires n < |cs|
    ensures BinariesOf(cs, n + 1, name, version) ==
      BinariesOf(cs, n, name, version) + if Is(cs[n], name, version) then {File(cs[n])} else {}
  {
  }

  lemma NoBinariesBefore(cs: seq<Component>, i: nat, name: string, version: string)
    requires i < |cs| && Unique(cs) && Is(cs[i], name, version)
    ensures BinariesOf(cs, i, name, version) == {}
  {
  }

  lemma NoBinaries(cs: seq<Component>, n: nat, name: string, version: string)
    requires n <= |cs| && !Installed(cs, name, version)
    ensures BinariesOf(cs, n, name, version) == {}
  {
  }
}
