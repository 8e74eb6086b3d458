/**
 * What the clone walk promises, proved about CloneWalk's states (and so, by
 * their postconditions, about GitlabClone's methods):
 *   - the clones it runs are exactly the non-excluded projects of the tree,
 *     in depth-first pre-order, whatever becomes of each clone process;
 *   - the directories it leaves are the ones it found plus the working
 *     directories of those projects and their parents;
 *   - its log is a well-formed run: directories are made only when missing,
 *     every clone runs in an existing directory, and every process created is
 *     destroyed right after it ends;
 *   - a listing is requested page 1, 2, ... up to and including its first
 *     empty page, with the page number in the query string.
 */
module CloneProperties {
  import opened Text
  import opened GitlabRemote
  import opened CloneWalk
  import OkHttpCli

  // ---------------------------------------------------------------------------
  // The clones of a walk
  // ---------------------------------------------------------------------------

  /** One clone: the working directory and the command run in it. */
  type Task = (string, string)

  /** The clones a log records, in order. */
  function Clones(t: seq<Event>): seq<Task>
  {
    if t == [] then []
    else (if t[0].Exec? then [(t[0].dir, t[0].command)] else []) + Clones(t[1..])
  }

  /** The URLs a log requests, in order. */
  function Requests(t: seq<Event>): seq<string>
  {
    if t == [] then []
    else (if t[0].Request? then [t[0].url] else []) + Requests(t[1..])
  }

  /** The clone a project calls for: none when its namespace is excluded. */
  function TaskOf(cfg: Config, p: Project): seq<Task>
  {
    if Excluded(cfg, p.fullPath) then [] else [(WorkDir(cfg, p.fullPath), CloneCommand(p))]
  }

  /** The clones a sequence of projects calls for, in order. */
  function Tasks(cfg: Config, ps: seq<Project>): seq<Task>
  {
    if ps == [] then [] else TaskOf(cfg, ps[0]) + Tasks(cfg, ps[1..])
  }

  /** The working directories of a sequence of clones, with their parents. */
  function TaskDirs(cfg: Config, ts: seq<Task>): set<string>
  {
    if ts == [] then {} else WithParents(PathSeparators(cfg), ts[0].0) + TaskDirs(cfg, ts[1..])
  }

  /** Directories as a file system holds them: the parents of each one exist too. */
  predicate Closed(cfg: Config, d: set<string>)
  {
    forall x :: x in d ==> Parents(PathSeparators(cfg), x) <= d
  }

  /** A parent of a parent is a parent. */
  lemma ParentsOfParent(seps: set<char>, path: string, q: string)
    requires q in Parents(seps, path)
    ensures Parents(seps, q) <= Parents(seps, path)
  {
    var i :| 0 < i < |path| && path[i] in seps && q == path[..i];
    forall x | x in Parents(seps, q)
      ensures x in Parents(seps, path)
    {
      var j :| 0 < j < |q| && q[j] in seps && x == q[..j];
      assert path[j] == q[j] && path[..j] == x;
    }
  }

  /**
   * mkdirs keeps a file system closed, and on a closed one a directory that
   * exists already has all its parents.
   */
  lemma MkdirsClosed(cfg: Config, d: set<string>, dir: string)
    requires Closed(cfg, d)
    ensures Closed(cfg, d + WithParents(PathSeparators(cfg), dir))
    ensures dir in d ==> d + WithParents(PathSeparators(cfg), dir) == d
  {
    var seps := PathSeparators(cfg);
    forall x | x in WithParents(seps, dir)
      ensures Parents(seps, x) <= WithParents(seps, dir)
    {
      if x != dir {
        ParentsOfParent(seps, dir, x);
      }
    }
  }

  lemma {:induction false} ClonesAppend(a: seq<Event>, b: seq<Event>)
    ensures Clones(a + b) == Clones(a) + Clones(b)
  {
    if a == [] {
      assert a + b == b;
    } else {
      assert (a + b)[0] == a[0];
      assert (a + b)[1..] == a[1..] + b;
      ClonesAppend(a[1..], b);
    }
  }

  lemma {:induction false} RequestsAppend(a: seq<Event>, b: seq<Event>)
    ensures Requests(a + b) == Requests(a) + Requests(b)
  {
    if a == [] {
      assert a + b == b;
    } else {
      assert (a + b)[0] == a[0];
      assert (a + b)[1..] == a[1..] + b;
      RequestsAppend(a[1..], b);
    }
  }

  lemma {:induction false} TasksAppend(cfg: Config, a: seq<Project>, b: seq<Project>)
    ensures Tasks(cfg, a + b) == Tasks(cfg, a) + Tasks(cfg, b)
  {
    if a == [] {
      assert a + b == b;
    } else {
      assert (a + b)[0] == a[0];
      assert (a + b)[1..] == a[1..] + b;
      TasksAppend(cfg, a[1..], b);
    }
  }

  lemma {:induction false} TaskDirsAppend(cfg: Config, a: seq<Task>, b: seq<Task>)
    ensures TaskDirs(cfg, a + b) == TaskDirs(cfg, a) + TaskDirs(cfg, b)
  {
    if a == [] {
      assert a + b == b;
    } else {
      assert (a + b)[0] == a[0];
      assert (a + b)[1..] == a[1..] + b;
      TaskDirsAppend(cfg, a[1..], b);
    }
  }

  /**
   * A clone is called for exactly when some project of the sequence has a
   * namespace that is not excluded and the clone is that project's.
   */
  lemma {:induction false} TasksMembership(cfg: Config, ps: seq<Project>, x: Task)
    ensures x in Tasks(cfg, ps)
            <==> exists j :: 0 <= j < |ps| && !Excluded(cfg, ps[j].fullPath)
                             && x == (WorkDir(cfg, ps[j].fullPath), CloneCommand(ps[j]))
  {
    if ps != [] {
      TasksMembership(cfg, ps[1..], x);
      if exists j :: 0 <= j < |ps[1..]| && !Excluded(cfg, ps[1..][j].fullPath)
                     && x == (WorkDir(cfg, ps[1..][j].fullPath), CloneCommand(ps[1..][j])) {
        var j :| 0 <= j < |ps[1..]| && !Excluded(cfg, ps[1..][j].fullPath)
                 && x == (WorkDir(cfg, ps[1..][j].fullPath), CloneCommand(ps[1..][j]));
        assert ps[j + 1] == ps[1..][j];
      }
      if exists j :: 0 <= j < |ps| && !Excluded(cfg, ps[j].fullPath)
                     && x == (WorkDir(cfg, ps[j].fullPath), CloneCommand(ps[j])) {
        var j :| 0 <= j < |ps| && !Excluded(cfg, ps[j].fullPath)
                 && x == (WorkDir(cfg, ps[j].fullPath), CloneCommand(ps[j]));
        if j > 0 {
          assert ps[1..][j - 1] == ps[j];
        }
      }
    }
  }

  /**
   * The directories after the clones ts, from the directories d: before
   * each clone, a working directory that is missing is made with mkdirs.
   */
  function DirsAfter(cfg: Config, d: set<string>, ts: seq<Task>): set<string>
    decreases |ts|
  {
    if ts == [] then d
    else DirsAfter(cfg, if ts[0].0 in d then d else d + WithParents(PathSeparators(cfg), ts[0].0), ts[1..])
  }

  lemma {:induction false} DirsAfterAppend(cfg: Config, d: set<string>, a: seq<Task>, b: seq<Task>)
    ensures DirsAfter(cfg, d, a + b) == DirsAfter(cfg, DirsAfter(cfg, d, a), b)
    decreases |a|
  {
    if a == [] {
      assert a + b == b;
    } else {
      assert (a + b)[0] == a[0];
      assert (a + b)[1..] == a[1..] + b;
      DirsAfterAppend(cfg, if a[0].0 in d then d else d + WithParents(PathSeparators(cfg), a[0].0), a[1..], b);
    }
  }

  /**
   * On a closed file system, the clones ts leave the directories there were,
   * plus their working directories and those directories' parents, and the
   * file system stays closed.
   */
  lemma {:induction false} DirsAfterClosed(cfg: Config, d: set<string>, ts: seq<Task>)
    requires Closed(cfg, d)
    ensures DirsAfter(cfg, d, ts) == d + TaskDirs(cfg, ts)
    ensures Closed(cfg, DirsAfter(cfg, d, ts))
    decreases |ts|
  {
    if ts != [] {
      var seps := PathSeparators(cfg);
      var d1 := if ts[0].0 in d then d else d + WithParents(seps, ts[0].0);
      MkdirsClosed(cfg, d, ts[0].0);
      DirsAfterClosed(cfg, d1, ts[1..]);
    }
  }

  /**
   * From w to w', the log gains exactly the clones ts, in order, and the
   * directories are those the clones ts leave.
   */
  predicate Runs(cfg: Config, w: World, w': World, ts: seq<Task>)
  {
    Clones(w'.trace) == Clones(w.trace) + ts && w'.dirs == DirsAfter(cfg, w.dirs, ts)
  }

  /** Two stretches of a walk, one after the other, run their clones one after the other. */
  lemma Compose(cfg: Config, w0: World, w1: World, w2: World, a: seq<Task>, b: seq<Task>)
    requires Runs(cfg, w0, w1, a) && Runs(cfg, w1, w2, b)
    ensures Runs(cfg, w0, w2, a + b)
  {
    DirsAfterAppend(cfg, w0.dirs, a, b);
  }

  /** One record: its clone is logged and its working directory exists afterwards. */
  lemma HandleRecordClones(cfg: Config, spawn: Spawner, w: World, p: Project)
    ensures Runs(cfg, w, HandleRecord(cfg, spawn, w, p), TaskOf(cfg, p))
  {
    if !Excluded(cfg, p.fullPath) {
      var dir := WorkDir(cfg, p.fullPath);
      var command := CloneCommand(p);
      var made: seq<Event> := if dir in w.dirs then [] else [MakeDirs(dir)];
      var w1 := if dir in w.dirs then w else World(w.dirs + WithParents(PathSeparators(cfg), dir), w.trace + made);
      var outcome := spawn(w1, dir, command);
      var released: seq<Event> := if outcome == SpawnFailed then [] else [Destroy(dir)];
      var added := made + [Exec(dir, command, outcome)] + released;
      assert HandleRecord(cfg, spawn, w, p).trace == w.trace + added;
      ClonesAppend(w.trace, added);
      ClonesAppend(made + [Exec(dir, command, outcome)], released);
      ClonesAppend(made, [Exec(dir, command, outcome)]);
      assert [(dir, command)][1..] == [];
    }
  }

  /** One record requests nothing. */
  lemma HandleRecordRequests(cfg: Config, spawn: Spawner, w: World, p: Project)
    ensures Requests(HandleRecord(cfg, spawn, w, p).trace) == Requests(w.trace)
  {
    if !Excluded(cfg, p.fullPath) {
      var dir := WorkDir(cfg, p.fullPath);
      var command := CloneCommand(p);
      var made: seq<Event> := if dir in w.dirs then [] else [MakeDirs(dir)];
      var w1 := if dir in w.dirs then w else World(w.dirs + WithParents(PathSeparators(cfg), dir), w.trace + made);
      var outcome := spawn(w1, dir, command);
      var released: seq<Event> := if outcome == SpawnFailed then [] else [Destroy(dir)];
      var added := made + [Exec(dir, command, outcome)] + released;
      assert HandleRecord(cfg, spawn, w, p).trace == w.trace + added;
      RequestsAppend(w.trace, added);
      RequestsAppend(made + [Exec(dir, command, outcome)], released);
      RequestsAppend(made, [Exec(dir, command, outcome)]);
    }
  }

  lemma {:induction false} HandleRecordsClones(cfg: Config, spawn: Spawner, w: World, records: seq<Project>)
    ensures Runs(cfg, w, HandleRecords(cfg, spawn, w, records), Tasks(cfg, records))
    decreases |records|
  {
    if records != [] {
      var w1 := HandleRecord(cfg, spawn, w, records[0]);
      HandleRecordClones(cfg, spawn, w, records[0]);
      HandleRecordsClones(cfg, spawn, w1, records[1..]);
      Compose(cfg, w, w1, HandleRecords(cfg, spawn, w1, records[1..]), TaskOf(cfg, records[0]), Tasks(cfg, records[1..]));
    }
  }

  lemma {:induction false} HandleRecordsRequests(cfg: Config, spawn: Spawner, w: World, records: seq<Project>)
    ensures Requests(HandleRecords(cfg, spawn, w, records).trace) == Requests(w.trace)
    decreases |records|
  {
    if records != [] {
      HandleRecordRequests(cfg, spawn, w, records[0]);
      HandleRecordsRequests(cfg, spawn, HandleRecord(cfg, spawn, w, records[0]), records[1..]);
    }
  }

  /** Logging a page request adds no clone and no directory. */
  lemma LogRequestClones(w: World, url: string)
    ensures Clones(Log(w, Request(url)).trace) == Clones(w.trace)
    ensures Log(w, Request(url)).dirs == w.dirs
    ensures Requests(Log(w, Request(url)).trace) == Requests(w.trace) + [url]
  {
    ClonesAppend(w.trace, [Request(url)]);
    RequestsAppend(w.trace, [Request(url)]);
  }

  /** How projects unfolds at a page the walk reaches. */
  lemma ProjectsFromUnfold(cfg: Config, spawn: Spawner, w: World, g: Group, page: nat)
    requires 1 <= page <= |Leading(g.projectPages)| + 1
    ensures var delivered, w1 := Leading(g.projectPages), Log(w, PageRequest(cfg, ProjectsUrl(cfg, g.id), page));
            if page == |delivered| + 1 then
              ProjectsFrom(cfg, spawn, w, g, page) == w1 && Records(delivered[page - 1..]) == []
            else
              var records := g.projectPages[page - 1].records;
              ProjectsFrom(cfg, spawn, w, g, page)
                == ProjectsFrom(cfg, spawn, HandleRecords(cfg, spawn, w1, records), g, page + 1)
              && Records(delivered[page - 1..]) == records + Records(delivered[page..])
  {
    var delivered := Leading(g.projectPages);
    if page == |delivered| + 1 {
      assert PageAt(g.projectPages, page) == [];
      assert delivered[page - 1..] == [];
    } else {
      assert delivered[page - 1] == g.projectPages[page - 1];
      assert delivered[page - 1..][1..] == delivered[page..];
    }
  }

  /**
   * projects from page `page` on, for a page the walk reaches (at most one
   * past the delivered ones): the clones of the records of the delivered
   * pages from there on, in order.
   */
  lemma {:induction false} ProjectsFromClones(cfg: Config, spawn: Spawner, w: World, g: Group, page: nat)
    requires 1 <= page <= |Leading(g.projectPages)| + 1
    ensures Runs(cfg, w, ProjectsFrom(cfg, spawn, w, g, page),
                 Tasks(cfg, Records(Leading(g.projectPages)[page - 1..])))
    decreases Remaining(g.projectPages, page)
  {
    var delivered := Leading(g.projectPages);
    var request := PageRequest(cfg, ProjectsUrl(cfg, g.id), page);
    var w1 := Log(w, request);
    LogRequestClones(w, request.url);
    ProjectsFromUnfold(cfg, spawn, w, g, page);
    if page == |delivered| + 1 {
      assert Tasks(cfg, []) == [];
    } else {
      var records := g.projectPages[page - 1].records;
      var w2 := HandleRecords(cfg, spawn, w1, records);
      HandleRecordsClones(cfg, spawn, w1, records);
      var w3 := ProjectsFrom(cfg, spawn, w2, g, page + 1);
      ProjectsFromClones(cfg, spawn, w2, g, page + 1);
      Compose(cfg, w1, w2, w3, Tasks(cfg, records), Tasks(cfg, Records(delivered[page..])));
      TasksAppend(cfg, records, Records(delivered[page..]));
    }
  }

  /**
   * The walk of one group's tree runs the clones of the tree's projects in
   * depth-first pre-order, excluded namespaces left out, and leaves their
   * working directories in place.
   */
  lemma {:induction false} GroupWalkClones(cfg: Config, spawn: Spawner, w: World, g: Group)
    ensures Runs(cfg, w, GroupWalk(cfg, spawn, w, g), Tasks(cfg, Preorder(g)))
    decreases g, 2, 0, 0
  {
    var own := Records(Leading(g.projectPages));
    var below := SubtreesFrom(g, 0);
    assert Leading(g.projectPages)[0..] == Leading(g.projectPages);
    var w1 := ProjectsFrom(cfg, spawn, w, g, 1);
    ProjectsFromClones(cfg, spawn, w, g, 1);
    var w2 := SubGroupsFrom(cfg, spawn, w1, SubGroupsUrl(cfg, g.id), g, 1);
    SubGroupsFromClones(cfg, spawn, w1, SubGroupsUrl(cfg, g.id), g, 1);
    Compose(cfg, w, w1, w2, Tasks(cfg, own), Tasks(cfg, below));
    TasksAppend(cfg, own, below);
  }

  lemma {:induction false} SubGroupsFromClones(cfg: Config, spawn: Spawner, w: World, resource: string,
                                               owner: Group, page: nat)
    requires 1 <= page <= |Leading(owner.subgroupPages)| + 1
    ensures Runs(cfg, w, SubGroupsFrom(cfg, spawn, w, resource, owner, page),
                 Tasks(cfg, SubtreesFrom(owner, page - 1)))
    decreases owner, 1, Remaining(owner.subgroupPages, page), 0
  {
    var delivered := Leading(owner.subgroupPages);
    var request := PageRequest(cfg, resource, page);
    var w1 := Log(w, request);
    LogRequestClones(w, request.url);
    if page == |delivered| + 1 {
      assert PageAt(owner.subgroupPages, page) == [];
      assert SubtreesFrom(owner, page - 1) == [];
    } else {
      assert delivered[page - 1] == owner.subgroupPages[page - 1];
      var here := SubtreesOn(owner, page - 1, 0);
      var later := SubtreesFrom(owner, page);
      var w2 := EachSubGroup(cfg, spawn, w1, owner, page, 0);
      EachSubGroupClones(cfg, spawn, w1, owner, page, 0);
      var w3 := SubGroupsFrom(cfg, spawn, w2, resource, owner, page + 1);
      SubGroupsFromClones(cfg, spawn, w2, resource, owner, page + 1);
      Compose(cfg, w1, w2, w3, Tasks(cfg, here), Tasks(cfg, later));
      TasksAppend(cfg, here, later);
    }
  }

  lemma {:induction false} EachSubGroupClones(cfg: Config, spawn: Spawner, w: World, owner: Group,
                                              page: nat, k: nat)
    requires 1 <= page <= |owner.subgroupPages|
    ensures Runs(cfg, w, EachSubGroup(cfg, spawn, w, owner, page, k), Tasks(cfg, SubtreesOn(owner, page - 1, k)))
    decreases owner, 0, 0, |owner.subgroupPages[page - 1].records| - k
  {
    var groups := owner.subgroupPages[page - 1].records;
    if k < |groups| {
      var tree := Preorder(groups[k]);
      var rest := SubtreesOn(owner, page - 1, k + 1);
      var w1 := GroupWalk(cfg, spawn, w, groups[k]);
      GroupWalkClones(cfg, spawn, w, groups[k]);
      var w2 := EachSubGroup(cfg, spawn, w1, owner, page, k + 1);
      EachSubGroupClones(cfg, spawn, w1, owner, page, k + 1);
      Compose(cfg, w, w1, w2, Tasks(cfg, tree), Tasks(cfg, rest));
      TasksAppend(cfg, tree, rest);
    }
  }

  /** cloneAllCanAccess runs the clones of every accessible group's tree, group after group. */
  lemma CloneAllClones(cfg: Config, spawn: Spawner, w: World, groups: seq<Page<Group>>)
    ensures Runs(cfg, w, CloneAllWalk(cfg, spawn, w, groups), Tasks(cfg, Preorder(Root(groups))))
  {
    SubGroupsFromClones(cfg, spawn, w, GroupsUrl(cfg), Root(groups), 1);
    assert Leading(Root(groups).projectPages) == [];
    assert Records<Project>([]) == [];
    assert Preorder(Root(groups)) == SubtreesFrom(Root(groups), 0);
  }

  /**
   * A clone that fails, at spawn or while waiting, never stops the walk: the
   * clones run and the directories left are the same whatever the outcome of
   * each process, even when outcomes depend on the machine's state and on
   * everything run before, so that the same clone may end differently.
   */
  lemma FailureIsolation(cfg: Config, spawn1: Spawner, spawn2: Spawner, w: World, g: Group)
    ensures Clones(GroupWalk(cfg, spawn1, w, g).trace) == Clones(GroupWalk(cfg, spawn2, w, g).trace)
    ensures GroupWalk(cfg, spawn1, w, g).dirs == GroupWalk(cfg, spawn2, w, g).dirs
  {
    GroupWalkClones(cfg, spawn1, w, g);
    GroupWalkClones(cfg, spawn2, w, g);
  }

  /**
   * On a file system where the parents of every directory exist, the walk of
   * a tree leaves the directories there were, plus the working directory of
   * each clone with its parents, and the parents of every directory still
   * exist.
   */
  lemma GroupWalkDirs(cfg: Config, spawn: Spawner, w: World, g: Group)
    requires Closed(cfg, w.dirs)
    ensures GroupWalk(cfg, spawn, w, g).dirs == w.dirs + TaskDirs(cfg, Tasks(cfg, Preorder(g)))
    ensures Closed(cfg, GroupWalk(cfg, spawn, w, g).dirs)
  {
    GroupWalkClones(cfg, spawn, w, g);
    DirsAfterClosed(cfg, w.dirs, Tasks(cfg, Preorder(g)));
  }

  // ---------------------------------------------------------------------------
  // The log is a well-formed run
  // ---------------------------------------------------------------------------

  /**
   * Replays a log from the directories d, and answers the directories at its
   * end, or None at the first action that breaks the rules: a directory made
   * that already exists, a clone run in a directory that does not exist, a
   * created process not destroyed by the next action, or a destroy that
   * follows no created process.
   */
  function Replay(cfg: Config, d: set<string>, t: seq<Event>): Option<set<string>>
    decreases |t|
  {
    if t == [] then Some(d)
    else match t[0]
      case Request(_) => Replay(cfg, d, t[1..])
      case MakeDirs(dir) =>
        if dir in d then None else Replay(cfg, d + WithParents(PathSeparators(cfg), dir), t[1..])
      case Exec(dir, _, outcome) =>
        if dir !in d then None
        else if outcome == SpawnFailed then Replay(cfg, d, t[1..])
        else if |t| >= 2 && t[1] == Destroy(dir) then Replay(cfg, d, t[2..])
        else None
      case Destroy(_) => None
  }

  /** w is what a well-formed run makes of a machine whose directories were d0. */
  predicate WellFormed(cfg: Config, d0: set<string>, w: World)
  {
    Replay(cfg, d0, w.trace) == Some(w.dirs)
  }

  lemma {:induction false} ReplayAppend(cfg: Config, d: set<string>, t: seq<Event>, u: seq<Event>)
    requires Replay(cfg, d, t).Some?
    ensures Replay(cfg, d, t + u) == Replay(cfg, Replay(cfg, d, t).value, u)
    decreases |t|
  {
    if t == [] {
      assert t + u == u;
    } else {
      assert (t + u)[0] == t[0];
      assert (t + u)[1..] == t[1..] + u;
      if t[0].Request? {
        ReplayAppend(cfg, d, t[1..], u);
      } else if t[0].MakeDirs? {
        ReplayAppend(cfg, d + WithParents(PathSeparators(cfg), t[0].dir), t[1..], u);
      } else if t[0].Exec? {
        if t[0].outcome == SpawnFailed {
          ReplayAppend(cfg, d, t[1..], u);
        } else {
          assert (t + u)[1] == t[1];
          assert (t + u)[2..] == t[2..] + u;
          ReplayAppend(cfg, d, t[2..], u);
        }
      }
    }
  }

  /** A well-formed log destroys every process it creates at once, and destroys nothing else. */
  lemma {:induction false} ReplayReleases(cfg: Config, d: set<string>, t: seq<Event>)
    requires Replay(cfg, d, t).Some?
    ensures forall i :: 0 <= i < |t| && t[i].Exec? && t[i].outcome != SpawnFailed
                        ==> i + 1 < |t| && t[i + 1] == Destroy(t[i].dir)
    ensures forall i :: 0 <= i < |t| && t[i].Destroy?
                        ==> 0 < i && t[i - 1].Exec? && t[i - 1].dir == t[i].dir
                            && t[i - 1].outcome != SpawnFailed
    decreases |t|
  {
    if t != [] {
      var skip := if t[0].Exec? && t[0].outcome != SpawnFailed then 2 else 1;
      var d' := if t[0].MakeDirs? then d + WithParents(PathSeparators(cfg), t[0].dir) else d;
      assert Replay(cfg, d, t) == Replay(cfg, d', t[skip..]);
      ReplayReleases(cfg, d', t[skip..]);
      forall i | skip <= i < |t|
        ensures t[i] == t[skip..][i - skip]
      {
      }
    }
  }

  lemma ReplayDirsSet(cfg: Config, d: set<string>, e: Event)
    requires !e.Destroy? && !e.Exec?
    ensures Replay(cfg, d, [e]) == if e.MakeDirs? then (if e.dir in d then None else Some(d + WithParents(PathSeparators(cfg), e.dir))) else Some(d)
  {
    assert [e][1..] == [];
  }

  /** One record keeps the run well-formed. */
  lemma HandleRecordWellFormed(cfg: Config, spawn: Spawner, d0: set<string>, w: World, p: Project)
    requires WellFormed(cfg, d0, w)
    ensures WellFormed(cfg, d0, HandleRecord(cfg, spawn, w, p))
  {
    if !Excluded(cfg, p.fullPath) {
      var dir := WorkDir(cfg, p.fullPath);
      var command := CloneCommand(p);
      var made: seq<Event> := if dir in w.dirs then [] else [MakeDirs(dir)];
      var w1 := if dir in w.dirs then w else World(w.dirs + WithParents(PathSeparators(cfg), dir), w.trace + made);
      var d1 := w1.dirs;
      var outcome := spawn(w1, dir, command);
      var released: seq<Event> := if outcome == SpawnFailed then [] else [Destroy(dir)];
      var run := [Exec(dir, command, outcome)] + released;
      var added := made + run;
      assert HandleRecord(cfg, spawn, w, p).trace == w.trace + added;
      assert Replay(cfg, d1, run) == Some(d1) by {
        if outcome == SpawnFailed {
          assert run[1..] == [];
        } else {
          assert run[1] == Destroy(dir);
          assert run[2..] == [];
        }
      }
      if dir in w.dirs {
        assert added == run;
      } else {
        assert added[1..] == run;
      }
      assert Replay(cfg, w.dirs, added) == Some(d1);
      ReplayAppend(cfg, d0, w.trace, added);
    }
  }

  lemma {:induction false} HandleRecordsWellFormed(cfg: Config, spawn: Spawner, d0: set<string>, w: World,
                                                   records: seq<Project>)
    requires WellFormed(cfg, d0, w)
    ensures WellFormed(cfg, d0, HandleRecords(cfg, spawn, w, records))
    decreases |records|
  {
    if records != [] {
      HandleRecordWellFormed(cfg, spawn, d0, w, records[0]);
      HandleRecordsWellFormed(cfg, spawn, d0, HandleRecord(cfg, spawn, w, records[0]), records[1..]);
    }
  }

  /** A page request keeps the run well-formed. */
  lemma LogRequestWellFormed(cfg: Config, d0: set<string>, w: World, url: string)
    requires WellFormed(cfg, d0, w)
    ensures WellFormed(cfg, d0, Log(w, Request(url)))
  {
    ReplayAppend(cfg, d0, w.trace, [Request(url)]);
    ReplayDirsSet(cfg, w.dirs, Request(url));
  }

  lemma {:induction false} ProjectsFromWellFormed(cfg: Config, spawn: Spawner, d0: set<string>, w: World,
                                                  g: Group, page: nat)
    requires WellFormed(cfg, d0, w)
    ensures WellFormed(cfg, d0, ProjectsFrom(cfg, spawn, w, g, page))
    decreases Remaining(g.projectPages, page)
  {
    var w1 := Log(w, PageRequest(cfg, ProjectsUrl(cfg, g.id), page));
    LogRequestWellFormed(cfg, d0, w, PageRequest(cfg, ProjectsUrl(cfg, g.id), page).url);
    var records := PageAt(g.projectPages, page);
    if records != [] {
      HandleRecordsWellFormed(cfg, spawn, d0, w1, records);
      ProjectsFromWellFormed(cfg, spawn, d0, HandleRecords(cfg, spawn, w1, records), g, page + 1);
    }
  }

  /** The walk of a group's tree keeps the run well-formed. */
  lemma {:induction false} GroupWalkWellFormed(cfg: Config, spawn: Spawner, d0: set<string>, w: World, g: Group)
    requires WellFormed(cfg, d0, w)
    ensures WellFormed(cfg, d0, GroupWalk(cfg, spawn, w, g))
    decreases g, 2, 0, 0
  {
    ProjectsFromWellFormed(cfg, spawn, d0, w, g, 1);
    SubGroupsFromWellFormed(cfg, spawn, d0, ProjectsFrom(cfg, spawn, w, g, 1), SubGroupsUrl(cfg, g.id), g, 1);
  }

  lemma {:induction false} SubGroupsFromWellFormed(cfg: Config, spawn: Spawner, d0: set<string>, w: World,
                                                   resource: string, owner: Group, page: nat)
    requires WellFormed(cfg, d0, w)
    ensures WellFormed(cfg, d0, SubGroupsFrom(cfg, spawn, w, resource, owner, page))
    decreases owner, 1, Remaining(owner.subgroupPages, page), 0
  {
    var w1 := Log(w, PageRequest(cfg, resource, page));
    LogRequestWellFormed(cfg, d0, w, PageRequest(cfg, resource, page).url);
    if PageAt(owner.subgroupPages, page) != [] {
      EachSubGroupWellFormed(cfg, spawn, d0, w1, owner, page, 0);
      SubGroupsFromWellFormed(cfg, spawn, d0, EachSubGroup(cfg, spawn, w1, owner, page, 0), resource, owner, page + 1);
    }
  }

  lemma {:induction false} EachSubGroupWellFormed(cfg: Config, spawn: Spawner, d0: set<string>, w: World,
                                                  owner: Group, page: nat, k: nat)
    requires 1 <= page <= |owner.subgroupPages|
    requires WellFormed(cfg, d0, w)
    ensures WellFormed(cfg, d0, EachSubGroup(cfg, spawn, w, owner, page, k))
    decreases owner, 0, 0, |owner.subgroupPages[page - 1].records| - k
  {
    var groups := owner.subgroupPages[page - 1].records;
    if k < |groups| {
      GroupWalkWellFormed(cfg, spawn, d0, w, groups[k]);
      EachSubGroupWellFormed(cfg, spawn, d0, GroupWalk(cfg, spawn, w, groups[k]), owner, page, k + 1);
    }
  }

  /**
   * cloneByGroup and cloneAllCanAccess, started on a machine with the
   * directories `existing` and an empty log, each leave a well-formed run,
   * so every process they create is destroyed right after it.
   */
  lemma EntryPointsWellFormed(cfg: Config, spawn: Spawner, existing: set<string>, g: Group,
                              groups: seq<Page<Group>>)
    ensures WellFormed(cfg, existing, GroupWalk(cfg, spawn, World(existing, []), g))
    ensures WellFormed(cfg, existing, CloneAllWalk(cfg, spawn, World(existing, []), groups))
  {
    GroupWalkWellFormed(cfg, spawn, existing, World(existing, []), g);
    SubGroupsFromWellFormed(cfg, spawn, existing, World(existing, []), GroupsUrl(cfg), Root(groups), 1);
  }

  // ---------------------------------------------------------------------------
  // Pagination
  // ---------------------------------------------------------------------------

  /** The URLs of `count` consecutive pages of a listing, from page `from`. */
  function PageUrls(cfg: Config, resource: string, from: nat, count: nat): (r: seq<string>)
    ensures |r| == count
    ensures forall i :: 0 <= i < count ==> r[i] == ListingUrl(cfg, resource, from + i)
    decreases count
  {
    if count == 0 then [] else [ListingUrl(cfg, resource, from)] + PageUrls(cfg, resource, from + 1, count - 1)
  }

  /** How many pages a listing walk requests from page `page` on: up to and including the first empty one. */
  function Requested<T>(pages: seq<Page<T>>, page: nat): (n: nat)
    ensures n >= 1
    decreases Remaining(pages, page)
  {
    if PageAt(pages, page) == [] then 1 else 1 + Requested(pages, page + 1)
  }

  /** From page 1, a listing walk requests each delivered page and the empty page after them. */
  lemma {:induction false} RequestedDelivered<T>(pages: seq<Page<T>>, page: nat)
    requires 1 <= page <= |Leading(pages)| + 1
    ensures Requested(pages, page) == |Leading(pages)| + 2 - page
    decreases Remaining(pages, page)
  {
    var delivered := Leading(pages);
    if page <= |delivered| {
      assert delivered[page - 1] == pages[page - 1];
      RequestedDelivered(pages, page + 1);
    }
  }

  /**
   * projects requests the pages of its listing in order, from `page` up to
   * and including the first page that comes back empty, and nothing else.
   */
  lemma {:induction false} ProjectsFromRequests(cfg: Config, spawn: Spawner, w: World, g: Group, page: nat)
    ensures Requests(ProjectsFrom(cfg, spawn, w, g, page).trace)
            == Requests(w.trace) + PageUrls(cfg, ProjectsUrl(cfg, g.id), page, Requested(g.projectPages, page))
    decreases Remaining(g.projectPages, page)
  {
    var resource := ProjectsUrl(cfg, g.id);
    var w1 := Log(w, Request(ListingUrl(cfg, resource, page)));
    var url := ListingUrl(cfg, resource, page);
    var records := PageAt(g.projectPages, page);
    var count := Requested(g.projectPages, page);
    var later := PageUrls(cfg, resource, page + 1, count - 1);
    assert Requests(w1.trace) == Requests(w.trace) + [url] by {
      LogRequestClones(w, url);
    }
    assert PageUrls(cfg, resource, page, count) == [url] + later;
    if records != [] {
      var w2 := HandleRecords(cfg, spawn, w1, records);
      var w3 := ProjectsFrom(cfg, spawn, w2, g, page + 1);
      assert Requests(w2.trace) == Requests(w1.trace) by {
        HandleRecordsRequests(cfg, spawn, w1, records);
      }
      assert Requests(w3.trace) == Requests(w2.trace) + later by {
        ProjectsFromRequests(cfg, spawn, w2, g, page + 1);
      }
      assert w3 == ProjectsFrom(cfg, spawn, w, g, page);
      RequestsChain(w, w2, w3, [url], later);
    }
  }

  lemma RequestsChain(w0: World, w1: World, w2: World, a: seq<string>, b: seq<string>)
    requires Requests(w1.trace) == Requests(w0.trace) + a
    requires Requests(w2.trace) == Requests(w1.trace) + b
    ensures Requests(w2.trace) == Requests(w0.trace) + (a + b)
  {
  }

  /** When no page of the listing is empty, projects requests each page and one more. */
  lemma ProjectsRequestsAllPages(cfg: Config, spawn: Spawner, w: World, g: Group)
    requires forall i :: 0 <= i < |g.projectPages| ==> g.projectPages[i].records != []
    ensures Requests(ProjectsFrom(cfg, spawn, w, g, 1).trace)
            == Requests(w.trace) + PageUrls(cfg, ProjectsUrl(cfg, g.id), 1, |g.projectPages| + 1)
  {
    LeadingOfNonEmpty(g.projectPages);
    ProjectsFromRequests(cfg, spawn, w, g, 1);
    RequestedDelivered(g.projectPages, 1);
  }

  /**
   * Alternates the page requests of a listing with what is requested between
   * them: urls[0], between[0], urls[1], between[1], ..., and the URLs left.
   */
  function Interleave(urls: seq<string>, between: seq<seq<string>>): seq<string>
    decreases |between|
  {
    if urls == [] || between == [] then urls
    else [urls[0]] + between[0] + Interleave(urls[1..], between[1..])
  }

  /**
   * What the walk of a group's tree requests, read off the tree alone: the
   * group's project pages up to the first empty one, then its subgroup pages
   * up to the first empty one, each delivered subgroup page followed by the
   * requests of the trees of the groups on it.
   */
  function TreeRequests(cfg: Config, g: Group): seq<string>
    decreases g, 2, 0, 0
  {
    PageUrls(cfg, ProjectsUrl(cfg, g.id), 1, Requested(g.projectPages, 1))
    + Interleave(PageUrls(cfg, SubGroupsUrl(cfg, g.id), 1, Requested(g.subgroupPages, 1)), PagesRequests(cfg, g, 0))
  }

  /** For each delivered subgroup page from index p on, the requests of the trees on it. */
  function PagesRequests(cfg: Config, g: Group, p: nat): (r: seq<seq<string>>)
    ensures |r| == if p <= |Leading(g.subgroupPages)| then |Leading(g.subgroupPages)| - p else 0
    decreases g, 1, if p <= |g.subgroupPages| then |g.subgroupPages| - p else 0, 0
  {
    if p >= |Leading(g.subgroupPages)| then [] else [OnPage(cfg, g, p, 0)] + PagesRequests(cfg, g, p + 1)
  }

  /** The requests of the trees of the groups on subgroup page index p, from position k on. */
  function OnPage(cfg: Config, g: Group, p: nat, k: nat): seq<string>
    requires p < |g.subgroupPages|
    decreases g, 0, 0, |g.subgroupPages[p].records| - k
  {
    var groups := g.subgroupPages[p].records;
    if k >= |groups| then [] else TreeRequests(cfg, groups[k]) + OnPage(cfg, g, p, k + 1)
  }

  /**
   * The walk of a group's tree requests exactly what the tree calls for, in
   * that order, whatever becomes of the clones.
   */
  lemma {:induction false} GroupWalkRequests(cfg: Config, spawn: Spawner, w: World, g: Group)
    ensures Requests(GroupWalk(cfg, spawn, w, g).trace) == Requests(w.trace) + TreeRequests(cfg, g)
    decreases g, 2, 0, 0
  {
    var w1 := ProjectsFrom(cfg, spawn, w, g, 1);
    var w2 := SubGroupsFrom(cfg, spawn, w1, SubGroupsUrl(cfg, g.id), g, 1);
    var own := PageUrls(cfg, ProjectsUrl(cfg, g.id), 1, Requested(g.projectPages, 1));
    var below := Interleave(PageUrls(cfg, SubGroupsUrl(cfg, g.id), 1, Requested(g.subgroupPages, 1)),
                            PagesRequests(cfg, g, 0));
    assert Requests(w1.trace) == Requests(w.trace) + own by {
      ProjectsFromRequests(cfg, spawn, w, g, 1);
    }
    assert Requests(w2.trace) == Requests(w1.trace) + below by {
      SubGroupsFromRequests(cfg, spawn, w1, SubGroupsUrl(cfg, g.id), g, 1);
    }
    RequestsChain(w, w1, w2, own, below);
  }

  /**
   * A listing of groups requests its pages in order, from `page` up to and
   * including the first empty one, and after each delivered page the
   * requests of the trees of the groups on it.
   */
  lemma {:induction false} SubGroupsFromRequests(cfg: Config, spawn: Spawner, w: World, resource: string,
                                                 owner: Group, page: nat)
    requires 1 <= page <= |Leading(owner.subgroupPages)| + 1
    ensures Requests(SubGroupsFrom(cfg, spawn, w, resource, owner, page).trace)
            == Requests(w.trace) + Interleave(PageUrls(cfg, resource, page, Requested(owner.subgroupPages, page)),
                                              PagesRequests(cfg, owner, page - 1))
    decreases owner, 1, Remaining(owner.subgroupPages, page), 0
  {
    var delivered := Leading(owner.subgroupPages);
    var url := ListingUrl(cfg, resource, page);
    var w1 := Log(w, Request(url));
    var count := Requested(owner.subgroupPages, page);
    var later := PageUrls(cfg, resource, page + 1, count - 1);
    assert Requests(w1.trace) == Requests(w.trace) + [url] by {
      LogRequestClones(w, url);
    }
    if page == |delivered| + 1 {
      assert PageAt(owner.subgroupPages, page) == [];
      assert PageUrls(cfg, resource, page, count) == [url];
    } else {
      var here := OnPage(cfg, owner, page - 1, 0);
      var rest := Interleave(later, PagesRequests(cfg, owner, page));
      var w2 := EachSubGroup(cfg, spawn, w1, owner, page, 0);
      var w3 := SubGroupsFrom(cfg, spawn, w2, resource, owner, page + 1);
      assert w3 == SubGroupsFrom(cfg, spawn, w, resource, owner, page) by {
        assert delivered[page - 1] == owner.subgroupPages[page - 1];
      }
      assert Requests(w2.trace) == Requests(w1.trace) + here by {
        EachSubGroupRequests(cfg, spawn, w1, owner, page, 0);
      }
      assert Requests(w3.trace) == Requests(w2.trace) + rest by {
        SubGroupsFromRequests(cfg, spawn, w2, resource, owner, page + 1);
      }
      assert Interleave(PageUrls(cfg, resource, page, count), PagesRequests(cfg, owner, page - 1))
             == [url] + (here + rest) by {
        assert PageUrls(cfg, resource, page, count) == [url] + later;
        assert PagesRequests(cfg, owner, page - 1) == [here] + PagesRequests(cfg, owner, page);
        InterleaveStep(url, later, here, PagesRequests(cfg, owner, page));
      }
      RequestsChain(w1, w2, w3, here, rest);
      RequestsChain(w, w1, w3, [url], here + rest);
    }
  }

  lemma InterleaveStep(url: string, later: seq<string>, here: seq<string>, pages: seq<seq<string>>)
    ensures Interleave([url] + later, [here] + pages) == [url] + (here + Interleave(later, pages))
  {
    assert ([url] + later)[1..] == later && ([here] + pages)[1..] == pages;
  }

  /** The groups on one subgroup page, from position k on, request their trees' requests in order. */
  lemma {:induction false} EachSubGroupRequests(cfg: Config, spawn: Spawner, w: World, owner: Group,
                                                page: nat, k: nat)
    requires 1 <= page <= |owner.subgroupPages|
    ensures Requests(EachSubGroup(cfg, spawn, w, owner, page, k).trace)
            == Requests(w.trace) + OnPage(cfg, owner, page - 1, k)
    decreases owner, 0, 0, |owner.subgroupPages[page - 1].records| - k
  {
    var groups := owner.subgroupPages[page - 1].records;
    if k < |groups| {
      var w1 := GroupWalk(cfg, spawn, w, groups[k]);
      var w2 := EachSubGroup(cfg, spawn, w1, owner, page, k + 1);
      assert Requests(w1.trace) == Requests(w.trace) + TreeRequests(cfg, groups[k]) by {
        GroupWalkRequests(cfg, spawn, w, groups[k]);
      }
      assert Requests(w2.trace) == Requests(w1.trace) + OnPage(cfg, owner, page - 1, k + 1) by {
        EachSubGroupRequests(cfg, spawn, w1, owner, page, k + 1);
      }
      RequestsChain(w, w1, w2, TreeRequests(cfg, groups[k]), OnPage(cfg, owner, page - 1, k + 1));
    }
  }

  /**
   * With one more page than gaps, the interleaving starts with the request
   * of the first page and ends with that of the last: nothing is requested
   * after a listing's empty page.
   */
  lemma {:induction false} InterleavePages(urls: seq<string>, between: seq<seq<string>>)
    requires |urls| == |between| + 1
    ensures |Interleave(urls, between)| > 0 && Interleave(urls, between)[0] == urls[0]
    ensures Interleave(urls, between)[|Interleave(urls, between)| - 1] == urls[|urls| - 1]
    decreases |between|
  {
    if between != [] {
      InterleavePages(urls[1..], between[1..]);
    }
  }

  /**
   * cloneAllCanAccess requests the pages of the listing of all groups in
   * order, page 1 up to and including the first that comes back empty, and
   * after each delivered page the requests of the trees of the groups on it.
   */
  lemma CloneAllRequests(cfg: Config, spawn: Spawner, w: World, groups: seq<Page<Group>>)
    ensures Requests(CloneAllWalk(cfg, spawn, w, groups).trace)
            == Requests(w.trace) + Interleave(PageUrls(cfg, GroupsUrl(cfg), 1, |Leading(groups)| + 1),
                                              PagesRequests(cfg, Root(groups), 0))
  {
    SubGroupsFromRequests(cfg, spawn, w, GroupsUrl(cfg), Root(groups), 1);
    RequestedDelivered(groups, 1);
  }

  /** The three query parameters supplierPerPages puts in a listing URL. */
  function ListingParams(cfg: Config, page: nat): seq<OkHttpCli.Entry>
  {
    [("private_token", cfg.token), ("per_page", "50"), ("page", NatToString(page))]
  }

  /** Maps.toUrl of the listing parameters is the query text supplierPerPages formats. */
  lemma ListingParamsToUrl(cfg: Config, page: nat)
    ensures OkHttpCli.ToUrl(ListingParams(cfg, page))
            == "private_token=" + cfg.token + "&per_page=50&page=" + NatToString(page)
  {
    var n := NatToString(page);
    var p0, p1, p2 := "private_token=" + cfg.token, "per_page=50", "page=" + n;
    ListingPairs(cfg, page);
    JoinThree(p0, p1, p2, "&");
    ListingText(cfg.token, n);
  }

  lemma ListingPairs(cfg: Config, page: nat)
    ensures OkHttpCli.Pairs(ListingParams(cfg, page))
            == ["private_token=" + cfg.token, "per_page=50", "page=" + NatToString(page)]
  {
    var m := ListingParams(cfg, page);
    assert OkHttpCli.Pair(m[0]) == "private_token=" + cfg.token;
    assert OkHttpCli.Pair(m[1]) == "per_page=50";
    assert OkHttpCli.Pair(m[2]) == "page=" + NatToString(page);
  }

  lemma ListingText(token: string, n: string)
    ensures "private_token=" + token + "&" + ("per_page=50" + "&" + ("page=" + n))
            == "private_token=" + token + "&per_page=50&page=" + n
  {
    assert "&" + ("per_page=50" + "&" + ("page=" + n)) == "&per_page=50&page=" + n;
  }

  lemma JoinThree(a: string, b: string, c: string, sep: string)
    ensures Join([a, b, c], sep) == a + sep + (b + sep + c)
  {
    assert [a, b, c][1..] == [b, c] && [b, c][1..] == [c];
    assert Join([c], sep) == c;
    assert Join([b, c], sep) == b + sep + c;
  }

  /**
   * The listing URL carries the token, the page size 50 and the page number
   * as a query string that reads back as exactly those three parameters.
   */
  lemma ListingQuery(cfg: Config, resource: string, page: nat)
    requires '&' !in cfg.token
    ensures var url := ListingUrl(cfg, resource, page);
            |url| > |resource| && url[..|resource| + 1] == resource + "?"
            && OkHttpCli.ParseQuery(url[|resource| + 1..]) == ListingParams(cfg, page)
  {
    var q := OkHttpCli.ToUrl(ListingParams(cfg, page));
    var url := ListingUrl(cfg, resource, page);
    assert url == resource + "?" + q by {
      ListingParamsToUrl(cfg, page);
    }
    assert url[..|resource| + 1] == resource + "?" && url[|resource| + 1..] == q;
    ListingSafe(cfg, page);
    OkHttpCli.ToUrlRoundTrip(ListingParams(cfg, page));
  }

  /** The listing parameters carry no '&' and their keys no '='. */
  lemma ListingSafe(cfg: Config, page: nat)
    requires '&' !in cfg.token
    ensures OkHttpCli.QuerySafe(ListingParams(cfg, page))
  {
    var n := NatToString(page);
    assert '&' !in n by {
      forall k | 0 <= k < |n| ensures n[k] != '&' { }
    }
  }

  // ---------------------------------------------------------------------------
  // Exclusion, working directories and a whole walk
  // ---------------------------------------------------------------------------

  /** With the source's tokens, a namespace is excluded iff it contains "hengshan" or "lushan". */
  lemma ExcludedSource(separator: string, path: string)
    ensures Excluded(SourceConfig(separator), path) <==> Contains(path, "hengshan") || Contains(path, "lushan")
  {
    var cfg := SourceConfig(separator);
    assert cfg.excluded[0] == "hengshan" && cfg.excluded[1] == "lushan";
  }

  /** A namespace holding "hengshan" or "lushan" anywhere, even inside a word, is excluded. */
  lemma ExcludedAnywhere(separator: string, before: string, after: string)
    ensures Excluded(SourceConfig(separator), before + "hengshan" + after)
    ensures Excluded(SourceConfig(separator), before + "lushan" + after)
  {
    var cfg := SourceConfig(separator);
    ContainsInfix(before, "hengshan", after);
    ContainsInfix(before, "lushan", after);
    assert cfg.excluded[0] == "hengshan" && cfg.excluded[1] == "lushan";
  }

  /** A namespace without the letter 'n' holds neither token, so it is cloned. */
  lemma KeptWithoutN(separator: string, path: string)
    requires 'n' !in path
    ensures !Excluded(SourceConfig(separator), path)
  {
    var cfg := SourceConfig(separator);
    if Contains(path, "hengshan") {
      ContainsChars(path, "hengshan", 2);
    }
    if Contains(path, "lushan") {
      ContainsChars(path, "lushan", 5);
    }
  }

  /** Distinct namespaces get distinct working directories. */
  lemma WorkDirInjective(cfg: Config, a: string, b: string)
    requires WorkDir(cfg, a) == WorkDir(cfg, b)
    ensures a == b
  {
    var prefix := cfg.rootPath + cfg.separator;
    assert a == WorkDir(cfg, a)[|prefix|..];
    assert b == WorkDir(cfg, b)[|prefix|..];
  }

  /**
   * The working directory lies under the root path: mkdirs of a working
   * directory makes the root path too when it is missing.
   */
  lemma WorkDirUnderRoot(cfg: Config, fullPath: string)
    requires |cfg.rootPath| > 0 && |cfg.separator| == 1
    ensures cfg.rootPath in Parents(PathSeparators(cfg), WorkDir(cfg, fullPath))
  {
    var dir := WorkDir(cfg, fullPath);
    var n := |cfg.rootPath|;
    assert dir[n] == cfg.separator[0] && dir[..n] == cfg.rootPath;
  }

  /**
   * Runtime.exec splits the command at white space: the clone runs git with
   * the arguments clone and the project's ssh URL, when that URL holds no
   * space.
   */
  lemma CloneCommandTokens(p: Project)
    requires ' ' !in p.sshUrl
    ensures Split(CloneCommand(p), ' ') == ["git", "clone", p.sshUrl]
  {
    JoinThree("git", "clone", p.sshUrl, " ");
    assert CloneCommand(p) == Join(["git", "clone", p.sshUrl], " ");
    SplitJoin(["git", "clone", p.sshUrl], ' ');
  }

  /** A path without separators has no parents. */
  lemma ParentsNone(seps: set<char>, path: string)
    requires forall k :: 0 <= k < |path| ==> path[k] !in seps
    ensures Parents(seps, path) == {}
  {
  }

  /**
   * The parents of a directory's child, named without separators, are the
   * directory and the directory's own parents.
   */
  lemma ParentsChild(seps: set<char>, dir: string, c: char, name: string)
    requires |dir| > 0 && c in seps
    requires forall k :: 0 <= k < |name| ==> name[k] !in seps
    ensures Parents(seps, dir + [c] + name) == WithParents(seps, dir)
  {
    var path := dir + [c] + name;
    forall x | x in Parents(seps, path)
      ensures x in WithParents(seps, dir)
    {
      var i :| 0 < i < |path| && path[i] in seps && x == path[..i];
      if i < |dir| {
        assert path[i] == dir[i] && x == dir[..i];
      } else {
        assert x == dir;
      }
    }
    forall x | x in WithParents(seps, dir)
      ensures x in Parents(seps, path)
    {
      if x == dir {
        assert path[|dir|] == c && path[..|dir|] == dir;
      } else {
        var i :| 0 < i < |dir| && dir[i] in seps && x == dir[..i];
        assert path[i] == dir[i] && path[..i] == x;
      }
    }
  }

  // A small tree: group 1 holds, on one page, the repository r1 of namespace
  // x/a and the repository r2 of namespace x/hengshan, and one subgroup,
  // group 2, which holds the repository r3 of namespace x/a/b.
  const ProjectA := Project(10, "git@gitlab.cbi.com:x/a/r1.git", "x/a")
  const ProjectH := Project(11, "git@gitlab.cbi.com:x/hengshan/r2.git", "x/hengshan")
  const ProjectB := Project(20, "git@gitlab.cbi.com:x/a/b/r3.git", "x/a/b")
  const SubGroup := Group(2, [Page([ProjectB])], [])
  const SmallTree := Group(1, [Page([ProjectA, ProjectH])], [Page([SubGroup])])

  /** The small tree in pre-order: the group's own projects, then its subgroup's. */
  lemma SmallTreePreorder()
    ensures Preorder(SmallTree) == [ProjectA, ProjectH, ProjectB]
  {
    assert Leading(SubGroup.projectPages) == [Page([ProjectB])];
    assert Leading(SmallTree.projectPages) == [Page([ProjectA, ProjectH])];
    assert Leading(SmallTree.subgroupPages) == [Page([SubGroup])];
    assert Records([Page([ProjectB])]) == [ProjectB];
    assert Records([Page([ProjectA, ProjectH])]) == [ProjectA, ProjectH];
    assert SubtreesFrom(SubGroup, 0) == [];
    assert Preorder(SubGroup) == [ProjectB];
    assert SubtreesOn(SmallTree, 0, 1) == [];
    assert SubtreesOn(SmallTree, 0, 0) == [ProjectB];
    assert SubtreesFrom(SmallTree, 1) == [];
  }

  lemma KeptA()
    ensures !Excluded(SourceConfig("/"), ProjectA.fullPath)
  {
    KeptWithoutN("/", "x/a");
  }

  lemma KeptB()
    ensures !Excluded(SourceConfig("/"), ProjectB.fullPath)
  {
    KeptWithoutN("/", "x/a/b");
  }

  lemma WorkDirOfA()
    ensures WorkDir(SourceConfig("/"), ProjectA.fullPath) == "D:/Code/backup-gitlab/x/a"
  {
  }

  lemma CommandOfA()
    ensures CloneCommand(ProjectA) == "git clone git@gitlab.cbi.com:x/a/r1.git"
  {
  }

  lemma WorkDirOfB()
    ensures WorkDir(SourceConfig("/"), ProjectB.fullPath) == "D:/Code/backup-gitlab/x/a/b"
  {
  }

  lemma CommandOfB()
    ensures CloneCommand(ProjectB) == "git clone git@gitlab.cbi.com:x/a/b/r3.git"
  {
  }

  /** r1 is cloned in the directory of its namespace x/a under the root path. */
  lemma SmallTreeTaskA()
    ensures TaskOf(SourceConfig("/"), ProjectA)
            == [("D:/Code/backup-gitlab/x/a", "git clone git@gitlab.cbi.com:x/a/r1.git")]
  {
    KeptA();
    WorkDirOfA();
    CommandOfA();
  }

  /** r2, of namespace x/hengshan, is excluded. */
  lemma SmallTreeTaskH()
    ensures TaskOf(SourceConfig("/"), ProjectH) == []
  {
    assert Excluded(SourceConfig("/"), ProjectH.fullPath) by {
      ExcludedAnywhere("/", "x/", "");
      assert "x/" + "hengshan" + "" == "x/hengshan";
    }
  }

  /** r3 is cloned in the directory of its namespace x/a/b under the root path. */
  lemma SmallTreeTaskB()
    ensures TaskOf(SourceConfig("/"), ProjectB)
            == [("D:/Code/backup-gitlab/x/a/b", "git clone git@gitlab.cbi.com:x/a/b/r3.git")]
  {
    KeptB();
    WorkDirOfB();
    CommandOfB();
  }

  /** Of the three repositories, only r1 and r3 call for a clone, in that order. */
  lemma SmallTreeTasks()
    ensures Tasks(SourceConfig("/"), [ProjectA, ProjectH, ProjectB])
            == [("D:/Code/backup-gitlab/x/a", "git clone git@gitlab.cbi.com:x/a/r1.git"),
                ("D:/Code/backup-gitlab/x/a/b", "git clone git@gitlab.cbi.com:x/a/b/r3.git")]
  {
    var cfg := SourceConfig("/");
    SmallTreeTaskA();
    SmallTreeTaskH();
    SmallTreeTaskB();
    assert [ProjectA, ProjectH, ProjectB][1..] == [ProjectH, ProjectB];
    assert [ProjectH, ProjectB][1..] == [ProjectB];
    assert Tasks(cfg, [ProjectB]) == TaskOf(cfg, ProjectB);
  }

  /**
   * A whole walk: whatever the clone processes do, cloneByGroup on the small
   * tree clones r1 and then r3, each in its namespace's directory under the
   * root path, never attempts r2, and on an empty disk creates exactly those
   * two directories and their parents, down from the drive.
   */
  lemma SmallTreeWalk(spawn: Spawner)
    ensures var w := GroupWalk(SourceConfig("/"), spawn, World({}, []), SmallTree);
            Clones(w.trace)
              == [("D:/Code/backup-gitlab/x/a", "git clone git@gitlab.cbi.com:x/a/r1.git"),
                  ("D:/Code/backup-gitlab/x/a/b", "git clone git@gitlab.cbi.com:x/a/b/r3.git")]
            && w.dirs == {"D:", "D:/Code", "D:/Code/backup-gitlab", "D:/Code/backup-gitlab/x",
                          "D:/Code/backup-gitlab/x/a", "D:/Code/backup-gitlab/x/a/b"}
  {
    SmallTreePreorder();
    SmallTreeTasks();
    GroupWalkClones(SourceConfig("/"), spawn, World({}, []), SmallTree);
    var ts := [("D:/Code/backup-gitlab/x/a", "git clone git@gitlab.cbi.com:x/a/r1.git"),
               ("D:/Code/backup-gitlab/x/a/b", "git clone git@gitlab.cbi.com:x/a/b/r3.git")];
    assert ts[1..][1..] == [];
    SmallTreeDirs();
  }

  /** The separators of the source's configuration on a system whose separator is '/'. */
  lemma SlashSeparators()
    ensures PathSeparators(SourceConfig("/")) == {'/'}
  {
  }

  lemma DriveDirs()
    ensures WithParents({'/'}, "D:/Code") == {"D:", "D:/Code"}
  {
    ParentsNone({'/'}, "D:");
    ParentsChild({'/'}, "D:", '/', "Code");
    assert "D:" + ['/'] + "Code" == "D:/Code";
  }

  lemma RootDirs()
    ensures WithParents({'/'}, "D:/Code/backup-gitlab") == {"D:", "D:/Code", "D:/Code/backup-gitlab"}
  {
    DriveDirs();
    ParentsChild({'/'}, "D:/Code", '/', "backup-gitlab");
    assert "D:/Code" + ['/'] + "backup-gitlab" == "D:/Code/backup-gitlab";
  }

  lemma NamespaceDirs()
    ensures WithParents({'/'}, "D:/Code/backup-gitlab/x")
            == {"D:", "D:/Code", "D:/Code/backup-gitlab", "D:/Code/backup-gitlab/x"}
  {
    RootDirs();
    ParentsChild({'/'}, "D:/Code/backup-gitlab", '/', "x");
    assert "D:/Code/backup-gitlab" + ['/'] + "x" == "D:/Code/backup-gitlab/x";
  }

  lemma DirsOfA()
    ensures WithParents({'/'}, "D:/Code/backup-gitlab/x/a")
            == {"D:", "D:/Code", "D:/Code/backup-gitlab", "D:/Code/backup-gitlab/x", "D:/Code/backup-gitlab/x/a"}
  {
    NamespaceDirs();
    ParentsChild({'/'}, "D:/Code/backup-gitlab/x", '/', "a");
    assert "D:/Code/backup-gitlab/x" + ['/'] + "a" == "D:/Code/backup-gitlab/x/a";
  }

  lemma DirsOfB()
    ensures WithParents({'/'}, "D:/Code/backup-gitlab/x/a/b")
            == {"D:", "D:/Code", "D:/Code/backup-gitlab", "D:/Code/backup-gitlab/x", "D:/Code/backup-gitlab/x/a",
                "D:/Code/backup-gitlab/x/a/b"}
  {
    DirsOfA();
    ParentsChild({'/'}, "D:/Code/backup-gitlab/x/a", '/', "b");
    assert "D:/Code/backup-gitlab/x/a" + ['/'] + "b" == "D:/Code/backup-gitlab/x/a/b";
  }

  /** From an empty disk, the two clones of the small tree leave their directories and every parent. */
  lemma SmallTreeDirs()
    ensures DirsAfter(SourceConfig("/"), {},
                      [("D:/Code/backup-gitlab/x/a", "git clone git@gitlab.cbi.com:x/a/r1.git"),
                       ("D:/Code/backup-gitlab/x/a/b", "git clone git@gitlab.cbi.com:x/a/b/r3.git")])
            == {"D:", "D:/Code", "D:/Code/backup-gitlab", "D:/Code/backup-gitlab/x",
                "D:/Code/backup-gitlab/x/a", "D:/Code/backup-gitlab/x/a/b"}
  {
    var ts := [("D:/Code/backup-gitlab/x/a", "git clone git@gitlab.cbi.com:x/a/r1.git"),
               ("D:/Code/backup-gitlab/x/a/b", "git clone git@gitlab.cbi.com:x/a/b/r3.git")];
    SlashSeparators();
    DirsOfA();
    DirsOfB();
    var d1 := WithParents({'/'}, "D:/Code/backup-gitlab/x/a");
    assert "D:/Code/backup-gitlab/x/a/b" !in d1;
    assert DirsAfter(SourceConfig("/"), {}, ts) == DirsAfter(SourceConfig("/"), {} + d1, ts[1..]);
    assert ts[1..][1..] == [];
  }
}
