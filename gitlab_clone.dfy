/**
 * GitlabClone's methods, imperative as they are written: page loops that stop
 * at the first empty page, a loop over the records of each page, and the
 * depth-first recursion into subgroups. The machine they act on (its
 * directories, and the log of requests, directory creation and processes) is
 * the object Machine; the remote tree is the value the server answers with.
 * Every method is proved to leave the machine in the state CloneWalk gives.
 */
module GitlabClone {
  import opened Text
  import opened GitlabRemote
  import opened CloneWalk
  import OkHttpCli

  /** The directories that exist and the log of external actions, updated in place. */
  class Machine {
    var dirs: set<string>
    var trace: seq<Event>

    function State(): World
      reads this
    {
      World(dirs, trace)
    }

    constructor(existing: set<string>)
      ensures State() == World(existing, [])
    {
      dirs := existing;
      trace := [];
    }

    /** OkHttpCli GET of url; the answer is given by the remote tree. */
    method Get(url: string)
      modifies this
      ensures State() == Log(old(State()), Request(url))
    {
      trace := trace + [Request(url)];
    }

    /** File.mkdirs: creates the directory and every missing parent, splitting at `seps`. */
    method MakeDirs(dir: string, seps: set<char>)
      modifies this
      ensures State() == World(old(dirs) + WithParents(seps, dir), old(trace) + [Event.MakeDirs(dir)])
    {
      dirs := dirs + WithParents(seps, dir);
      trace := trace + [Event.MakeDirs(dir)];
    }

    /** Runtime.exec(command, null, dir) followed by waitFor. */
    method Exec(dir: string, command: string, spawn: Spawner) returns (outcome: Outcome)
      modifies this
      ensures outcome == spawn(old(State()), dir, command)
      ensures State() == Log(old(State()), Event.Exec(dir, command, outcome))
    {
      outcome := spawn(State(), dir, command);
      trace := trace + [Event.Exec(dir, command, outcome)];
    }

    /** Process.destroy on the process started in dir. */
    method Destroy(dir: string)
      modifies this
      ensures State() == Log(old(State()), Event.Destroy(dir))
    {
      trace := trace + [Event.Destroy(dir)];
    }
  }

  class GitlabClone {
    const machine: Machine
    const cfg: Config
    const spawn: Spawner

    constructor(machine: Machine, cfg: Config, spawn: Spawner)
      ensures this.machine == machine && this.cfg == cfg && this.spawn == spawn
    {
      this.machine := machine;
      this.cfg := cfg;
      this.spawn := spawn;
    }

    /**
     * One iteration of supplierPerPages: GET the page of the listing
     * `resource` and return its records; the records come from `pages`, the
     * listing as the server holds it.
     */
    static method FetchPage<T>(machine: Machine, cfg: Config, resource: string,
                               pages: seq<Page<T>>, page: nat) returns (records: seq<T>)
      modifies machine
      ensures records == PageAt(pages, page)
      ensures machine.State() == Log(old(machine.State()), PageRequest(cfg, resource, page))
    {
      var url := ListingUrl(cfg, resource, page);
      var empty: seq<OkHttpCli.Entry> := [];
      var target := OkHttpCli.GetUrl(url, Some(empty));
      assert Some(empty).value == [];
      machine.Get(target);
      records := PageAt(pages, page);
    }

    /**
     * The body of the loop in projects for one record: skip an excluded
     * namespace, create the working directory if missing, run the clone,
     * and destroy the process in the finally block if one was created.
     */
    method Handle(p: Project)
      modifies machine
      ensures machine.State() == HandleRecord(cfg, spawn, old(machine.State()), p)
    {
      if Excluded(cfg, p.fullPath) {
        return;
      }
      var workDir := WorkDir(cfg, p.fullPath);
      if workDir !in machine.dirs {
        machine.MakeDirs(workDir, PathSeparators(cfg));
      }
      var command := CloneCommand(p);
      var process := false;
      var outcome := machine.Exec(workDir, command, spawn);
      if outcome != SpawnFailed {
        process := true;
      }
      if process {
        machine.Destroy(workDir);
      }
    }

    /** projects(g.id): every page of the group's projects, record by record. */
    method Projects(g: Group)
      modifies machine
      ensures machine.State() == ProjectsFrom(cfg, spawn, old(machine.State()), g, 1)
    {
      var resource := ProjectsUrl(cfg, g.id);
      var page := 1;
      while true
        invariant ProjectsFrom(cfg, spawn, old(machine.State()), g, 1)
                  == ProjectsFrom(cfg, spawn, machine.State(), g, page)
        decreases Remaining(g.projectPages, page)
      {
        var records := FetchPage(machine, cfg, resource, g.projectPages, page);
        if records == [] {
          break;
        }
        ghost var fetched := machine.State();
        for i := 0 to |records|
          invariant HandleRecords(cfg, spawn, fetched, records)
                    == HandleRecords(cfg, spawn, machine.State(), records[i..])
        {
          assert records[i..][1..] == records[i + 1..];
          Handle(records[i]);
        }
        assert records[|records|..] == [];
        page := page + 1;
      }
    }

    /**
     * subGroups(g.id): every page of the group's subgroups; for each
     * subgroup, its projects and then, recursively, its subgroups.
     */
    method SubGroups(g: Group)
      modifies machine
      ensures machine.State()
              == SubGroupsFrom(cfg, spawn, old(machine.State()), SubGroupsUrl(cfg, g.id), g, 1)
      decreases g
    {
      var resource := SubGroupsUrl(cfg, g.id);
      var page := 1;
      while true
        invariant 1 <= page
        invariant SubGroupsFrom(cfg, spawn, old(machine.State()), resource, g, 1)
                  == SubGroupsFrom(cfg, spawn, machine.State(), resource, g, page)
        decreases Remaining(g.subgroupPages, page)
      {
        var records := FetchPage(machine, cfg, resource, g.subgroupPages, page);
        if records == [] {
          break;
        }
        ghost var fetched := machine.State();
        for k := 0 to |records|
          invariant EachSubGroup(cfg, spawn, fetched, g, page, 0)
                    == EachSubGroup(cfg, spawn, machine.State(), g, page, k)
        {
          assert records[k] in g.subgroupPages[page - 1].records;
          Projects(records[k]);
          SubGroups(records[k]);
        }
        page := page + 1;
      }
    }
  }

  /** cloneByGroup: the projects of the group, then its subgroups' trees. */
  method CloneByGroup(machine: Machine, cfg: Config, spawn: Spawner, g: Group)
    modifies machine
    ensures machine.State() == GroupWalk(cfg, spawn, old(machine.State()), g)
  {
    var clone := new GitlabClone(machine, cfg, spawn);
    clone.Projects(g);
    clone.SubGroups(g);
  }

  /**
   * cloneAllCanAccess: every page of the listing of all groups the token can
   * see; on each page a new GitlabClone walks each group's tree in turn.
   */
  method CloneAllCanAccess(machine: Machine, cfg: Config, spawn: Spawner, groups: seq<Page<Group>>)
    modifies machine
    ensures machine.State() == CloneAllWalk(cfg, spawn, old(machine.State()), groups)
  {
    var resource := GroupsUrl(cfg);
    var page := 1;
    while true
      invariant 1 <= page
      invariant SubGroupsFrom(cfg, spawn, old(machine.State()), resource, Root(groups), 1)
                == SubGroupsFrom(cfg, spawn, machine.State(), resource, Root(groups), page)
      decreases Remaining(groups, page)
    {
      var listed := GitlabClone.FetchPage(machine, cfg, resource, groups, page);
      if listed == [] {
        break;
      }
      var clone := new GitlabClone(machine, cfg, spawn);
      ghost var fetched := machine.State();
      for i := 0 to |listed|
        invariant EachSubGroup(cfg, spawn, fetched, Root(groups), page, 0)
                  == EachSubGroup(cfg, spawn, machine.State(), Root(groups), page, i)
      {
        clone.Projects(listed[i]);
        clone.SubGroups(listed[i]);
      }
      page := page + 1;
    }
  }
}
