/**
 * What GitlabClone does to the machine it runs on, as functions of the
 * remote tree: the directories it creates and the ordered log of its
 * external actions (page requests, directory creation, clone processes and
 * their release). GitlabClone's methods are proved to produce exactly these
 * states; CloneProperties proves what the states promise.
 */
module CloneWalk {
  import opened Text
  import opened GitlabRemote

  /**
   * The constants GitlabClone hard-codes: ROOT_PATH, File.separator, the
   * API base URL ("http://gitlab.cbi.com/api/v4"), the access token and the
   * namespace tokens that exclude a project ("hengshan", "lushan").
   */
  datatype Config = Config(rootPath: string, separator: string, apiBase: string,
                           token: string, excluded: seq<string>)

  /**
   * The values GitlabClone is built with; File.separator is the platform's
   * and stays a parameter.
   */
  function SourceConfig(separator: string): Config
  {
    Config("D:/Code/backup-gitlab", separator, "http://gitlab.cbi.com/api/v4", "--",
           ["hengshan", "lushan"])
  }

  /**
   * How one clone process ends: Runtime.exec throws (no process exists),
   * waitFor throws (the process exists), or the process exits with a code.
   */
  datatype Outcome = SpawnFailed | WaitFailed | Exited(code: int)

  /**
   * The process layer: the outcome of running a command in a directory, on a
   * machine in the given state. The state holds the whole history of the
   * run, so the same clone run twice may end differently.
   */
  type Spawner = (World, string, string) -> Outcome

  /** The external actions of the walk, in the order they happen. */
  datatype Event =
    | Request(url: string)
    | MakeDirs(dir: string)
    | Exec(dir: string, command: string, outcome: Outcome)
    | Destroy(dir: string)

  /** The machine state the walk changes: existing directories and the action log. */
  datatype World = World(dirs: set<string>, trace: seq<Event>)

  function Log(w: World, e: Event): World
  {
    World(w.dirs, w.trace + [e])
  }

  function GroupsUrl(cfg: Config): string
  {
    cfg.apiBase + "/groups"
  }

  function ProjectsUrl(cfg: Config, id: int): string
  {
    cfg.apiBase + "/groups/" + IntToString(id) + "/projects"
  }

  function SubGroupsUrl(cfg: Config, id: int): string
  {
    cfg.apiBase + "/groups/" + IntToString(id) + "/subgroups"
  }

  /** The URL of page `page` of a listing, as supplierPerPages formats it. */
  function ListingUrl(cfg: Config, resource: string, page: nat): string
  {
    resource + "?private_token=" + cfg.token + "&per_page=50&page=" + NatToString(page)
  }

  /**
   * The request for one page: OkHttpCli.url(...).get(new HashMap<>()), a GET
   * with an empty parameter map, which requests the listing URL as it is
   * (OkHttpCli.GetUrl adds no query for an empty map).
   */
  function PageRequest(cfg: Config, resource: string, page: nat): Event
  {
    Request(ListingUrl(cfg, resource, page))
  }

  /** The namespace path contains one of the exclusion tokens (String.contains). */
  predicate Excluded(cfg: Config, fullPath: string)
  {
    exists i :: 0 <= i < |cfg.excluded| && Contains(fullPath, cfg.excluded[i])
  }

  /** The working directory of a project: ROOT_PATH + File.separator + full_path. */
  function WorkDir(cfg: Config, fullPath: string): string
  {
    cfg.rootPath + cfg.separator + fullPath
  }

  /**
   * The characters java.io.File reads as separators in a path: '/' always,
   * and File.separator ('\\' on Windows) besides.
   */
  function PathSeparators(cfg: Config): set<char>
  {
    {'/'} + set c | c in cfg.separator
  }

  /** The parent directories of a path: its prefixes that end before a separator. */
  function Parents(seps: set<char>, path: string): set<string>
  {
    set i | 0 < i < |path| && path[i] in seps :: path[..i]
  }

  /** The directories that exist after File.mkdirs(path): the path and all its parents. */
  function WithParents(seps: set<char>, path: string): set<string>
  {
    {path} + Parents(seps, path)
  }

  function CloneCommand(p: Project): string
  {
    "git clone " + p.sshUrl
  }

  /**
   * One iteration of the loop in projects: skip an excluded record; else
   * create the working directory, with its missing parents, if it does not
   * exist, run the clone command
   * there, and destroy the process if one was created. The outcome never
   * stops the walk.
   */
  function HandleRecord(cfg: Config, spawn: Spawner, w: World, p: Project): World
  {
    if Excluded(cfg, p.fullPath) then w
    else
      var dir := WorkDir(cfg, p.fullPath);
      var w1 := if dir in w.dirs then w
                else World(w.dirs + WithParents(PathSeparators(cfg), dir), w.trace + [MakeDirs(dir)]);
      var command := CloneCommand(p);
      var outcome := spawn(w1, dir, command);
      World(w1.dirs, w1.trace + [Exec(dir, command, outcome)]
                     + (if outcome == SpawnFailed then [] else [Destroy(dir)]))
  }

  /** The records of one page, handled in order. */
  function HandleRecords(cfg: Config, spawn: Spawner, w: World, records: seq<Project>): World
    decreases |records|
  {
    if records == [] then w
    else HandleRecords(cfg, spawn, HandleRecord(cfg, spawn, w, records[0]), records[1..])
  }

  /** projects(g.id) from page `page` on: request the page, stop if empty, else handle it. */
  function ProjectsFrom(cfg: Config, spawn: Spawner, w: World, g: Group, page: nat): World
    decreases Remaining(g.projectPages, page)
  {
    var w1 := Log(w, PageRequest(cfg, ProjectsUrl(cfg, g.id), page));
    var records := PageAt(g.projectPages, page);
    if records == [] then w1
    else ProjectsFrom(cfg, spawn, HandleRecords(cfg, spawn, w1, records), g, page + 1)
  }

  /** projects(g.id) then subGroups(g.id): the walk of one group's tree. */
  function GroupWalk(cfg: Config, spawn: Spawner, w: World, g: Group): World
    decreases g, 2, 0, 0
  {
    SubGroupsFrom(cfg, spawn, ProjectsFrom(cfg, spawn, w, g, 1), SubGroupsUrl(cfg, g.id), g, 1)
  }

  /**
   * A listing of groups, `resource`, whose pages are owner.subgroupPages,
   * from page `page` on: request the page, stop if empty, else walk the tree
   * of each group on it.
   */
  function SubGroupsFrom(cfg: Config, spawn: Spawner, w: World, resource: string, owner: Group, page: nat): World
    decreases owner, 1, Remaining(owner.subgroupPages, page), 0
  {
    var w1 := Log(w, PageRequest(cfg, resource, page));
    if PageAt(owner.subgroupPages, page) == [] then w1
    else SubGroupsFrom(cfg, spawn, EachSubGroup(cfg, spawn, w1, owner, page, 0), resource, owner, page + 1)
  }

  /** The trees of the groups on page `page` of owner's listing, from position k on. */
  function EachSubGroup(cfg: Config, spawn: Spawner, w: World, owner: Group, page: nat, k: nat): World
    requires 1 <= page <= |owner.subgroupPages|
    decreases owner, 0, 0, |owner.subgroupPages[page - 1].records| - k
  {
    var groups := owner.subgroupPages[page - 1].records;
    if k >= |groups| then w
    else EachSubGroup(cfg, spawn, GroupWalk(cfg, spawn, w, groups[k]), owner, page, k + 1)
  }

  /** cloneAllCanAccess: every group of the listing of all groups, walked in order. */
  function CloneAllWalk(cfg: Config, spawn: Spawner, w: World, groups: seq<Page<Group>>): World
  {
    SubGroupsFrom(cfg, spawn, w, GroupsUrl(cfg), Root(groups), 1)
  }
}
