# GitLab backup clone walk

A model of the `tools-gitcommand` GitLab backup tool. It covers `GitlabClone`,
which walks a GitLab group tree through the REST API and runs `git clone` for
every project it finds. It also covers the request helpers of `OkHttpCli`
that the walk builds its requests with.

The modules follow the program's structure:

- `GitlabRemote` (gitlab_remote.dfy) is the remote side as a finite value.
  - A `Group` has paginated listings of its projects and of its subgroups.
  - Page *n* of a listing is `pages[n - 1]`. Every page past the end is empty.
  - A page may also be empty before the end. `Leading` gives the pages a walk
    actually delivers, which is the longest prefix of non-empty pages.
  - `Preorder` gives a tree's projects in depth-first pre-order.
- `CloneWalk` (clone_walk.dfy) defines, as functions, what the walk does to
  the machine it runs on. The machine state is a `World`:
  - the set of directories that exist (`mkdirs` adds a directory with all its
    missing parents, cut at `/` and at `File.separator`);
  - the ordered log of external actions: page requests, `mkdirs`, clone
    processes with their outcome, and `Process.destroy`.

  `Config` holds the constants the source hard-codes; `SourceConfig` gives
  their values. `File.separator` stays a parameter.
- `GitlabClone` (gitlab_clone.dfy) is the imperative code in the source's own
  shape:
  - page loops that stop at the first empty page;
  - a `for` loop over the records of a page;
  - the depth-first recursion of `subGroups`;
  - the two entry points. `cloneAllCanAccess` makes a new `GitlabClone` per
    page, as the source does.

  The machine is the class `Machine`, whose fields the methods update in
  place. Every method is proved to leave exactly the state the matching
  `CloneWalk` function gives.
- `CloneProperties` (clone_properties.dfy) proves what those states promise:
  - The walk runs the clones of the tree's projects in pre-order, and it
    leaves out excluded namespaces.
  - It leaves the directories it found plus each clone's working directory
    and that directory's parents.
  - A clone's outcome never changes what else is cloned, which directories
    result, or what is requested.
  - The log is a well-formed run. That means:
    - directories are made only when missing;
    - a clone runs only in an existing directory;
    - every created process is destroyed by the very next action;
    - nothing else is destroyed.
  - Every listing requests pages 1, 2, … up to and including the first empty
    one. This holds for a group's projects, its subgroups and the `/groups`
    listing. In the two group listings, each delivered page is followed by
    the requests of the trees of the groups on it, before the next page.
  - The listing URL's query reads back as the token, page size 50 and page
    number.
  - A small three-project tree is walked end to end.
- `OkHttpCli` (okhttp_cli.dfy) models the `Maps` helpers: `sort`, `encoder`
  (a class whose entries change in place), `toUrl` and `toEncoderUrlUtf8`. It
  also models the `Media` table with `getContent`, and the URL `Req.get`
  requests.
  - A Java `Map<String, String>` is the sequence of its entries in iteration
    order.
  - `URLEncoder.encode` for one charset is a parameter. It answers `None`
    where Java throws `UnsupportedEncodingException`.
- `FormEncoding` (form_encoding.dfy) defines `URLEncoder.encode(s, "UTF-8")`:
  the application/x-www-form-urlencoded encoding of section 17.13.4.1 of
  HTML 4.01, with UTF-8 bytes.
- `Text` (text.dfy) holds the string helpers: join, split, `String.contains`
  and decimal rendering.

Some inputs become parameters:

- The process layer is a `Spawner`. It gives the outcome of running a command
  in a directory: `Runtime.exec` throws, `waitFor` throws, or the process
  exits with some code. The outcome is a function of the whole machine
  state, log included, so it may depend on everything run before, and the
  same clone run twice may end differently.
- The API's answers are the `Group` value.
- The JSON serialiser of `JSON_UTF8` is a function parameter.

Where the code and its design description differ, this model follows the code:

- `mkdirs` is called only when the directory is missing, and its result is
  not checked. The model assumes it succeeds. It creates every missing
  parent as well, so a later namespace's `exists` check can find a
  directory that an earlier, deeper namespace created.
- The clone's working directory is the project's *namespace* directory,
  `ROOT_PATH + File.separator + namespace.full_path`. All projects of one
  namespace share it, and `git clone` creates the repository's own
  subdirectory inside it.
- Nothing in the code keeps a project from being cloned twice.
  `cloneAllCanAccess` walks every group that the `/groups` listing returns,
  each with its whole subtree. If that listing also names subgroups, their
  projects are cloned again. `CloneProperties.CloneAllClones` states exactly
  this: the clones of the pre-order of every listed group's tree.

## Model

Several functions carry no contract of their own. Each is specified by the
lemmas about it, and those lemma rows name the function in their text:

- the walk functions of `CloneWalk`: `HandleRecord`, `HandleRecords`,
  `ProjectsFrom`, `SubGroupsFrom`, `EachSubGroup`, `GroupWalk` and
  `CloneAllWalk`;
- the helpers `Excluded`, `WorkDir`, `CloneCommand` and `ListingUrl`;
- from `OkHttpCli`: `GetContent`, `PackerOf`, `MediaType`, `EncodeValues`
  and `EncodedQuery`.

| member | source | states |
|---|---|---|
| GitlabClone.Machine.Get | tools-gitcommand/src/main/java/com/github/daemonmanx/tools/gitcommand/GitlabClone.java:114-116 | a GET appends exactly one request for that URL to the log and changes no directory |
| GitlabClone.Machine.MakeDirs | tools-gitcommand/src/main/java/com/github/daemonmanx/tools/gitcommand/GitlabClone.java:78-80 | File.mkdirs: the directory and every parent of it (each prefix that ends before a separator) exist afterwards, nothing else is added, and the call is logged |
| GitlabClone.Machine.Exec | tools-gitcommand/src/main/java/com/github/daemonmanx/tools/gitcommand/GitlabClone.java:87-89 | the command runs in the given directory; its outcome (spawn failure, wait failure or exit code) is the process layer's answer for the machine as it stood before the call, and it is returned and logged |
| GitlabClone.Machine.Destroy | tools-gitcommand/src/main/java/com/github/daemonmanx/tools/gitcommand/GitlabClone.java:93-95 | destroying the process is logged and changes no directory |
| GitlabClone.GitlabClone.constructor | tools-gitcommand/src/main/java/com/github/daemonmanx/tools/gitcommand/GitlabClone.java:51 | a new walker acts on the given machine with the given configuration and process layer |
| GitlabClone.GitlabClone.FetchPage | tools-gitcommand/src/main/java/com/github/daemonmanx/tools/gitcommand/GitlabClone.java:113-117 | one page request: the records returned are the server's page n (empty past the end), and exactly the listing URL for page n is requested, through Req.get with an empty map |
| GitlabClone.GitlabClone.Handle | tools-gitcommand/src/main/java/com/github/daemonmanx/tools/gitcommand/GitlabClone.java:71-96 | one record: an excluded namespace is skipped; otherwise the missing working directory is made, the clone runs there, and a created process is destroyed in the finally block |
| GitlabClone.GitlabClone.Projects | tools-gitcommand/src/main/java/com/github/daemonmanx/tools/gitcommand/GitlabClone.java:68-99 | the page loop over the group's projects leaves the machine in the state of the projects walk from page 1 |
| GitlabClone.GitlabClone.SubGroups | tools-gitcommand/src/main/java/com/github/daemonmanx/tools/gitcommand/GitlabClone.java:102-110 | the page loop over the subgroups, with projects and recursive subGroups for each, leaves the state of the subgroup walk |
| GitlabClone.CloneByGroup | tools-gitcommand/src/main/java/com/github/daemonmanx/tools/gitcommand/GitlabClone.java:60-64 | cloneByGroup leaves the state of the walk of that group's tree |
| GitlabClone.CloneAllCanAccess | tools-gitcommand/src/main/java/com/github/daemonmanx/tools/gitcommand/GitlabClone.java:49-58 | cloneAllCanAccess, with a new GitlabClone per page of groups, leaves the state of the walk of every listed group's tree |
| GitlabRemote.Leading | tools-gitcommand/src/main/java/com/github/daemonmanx/tools/gitcommand/GitlabClone.java:113-121 | the delivered pages are a prefix of the listing, all non-empty, followed (if anything follows) by an empty page |
| GitlabRemote.LeadingOfNonEmpty | tools-gitcommand/src/main/java/com/github/daemonmanx/tools/gitcommand/GitlabClone.java:113-121 | when no page is empty, every page is delivered |
| GitlabRemote.LeadingStopsAtEmpty | tools-gitcommand/src/main/java/com/github/daemonmanx/tools/gitcommand/GitlabClone.java:118-120 | nothing at or after an empty page is delivered, whatever follows it |
| Text.ContainsAt | tools-gitcommand/src/main/java/com/github/daemonmanx/tools/gitcommand/GitlabClone.java:73 | the model of String.contains holds iff the token occurs at some position |
| CloneProperties.TasksMembership | tools-gitcommand/src/main/java/com/github/daemonmanx/tools/gitcommand/GitlabClone.java:71-82 | a clone (directory, command) is called for iff some non-excluded project has exactly that directory and command |
| CloneProperties.HandleRecordClones | tools-gitcommand/src/main/java/com/github/daemonmanx/tools/gitcommand/GitlabClone.java:71-96 | HandleRecord: one record logs exactly its clone (none if excluded); the directories become those DirsAfter gives, so when the working directory was missing it is added with its parents |
| CloneProperties.HandleRecordRequests | tools-gitcommand/src/main/java/com/github/daemonmanx/tools/gitcommand/GitlabClone.java:71-96 | HandleRecord: handling a record requests no URL |
| CloneProperties.HandleRecordsClones | tools-gitcommand/src/main/java/com/github/daemonmanx/tools/gitcommand/GitlabClone.java:71-97 | HandleRecords: a page of records logs the clones of its non-excluded records, in order, and makes their missing directories with their parents |
| CloneProperties.HandleRecordsRequests | tools-gitcommand/src/main/java/com/github/daemonmanx/tools/gitcommand/GitlabClone.java:71-97 | HandleRecords: handling a page of records requests no URL |
| CloneProperties.LogRequestClones | tools-gitcommand/src/main/java/com/github/daemonmanx/tools/gitcommand/GitlabClone.java:114-116 | a page request adds that URL to the requests and no clone or directory |
| CloneProperties.ProjectsFromClones | tools-gitcommand/src/main/java/com/github/daemonmanx/tools/gitcommand/GitlabClone.java:68-99 | ProjectsFrom: projects from a reached page logs the clones of the records on the delivered pages from there, in order |
| CloneProperties.GroupWalkClones | tools-gitcommand/src/main/java/com/github/daemonmanx/tools/gitcommand/GitlabClone.java:60-64 | GroupWalk: walking a group's tree logs the clones of its projects in depth-first pre-order, excluded ones left out, and makes their missing directories with their parents |
| CloneProperties.SubGroupsFromClones | tools-gitcommand/src/main/java/com/github/daemonmanx/tools/gitcommand/GitlabClone.java:102-110 | SubGroupsFrom: subGroups from a reached page logs the clones of the subtrees of the delivered subgroups, page by page |
| CloneProperties.EachSubGroupClones | tools-gitcommand/src/main/java/com/github/daemonmanx/tools/gitcommand/GitlabClone.java:104-108 | EachSubGroup: the subgroups of one page are walked one after another, each whole subtree before the next |
| CloneProperties.CloneAllClones | tools-gitcommand/src/main/java/com/github/daemonmanx/tools/gitcommand/GitlabClone.java:49-58 | CloneAllWalk: cloneAllCanAccess logs the clones of every listed group's tree, group after group |
| CloneProperties.FailureIsolation | tools-gitcommand/src/main/java/com/github/daemonmanx/tools/gitcommand/GitlabClone.java:85-96 | for any two process layers, whose outcomes may depend on the machine state and on everything run before (so the same clone may fail in one run and succeed in another), the same clones run and the same directories result |
| CloneProperties.GroupWalkDirs | tools-gitcommand/src/main/java/com/github/daemonmanx/tools/gitcommand/GitlabClone.java:77-79 | GroupWalk: on a file system where every directory's parents exist, the walk leaves the directories there were plus each clone's working directory and its parents, and every directory's parents still exist |
| CloneProperties.DirsAfterClosed | tools-gitcommand/src/main/java/com/github/daemonmanx/tools/gitcommand/GitlabClone.java:77-79 | on such a file system, the exists/mkdirs steps of a sequence of clones add exactly the working directories and their parents |
| CloneProperties.MkdirsClosed | tools-gitcommand/src/main/java/com/github/daemonmanx/tools/gitcommand/GitlabClone.java:78-79 | mkdirs keeps every directory's parents in place, and where a directory exists its parents exist, so the exists check skips nothing mkdirs would add |
| CloneProperties.ParentsOfParent | tools-gitcommand/src/main/java/com/github/daemonmanx/tools/gitcommand/GitlabClone.java:79 | a parent of a parent is a parent |
| CloneProperties.ReplayReleases | tools-gitcommand/src/main/java/com/github/daemonmanx/tools/gitcommand/GitlabClone.java:85-96 | in a well-formed log every created process is destroyed by the next action, and every destroy follows a created process in the same directory |
| CloneProperties.HandleRecordWellFormed | tools-gitcommand/src/main/java/com/github/daemonmanx/tools/gitcommand/GitlabClone.java:77-96 | one record keeps the run well-formed: mkdirs only if missing (adding the parents), the clone in an existing directory, the process destroyed at once |
| CloneProperties.HandleRecordsWellFormed | tools-gitcommand/src/main/java/com/github/daemonmanx/tools/gitcommand/GitlabClone.java:71-97 | a page of records keeps the run well-formed |
| CloneProperties.ProjectsFromWellFormed | tools-gitcommand/src/main/java/com/github/daemonmanx/tools/gitcommand/GitlabClone.java:68-99 | projects keeps the run well-formed |
| CloneProperties.GroupWalkWellFormed | tools-gitcommand/src/main/java/com/github/daemonmanx/tools/gitcommand/GitlabClone.java:60-64 | the walk of a group's tree keeps the run well-formed |
| CloneProperties.SubGroupsFromWellFormed | tools-gitcommand/src/main/java/com/github/daemonmanx/tools/gitcommand/GitlabClone.java:102-110 | subGroups keeps the run well-formed |
| CloneProperties.EachSubGroupWellFormed | tools-gitcommand/src/main/java/com/github/daemonmanx/tools/gitcommand/GitlabClone.java:104-108 | walking the subgroups of one page keeps the run well-formed |
| CloneProperties.EntryPointsWellFormed | tools-gitcommand/src/main/java/com/github/daemonmanx/tools/gitcommand/GitlabClone.java:49-64 | both entry points, from any existing directories, leave a well-formed run |
| CloneProperties.PageUrls | tools-gitcommand/src/main/java/com/github/daemonmanx/tools/gitcommand/GitlabClone.java:113-114 | the i-th URL of consecutive pages is the listing URL of page from + i |
| CloneProperties.Requested | tools-gitcommand/src/main/java/com/github/daemonmanx/tools/gitcommand/GitlabClone.java:113-120 | a listing walk requests at least one page |
| CloneProperties.RequestedDelivered | tools-gitcommand/src/main/java/com/github/daemonmanx/tools/gitcommand/GitlabClone.java:113-120 | from a reached page, the walk requests the remaining delivered pages and the empty page after them |
| CloneProperties.ProjectsFromRequests | tools-gitcommand/src/main/java/com/github/daemonmanx/tools/gitcommand/GitlabClone.java:112-123 | projects requests exactly the listing URLs of consecutive pages, from the given page up to and including the first empty one, in order |
| CloneProperties.ProjectsRequestsAllPages | tools-gitcommand/src/main/java/com/github/daemonmanx/tools/gitcommand/GitlabClone.java:112-123 | with no empty page, projects requests pages 1 to N + 1 for a listing of N pages |
| CloneProperties.PagesRequests | tools-gitcommand/src/main/java/com/github/daemonmanx/tools/gitcommand/GitlabClone.java:102-110 | one entry of requests per delivered subgroup page from the given index on |
| CloneProperties.GroupWalkRequests | tools-gitcommand/src/main/java/com/github/daemonmanx/tools/gitcommand/GitlabClone.java:60-64 | GroupWalk: the walk of a tree requests exactly TreeRequests: the project pages up to the first empty one, then the subgroup pages up to the first empty one, each delivered subgroup page followed by its groups' tree requests; whatever the clones do |
| CloneProperties.SubGroupsFromRequests | tools-gitcommand/src/main/java/com/github/daemonmanx/tools/gitcommand/GitlabClone.java:102-121 | SubGroupsFrom: the subgroup listing requests its pages from the given one up to and including the first empty one, in order, interleaved with the requests of the trees on each delivered page |
| CloneProperties.EachSubGroupRequests | tools-gitcommand/src/main/java/com/github/daemonmanx/tools/gitcommand/GitlabClone.java:104-108 | EachSubGroup: the groups of one page request their trees' requests one tree after another |
| CloneProperties.InterleavePages | tools-gitcommand/src/main/java/com/github/daemonmanx/tools/gitcommand/GitlabClone.java:118-120 | with one more page than gaps, a listing's requests start with its first page and end with its last (empty) page |
| CloneProperties.CloneAllRequests | tools-gitcommand/src/main/java/com/github/daemonmanx/tools/gitcommand/GitlabClone.java:49-58 | CloneAllWalk: the /groups listing requests pages 1 to N + 1 for N delivered pages, each delivered page followed by its groups' tree requests |
| CloneProperties.ListingParamsToUrl | tools-gitcommand/src/main/java/com/github/daemonmanx/tools/gitcommand/GitlabClone.java:114 | the query text supplierPerPages formats is Maps.toUrl of the parameters private_token, per_page=50 and page |
| CloneProperties.ListingQuery | tools-gitcommand/src/main/java/com/github/daemonmanx/tools/gitcommand/GitlabClone.java:114 | ListingUrl: a listing URL is the resource, '?', and a query that reads back as exactly the token, page size 50 and page number |
| CloneProperties.ExcludedAnywhere | tools-gitcommand/src/main/java/com/github/daemonmanx/tools/gitcommand/GitlabClone.java:73-75 | Excluded: a namespace holding "hengshan" or "lushan" anywhere, even inside a word, is excluded |
| CloneProperties.KeptWithoutN | tools-gitcommand/src/main/java/com/github/daemonmanx/tools/gitcommand/GitlabClone.java:73-75 | Excluded: a namespace without the letter 'n' holds neither token and is not excluded |
| CloneProperties.WorkDirInjective | tools-gitcommand/src/main/java/com/github/daemonmanx/tools/gitcommand/GitlabClone.java:77 | WorkDir: distinct namespaces get distinct working directories |
| CloneProperties.ExcludedSource | tools-gitcommand/src/main/java/com/github/daemonmanx/tools/gitcommand/GitlabClone.java:73 | Excluded: with the source's tokens, a namespace is excluded iff it contains "hengshan" or "lushan" |
| CloneProperties.WorkDirUnderRoot | tools-gitcommand/src/main/java/com/github/daemonmanx/tools/gitcommand/GitlabClone.java:77-79 | WorkDir: the root path is a parent of every working directory, so mkdirs creates it when missing |
| CloneProperties.CloneCommandTokens | tools-gitcommand/src/main/java/com/github/daemonmanx/tools/gitcommand/GitlabClone.java:82-87 | CloneCommand: the command exec runs splits at spaces into git, clone and the project's ssh URL, when that URL holds no space |
| CloneProperties.ParentsNone | tools-gitcommand/src/main/java/com/github/daemonmanx/tools/gitcommand/GitlabClone.java:79 | a path without separators has no parents |
| CloneProperties.ParentsChild | tools-gitcommand/src/main/java/com/github/daemonmanx/tools/gitcommand/GitlabClone.java:79 | the parents of a child directory are its directory and that directory's parents |
| CloneProperties.SmallTreePreorder | tools-gitcommand/src/main/java/com/github/daemonmanx/tools/gitcommand/GitlabClone.java:60-64 | the small tree's projects in walk order are r1, r2, then the subgroup's r3 |
| CloneProperties.SmallTreeTaskA | tools-gitcommand/src/main/java/com/github/daemonmanx/tools/gitcommand/GitlabClone.java:71-82 | r1 is cloned with "git clone" and its ssh URL in D:/Code/backup-gitlab/x/a |
| CloneProperties.SmallTreeTaskH | tools-gitcommand/src/main/java/com/github/daemonmanx/tools/gitcommand/GitlabClone.java:73-75 | r2, of namespace x/hengshan, calls for no clone |
| CloneProperties.SmallTreeTaskB | tools-gitcommand/src/main/java/com/github/daemonmanx/tools/gitcommand/GitlabClone.java:71-82 | r3 is cloned with "git clone" and its ssh URL in D:/Code/backup-gitlab/x/a/b |
| CloneProperties.SmallTreeTasks | tools-gitcommand/src/main/java/com/github/daemonmanx/tools/gitcommand/GitlabClone.java:71-82 | of r1, r2 and r3, only r1 and r3 call for a clone, in that order |
| CloneProperties.SmallTreeDirs | tools-gitcommand/src/main/java/com/github/daemonmanx/tools/gitcommand/GitlabClone.java:77-79 | from an empty disk, the two clones of the small tree leave exactly their directories and every parent, down to the drive D: |
| CloneProperties.SmallTreeWalk | tools-gitcommand/src/main/java/com/github/daemonmanx/tools/gitcommand/GitlabClone.java:60-64 | for any process outcomes, cloneByGroup on the small tree from an empty disk clones r1 then r3, never r2, and leaves exactly their two directories and the parents mkdirs makes: D:, D:/Code, the root path and D:/Code/backup-gitlab/x |
| OkHttpCli.ToUrl | tools-gitcommand/src/main/java/com/github/daemonmanx/tools/gitcommand/OkHttpCli.java:219-221 | toUrl is the empty string iff the map is empty |
| OkHttpCli.ToUrlRoundTrip | tools-gitcommand/src/main/java/com/github/daemonmanx/tools/gitcommand/OkHttpCli.java:219-221 | for keys without '&' or '=' and values without '&', the "key=value&…" text reads back as the same entries in the same order |
| OkHttpCli.ToUrlSeparators | tools-gitcommand/src/main/java/com/github/daemonmanx/tools/gitcommand/OkHttpCli.java:219-221 | n entries without '&' give exactly n - 1 separators |
| OkHttpCli.KeyLessIrreflexive | tools-gitcommand/src/main/java/com/github/daemonmanx/tools/gitcommand/OkHttpCli.java:205 | no key sorts before itself |
| OkHttpCli.KeyLessTransitive | tools-gitcommand/src/main/java/com/github/daemonmanx/tools/gitcommand/OkHttpCli.java:205 | the key order is transitive |
| OkHttpCli.KeyLessTotal | tools-gitcommand/src/main/java/com/github/daemonmanx/tools/gitcommand/OkHttpCli.java:205 | any two distinct keys are ordered one way or the other |
| OkHttpCli.Insert | tools-gitcommand/src/main/java/com/github/daemonmanx/tools/gitcommand/OkHttpCli.java:205 | inserting an entry adds exactly that entry: same elements plus one, as a multiset |
| OkHttpCli.SortByKey | tools-gitcommand/src/main/java/com/github/daemonmanx/tools/gitcommand/OkHttpCli.java:205 | the sorted stream is a permutation of the entry set |
| OkHttpCli.InsertSorted | tools-gitcommand/src/main/java/com/github/daemonmanx/tools/gitcommand/OkHttpCli.java:205 | inserting into a key-sorted sequence keeps it sorted |
| OkHttpCli.InsertDistinct | tools-gitcommand/src/main/java/com/github/daemonmanx/tools/gitcommand/OkHttpCli.java:205 | inserting a new key keeps keys distinct |
| OkHttpCli.SortByKeySorted | tools-gitcommand/src/main/java/com/github/daemonmanx/tools/gitcommand/OkHttpCli.java:205 | the sorted stream is ordered by key |
| OkHttpCli.SortByKeyDistinct | tools-gitcommand/src/main/java/com/github/daemonmanx/tools/gitcommand/OkHttpCli.java:205 | sorting a map keeps its keys distinct |
| OkHttpCli.SortedDistinctAscending | tools-gitcommand/src/main/java/com/github/daemonmanx/tools/gitcommand/OkHttpCli.java:203-207 | sorted with distinct keys means strictly ascending keys |
| OkHttpCli.InsertAtEnd | tools-gitcommand/src/main/java/com/github/daemonmanx/tools/gitcommand/OkHttpCli.java:205 | an entry no smaller than every key goes last |
| OkHttpCli.SortByKeyOfSorted | tools-gitcommand/src/main/java/com/github/daemonmanx/tools/gitcommand/OkHttpCli.java:203-207 | sorting an already sorted map keeps its order |
| OkHttpCli.Put | tools-gitcommand/src/main/java/com/github/daemonmanx/tools/gitcommand/OkHttpCli.java:204-205 | LinkedHashMap.put: a new key goes at the end; an existing key keeps its place and gets the new value |
| OkHttpCli.Sort | tools-gitcommand/src/main/java/com/github/daemonmanx/tools/gitcommand/OkHttpCli.java:203-207 | sort returns a map with exactly the input's entries, in strictly ascending key order |
| OkHttpCli.EncodeValuesKeepsKeys | tools-gitcommand/src/main/java/com/github/daemonmanx/tools/gitcommand/OkHttpCli.java:209-217 | EncodeValues: encoding values keeps the keys and their order, so a map stays a map |
| OkHttpCli.Encoder | tools-gitcommand/src/main/java/com/github/daemonmanx/tools/gitcommand/OkHttpCli.java:209-217 | every value of the map is replaced in place by its encoding; a value whose encoding throws stays as it was; keys and order are unchanged |
| OkHttpCli.ToEncoderUrlUtf8 | tools-gitcommand/src/main/java/com/github/daemonmanx/tools/gitcommand/OkHttpCli.java:223-236 | the loop returns EncodedQuery: toUrl of the raw keys with encoded values, or "" as soon as any value fails to encode |
| OkHttpCli.EncodedQueryUtf8RoundTrip | tools-gitcommand/src/main/java/com/github/daemonmanx/tools/gitcommand/OkHttpCli.java:223-236 | EncodedQuery: with the UTF-8 encoder the query never fails and reads back as the keys with their encoded values |
| OkHttpCli.FormMediaBodies | tools-gitcommand/src/main/java/com/github/daemonmanx/tools/gitcommand/OkHttpCli.java:176-199 | MediaType, PackerOf, GetContent: form media declare a form-urlencoded Content-Type and never use the JSON serialiser; URL_GBK and URL_GB2312 pack exactly as URL_UTF8 though they declare other charsets |
| OkHttpCli.JsonMediaBody | tools-gitcommand/src/main/java/com/github/daemonmanx/tools/gitcommand/OkHttpCli.java:178 | MediaType, GetContent: JSON_UTF8 declares application/json and its body is the serialiser's text of the map |
| OkHttpCli.FormBodiesReadBack | tools-gitcommand/src/main/java/com/github/daemonmanx/tools/gitcommand/OkHttpCli.java:176-199 | GetContent: every form body reads back as the entries: raw for URL_* media, with UTF-8-encoded values for STR_UTF8; keys hold no '&' or '=', and only raw values must avoid '&' |
| OkHttpCli.GetUrl | tools-gitcommand/src/main/java/com/github/daemonmanx/tools/gitcommand/OkHttpCli.java:88-95 | the bare URL is requested iff the map is null or empty; otherwise the URL followed by '?' and a non-empty query |
| OkHttpCli.GetUrlQuery | tools-gitcommand/src/main/java/com/github/daemonmanx/tools/gitcommand/OkHttpCli.java:88-95 | what follows the '?' reads back as the parameters |
| FormEncoding.FormEncodeUtf8 | tools-gitcommand/src/main/java/com/github/daemonmanx/tools/gitcommand/OkHttpCli.java:228 | URLEncoder's UTF-8 output holds only unreserved characters, '+' and '%', so never '&' or '=', and is no shorter than its input |
| FormEncoding.FormEncodeKeepsUnreserved | tools-gitcommand/src/main/java/com/github/daemonmanx/tools/gitcommand/OkHttpCli.java:228 | a string of unreserved characters is its own encoding |
| FormEncoding.FormDecodeAsciiRoundTrip | tools-gitcommand/src/main/java/com/github/daemonmanx/tools/gitcommand/OkHttpCli.java:228 | on ASCII text, form decoding undoes the encoding |

## Left out

- HTTP transport (`OkHttpCli` client setup, URL parsing, `send`, status codes) is not modelled. A page request is an entry in the log, and the answer is the remote tree's page.
- JSON decoding (`JSON.parseArray`, `getJSONObject`) is not modelled. Records arrive already decoded, with the fields the walk reads.
- A failed page request (transport error, malformed JSON, null content) is not modelled. In the code it throws out of the whole walk; the model's server always answers.
- Standard-output and standard-error draining (`stdout`, its thread pool, `println`, `printStackTrace`) is not modelled. It is concurrent I/O with no effect on what is cloned.
- The real `Runtime.exec`, `waitFor` and `destroy` are not modelled. Their outcome is a parameter, and the exit code is recorded but, as in the code, never inspected.
- Filesystem detail is not modelled. `mkdirs` is assumed to succeed, the directories are a set of path strings, and paths are not normalised. A parent is a prefix that ends before a separator, so the drive root of `D:/Code` is recorded as `D:`, and doubled or trailing separators are not collapsed.
- GroupWalkDirs: requires that the parents of every existing directory exist. A real file system guarantees this; the set-of-strings model does not. FailureIsolation, GroupWalkClones and the other walk lemmas need no such assumption.
- CloneCommandTokens: splits at spaces only. `Runtime.exec`'s tokenizer also splits at tabs, newlines, carriage returns and form feeds; SSH clone URLs hold none of them.
- `Req.post`, `put`, `delete` and `post(JSONObject, …)` are left out. They send a body but are not used by the walk; their bodies are `Media.getContent`, which is modelled.
- Group ids are unbounded integers, not 32-bit Java `int`s. The ids come from the API and are only rendered into URLs.
- `String.format` in supplierPerPages is not modelled: the listing URL is built by concatenation. The resource URLs used hold no '%', so the format inserts the token and page number exactly where written.
- OkHttpCli.Sort: compares keys character by character as Unicode scalar values. Java's `String.compareTo` compares UTF-16 code units, so the orders differ for keys mixing supplementary characters with characters from U+E000 to U+FFFF.
- `URLEncoder.encode` for charsets other than UTF-8 (the `Charset` passed to `Maps.encoder`) is a parameter, not a definition.
- The JSON serialiser `JSONObject::toJSONString` that `JSON_UTF8` packs with is a function parameter.
- Java `null` keys and values in a map are not modelled.
