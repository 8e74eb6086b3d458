/**
 * The remote hierarchy the clone walk reads, as a finite value: groups with
 * their listing pages of projects and of subgroups, already decoded from the
 * API's JSON. Only the fields the walk reads are kept.
 */
module GitlabRemote {

  /** A project record: id, ssh_url_to_repo and namespace.full_path. */
  datatype Project = Project(id: int, sshUrl: string, fullPath: string)

  /** One page of a paginated listing. */
  datatype Page<T> = Page(records: seq<T>)

  /**
   * A group as the API lists it. Page n of a listing (n >= 1) is pages[n - 1];
   * every page past the end is empty. A page may also be empty before the
   * end: the walk stops at the first empty page it receives.
   */
  datatype Group = Group(id: int, projectPages: seq<Page<Project>>, subgroupPages: seq<Page<Group>>)

  /** The records the API returns for page n of a listing. */
  function PageAt<T>(pages: seq<Page<T>>, n: nat): (r: seq<T>)
    ensures n == 0 || n > |pages| ==> r == []
  {
    if 1 <= n <= |pages| then pages[n - 1].records else []
  }

  /** Pages left to request from page n on; the termination measure of a listing. */
  function Remaining<T>(pages: seq<Page<T>>, n: nat): nat
  {
    if n <= |pages| then |pages| + 1 - n else 0
  }

  /**
   * The pages a listing delivers: the longest prefix of non-empty pages. It
   * ends at the first empty page, or at the end of the listing.
   */
  function Leading<T>(pages: seq<Page<T>>): (r: seq<Page<T>>)
    ensures |r| <= |pages| && r == pages[..|r|]
    ensures forall i :: 0 <= i < |r| ==> r[i].records != []
    ensures |r| < |pages| ==> pages[|r|].records == []
  {
    if pages == [] || pages[0].records == [] then []
    else [pages[0]] + Leading(pages[1..])
  }

  /** When no page is empty, the listing delivers every page. */
  lemma {:induction false} LeadingOfNonEmpty<T>(pages: seq<Page<T>>)
    requires forall i :: 0 <= i < |pages| ==> pages[i].records != []
    ensures Leading(pages) == pages
  {
    if pages != [] {
      LeadingOfNonEmpty(pages[1..]);
      assert [pages[0]] + pages[1..] == pages;
    }
  }

  /** Nothing at or after an empty page is delivered, whatever follows it. */
  lemma {:induction false} LeadingStopsAtEmpty<T>(pages: seq<Page<T>>, j: nat)
    requires j < |pages| && pages[j].records == []
    ensures |Leading(pages)| <= j
    ensures Leading(pages) == Leading(pages[..j])
  {
    if j > 0 && pages[0].records != [] {
      assert pages[1..][j - 1] == pages[j];
      LeadingStopsAtEmpty(pages[1..], j - 1);
      assert pages[1..][..j - 1] == pages[..j][1..];
    }
  }

  /** All records of the pages, page by page. */
  function Records<T>(pages: seq<Page<T>>): seq<T>
  {
    if pages == [] then [] else pages[0].records + Records(pages[1..])
  }

  /**
   * The listing of all groups, cloneAllCanAccess's starting point, has the
   * shape of a subgroup listing; Root wraps it in a group that holds no
   * projects so that the same walk applies.
   */
  function Root(groups: seq<Page<Group>>): Group
  {
    Group(0, [], groups)
  }

  /**
   * The projects of a tree in depth-first pre-order: the group's own
   * projects on its delivered pages, then each subgroup's tree, in listing
   * order.
   */
  function Preorder(g: Group): seq<Project>
    decreases g, 2, 0, 0
  {
    Records(Leading(g.projectPages)) + SubtreesFrom(g, 0)
  }

  /** The trees of the subgroups on the delivered subgroup pages from index p on. */
  function SubtreesFrom(g: Group, p: nat): seq<Project>
    decreases g, 1, if p <= |g.subgroupPages| then |g.subgroupPages| - p else 0, 0
  {
    if p >= |Leading(g.subgroupPages)| then []
    else SubtreesOn(g, p, 0) + SubtreesFrom(g, p + 1)
  }

  /** The trees of the subgroups on subgroup page index p, from position k on. */
  function SubtreesOn(g: Group, p: nat, k: nat): seq<Project>
    requires p < |g.subgroupPages|
    decreases g, 0, 0, |g.subgroupPages[p].records| - k
  {
    var groups := g.subgroupPages[p].records;
    if k >= |groups| then [] else Preorder(groups[k]) + SubtreesOn(g, p, k + 1)
  }
}
