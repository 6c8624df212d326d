/**
 * The projects overview: a constant list of six projects and a filter
 * selector. "all" shows every project; any other filter keeps the projects
 * whose status string equals the filter's own string, so "drafts" matches
 * nothing, the statuses being "draft" and "published".
 */
module Projects {
  datatype Project = Project(
    id: int,
    name: string,
    client: string,
    lastEdited: string,
    status: string,
    documentCount: int
  )

  const Q3Strategy := Project(1, "Q3 Marketing Strategy", "TechCorp", "2 hours ago", "draft", 12)
  const LaunchCampaign := Project(2, "Product Launch Campaign", "InnovateLab", "1 day ago", "published", 8)
  const BrandGuidelines := Project(3, "Brand Guidelines", "DesignStudio", "3 days ago", "published", 15)
  const SocialContent := Project(4, "Social Media Content", "StartupXYZ", "5 hours ago", "draft", 24)
  const AnnualReport := Project(5, "Annual Report", "FinanceGroup", "1 week ago", "published", 6)
  const WebsiteCopy := Project(6, "Website Copy", "WebAgency", "2 days ago", "draft", 18)

  const AllProjects: seq<Project> := [Q3Strategy, LaunchCampaign, BrandGuidelines, SocialContent, AnnualReport, WebsiteCopy]

  datatype Filter = All | Drafts | Published

  /** The string a filter holds as state, and that the status comparison uses. */
  function FilterName(f: Filter): string {
    match f
    case All => "all"
    case Drafts => "drafts"
    case Published => "published"
  }

  /** `ps.filter((p) => p.status === status)`. */
  function Select(ps: seq<Project>, status: string): (r: seq<Project>)
    ensures |r| <= |ps|
    ensures forall p | p in r :: p.status == status
    decreases |ps|
  {
    if ps == [] then []
    else if ps[0].status == status then [ps[0]] + Select(ps[1..], status)
    else Select(ps[1..], status)
  }

  /** `filteredProjects`. */
  function FilteredProjects(f: Filter): (r: seq<Project>)
    ensures forall p | p in r :: p in AllProjects
  {
    SelectCorrect(AllProjects, FilterName(f));
    if f == All then AllProjects else Select(AllProjects, FilterName(f))
  }

  /** `a` is `b` with some elements left out, the rest in their original order. */
  predicate Subsequence(a: seq<Project>, b: seq<Project>)
    decreases |b|
  {
    if a == [] then true
    else if b == [] then false
    else (a[0] == b[0] && Subsequence(a[1..], b[1..])) || Subsequence(a, b[1..])
  }

  /** The filter keeps exactly the projects with the status, in their original order. */
  lemma {:induction false} SelectCorrect(ps: seq<Project>, status: string)
    ensures Subsequence(Select(ps, status), ps)
    ensures forall p :: p in Select(ps, status) <==> p in ps && p.status == status
    ensures forall p :: multiset(Select(ps, status))[p] == if p.status == status then multiset(ps)[p] else 0
    decreases |ps|
  {
    if ps != [] {
      SelectCorrect(ps[1..], status);
      assert ps == [ps[0]] + ps[1..];
      var r := Select(ps, status);
      if ps[0].status == status {
        assert r == [ps[0]] + Select(ps[1..], status);
        assert r[1..] == Select(ps[1..], status);
      }
    }
  }

  /** A status no project carries selects nothing. */
  lemma {:induction false} SelectNone(ps: seq<Project>, status: string)
    requires forall p | p in ps :: p.status != status
    ensures Select(ps, status) == []
    decreases |ps|
  {
    if ps != [] {
      assert ps[0] in ps;
      assert forall p | p in ps[1..] :: p in ps;
      SelectNone(ps[1..], status);
    }
  }

  /** Every filter shows a subsequence of the project list, each shown project matching the filter. */
  lemma FilteredIsSubsequence(f: Filter)
    ensures Subsequence(FilteredProjects(f), AllProjects)
    ensures forall p | p in FilteredProjects(f) :: p in AllProjects && (f == All || p.status == FilterName(f))
  {
    if f == All {
      SubsequenceRefl(AllProjects);
    } else {
      SelectCorrect(AllProjects, FilterName(f));
    }
  }

  lemma {:induction false} SubsequenceRefl(a: seq<Project>)
    ensures Subsequence(a, a)
    decreases |a|
  {
    if a != [] {
      SubsequenceRefl(a[1..]);
    }
  }

  /** "all" shows the six projects as listed. */
  lemma AllFilter()
    ensures FilteredProjects(All) == AllProjects && |FilteredProjects(All)| == 6
  {
  }

  /** "published" shows projects 2, 3 and 5, in that order. */
  lemma PublishedFilter()
    ensures FilteredProjects(Published) == [LaunchCampaign, BrandGuidelines, AnnualReport]
  {
    var st := "published";
    assert Select([], st) == [];
    assert Select([WebsiteCopy], st) == [];
    assert Select([AnnualReport, WebsiteCopy], st) == [AnnualReport];
    assert Select([SocialContent, AnnualReport, WebsiteCopy], st) == [AnnualReport];
    assert Select([BrandGuidelines, SocialContent, AnnualReport, WebsiteCopy], st) == [BrandGuidelines, AnnualReport];
    assert Select([LaunchCampaign, BrandGuidelines, SocialContent, AnnualReport, WebsiteCopy], st)
        == [LaunchCampaign, BrandGuidelines, AnnualReport];
  }

  /** "drafts" shows nothing: no project's status is the string "drafts". */
  lemma DraftsFilter()
    ensures FilteredProjects(Drafts) == []
  {
    SelectNone(AllProjects, "drafts");
  }

  /** "No projects found" appears exactly when the filtered list is empty, which is exactly under "drafts". */
  predicate ShowsEmptyState(f: Filter) {
    |FilteredProjects(f)| == 0
  }

  lemma EmptyStateOnlyForDrafts(f: Filter)
    ensures ShowsEmptyState(f) <==> f == Drafts
  {
    match f
    case All => AllFilter();
    case Drafts => DraftsFilter();
    case Published => PublishedFilter();
  }

  // ---------------------------------------------------------------------------
  // The filter as evidently intended: "drafts" selecting the "draft" projects
  // ---------------------------------------------------------------------------

  /** The status each filter is meant to select. */
  function IntendedStatus(f: Filter): string {
    match f
    case All => "all"
    case Drafts => "draft"
    case Published => "published"
  }

  function IntendedFilteredProjects(f: Filter): seq<Project> {
    if f == All then AllProjects else Select(AllProjects, IntendedStatus(f))
  }

  /** Meant this way, "drafts" shows projects 1, 4 and 6, in that order. */
  lemma IntendedDraftsFilter()
    ensures IntendedFilteredProjects(Drafts) == [Q3Strategy, SocialContent, WebsiteCopy]
  {
    var st := "draft";
    assert Select([], st) == [];
    assert Select([WebsiteCopy], st) == [WebsiteCopy];
    assert Select([AnnualReport, WebsiteCopy], st) == [WebsiteCopy];
    assert Select([SocialContent, AnnualReport, WebsiteCopy], st) == [SocialContent, WebsiteCopy];
    assert Select([BrandGuidelines, SocialContent, AnnualReport, WebsiteCopy], st) == [SocialContent, WebsiteCopy];
    assert Select([LaunchCampaign, BrandGuidelines, SocialContent, AnnualReport, WebsiteCopy], st)
        == [SocialContent, WebsiteCopy];
  }

  /** Meant this way, "drafts" and "published" split the projects: each one is shown by exactly one of them. */
  lemma IntendedFiltersPartition()
    ensures forall p | p in AllProjects ::
      (p in IntendedFilteredProjects(Drafts)) != (p in IntendedFilteredProjects(Published))
  {
    SelectCorrect(AllProjects, "draft");
    SelectCorrect(AllProjects, "published");
  }
}
