/**
 * The organisation pagination reducer. The GraphQL server answers the k-th
 * request of `getOrgInfo` with the k-th element of a finite sequence of
 * responses; the reducer merges the pages it fetches into the first one and
 * then sums four counters over every repository it collected.
 */
module OrgPagination {
  import opened Wrappers

  /** The four open/stale counts of one repository of the organisation. */
  datatype RepoCounts = RepoCounts(orgOpenIssues: nat, orgOpenStaleIssues: nat, orgOpenPR: nat, orgOpenStalePR: nat)

  /**
   * The `organization` object of one response: its verification flag and
   * one page of its repository list (`totalCount`, `pageInfo`, `nodes`).
   */
  datatype Organization = Organization(
    isVerified: bool,
    totalCount: nat,
    endCursor: string,
    hasNextPage: bool,
    nodes: seq<RepoCounts>)

  /** What `getOrgInfo` returns: the merged organisation and the four sums. */
  datatype OrgInfo = OrgInfo(
    organization: Organization,
    orgOpenIssueCount: nat,
    orgOpenStaleIssueCount: nat,
    orgOpenPrCount: nat,
    orgOpenStalePrCount: nat)

  /** The server eventually reports that there is no further page. */
  predicate Terminates(responses: seq<Organization>)
  {
    exists k :: 0 <= k < |responses| && !responses[k].hasNextPage
  }

  /** The index of the first response that reports no further page. */
  function LastPage(responses: seq<Organization>): (n: nat)
    requires Terminates(responses)
    ensures n < |responses| && !responses[n].hasNextPage
    ensures forall k :: 0 <= k < n ==> responses[k].hasNextPage
  {
    if !responses[0].hasNextPage then 0
    else
      assert Terminates(responses[1..]) by {
        var k :| 0 <= k < |responses| && !responses[k].hasNextPage;
        assert responses[1..][k - 1] == responses[k];
      }
      1 + LastPage(responses[1..])
  }

  /** The repositories of `pages`, page after page, in order. */
  function Flatten(pages: seq<Organization>): (repos: seq<RepoCounts>)
  {
    if pages == [] then []
    else Flatten(pages[..|pages| - 1]) + pages[|pages| - 1].nodes
  }

  function Add(a: RepoCounts, b: RepoCounts): (c: RepoCounts)
  {
    RepoCounts(a.orgOpenIssues + b.orgOpenIssues, a.orgOpenStaleIssues + b.orgOpenStaleIssues,
               a.orgOpenPR + b.orgOpenPR, a.orgOpenStalePR + b.orgOpenStalePR)
  }

  const Zero := RepoCounts(0, 0, 0, 0)

  /** The componentwise sum of the counts of `repos`. */
  function Sum(repos: seq<RepoCounts>): (total: RepoCounts)
  {
    if repos == [] then Zero
    else Add(Sum(repos[..|repos| - 1]), repos[|repos| - 1])
  }

  /**
   * The `while (hasNextPage)` loop: the first response becomes the
   * organisation; each later one appends its `nodes` and overwrites
   * `endCursor`. `cursors` records the `after` argument of each request.
   */
  method CollectPages(responses: seq<Organization>)
    returns (organization: Organization, ghost cursors: seq<Option<string>>)
    requires Terminates(responses)
    ensures organization == responses[0].(
      nodes := Flatten(responses[..LastPage(responses) + 1]),
      endCursor := responses[LastPage(responses)].endCursor)
    ensures |cursors| == LastPage(responses) + 1
    ensures cursors[0] == None
    ensures forall k :: 0 < k < |cursors| ==> cursors[k] == Some(responses[k - 1].endCursor)
  {
    ghost var last := LastPage(responses);
    var hasNextPage := true;
    var org: Option<Organization> := None;
    var k := 0;
    cursors := [];
    while hasNextPage
      invariant 0 <= k <= last + 1
      invariant hasNextPage <==> k <= last
      invariant org.None? <==> k == 0
      invariant org.Some? ==> org.value == responses[0].(
        nodes := Flatten(responses[..k]), endCursor := responses[k - 1].endCursor)
      invariant |cursors| == k
      invariant k > 0 ==> cursors[0] == None
      invariant forall i :: 0 < i < k ==> cursors[i] == Some(responses[i - 1].endCursor)
      decreases last + 1 - k
    {
      var afterParam := if org.None? then None else Some(org.value.endCursor);
      cursors := cursors + [afterParam];
      var furtherOrgInfo := responses[k];
      assert responses[..k + 1][..k] == responses[..k];
      if org.None? {
        org := Some(furtherOrgInfo);
      } else {
        org := Some(org.value.(nodes := org.value.nodes + furtherOrgInfo.nodes));
      }
      hasNextPage := furtherOrgInfo.hasNextPage;
      org := Some(org.value.(endCursor := furtherOrgInfo.endCursor));
      k := k + 1;
    }
    organization := org.value;
  }

  /** The `for` loop that adds up the four counters over the collected repositories. */
  method SumRepoCounts(orgRepos: seq<RepoCounts>)
    returns (orgOpenIssueCount: nat, orgOpenStaleIssueCount: nat, orgOpenPrCount: nat, orgOpenStalePrCount: nat)
    ensures RepoCounts(orgOpenIssueCount, orgOpenStaleIssueCount, orgOpenPrCount, orgOpenStalePrCount) == Sum(orgRepos)
  {
    orgOpenIssueCount, orgOpenStaleIssueCount, orgOpenPrCount, orgOpenStalePrCount := 0, 0, 0, 0;
    for i := 0 to |orgRepos|
      invariant RepoCounts(orgOpenIssueCount, orgOpenStaleIssueCount, orgOpenPrCount, orgOpenStalePrCount)
        == Sum(orgRepos[..i])
    {
      var currentRepo := orgRepos[i];
      assert orgRepos[..i + 1][..i] == orgRepos[..i];
      orgOpenIssueCount := orgOpenIssueCount + currentRepo.orgOpenIssues;
      orgOpenStaleIssueCount := orgOpenStaleIssueCount + currentRepo.orgOpenStaleIssues;
      orgOpenPrCount := orgOpenPrCount + currentRepo.orgOpenPR;
      orgOpenStalePrCount := orgOpenStalePrCount + currentRepo.orgOpenStalePR;
    }
    assert orgRepos[..|orgRepos|] == orgRepos;
  }

  /** `getOrgInfo` after the GraphQL calls: pagination, then summation. */
  method GetOrgInfo(responses: seq<Organization>) returns (info: OrgInfo)
    requires Terminates(responses)
    ensures info.organization == responses[0].(
      nodes := Flatten(responses[..LastPage(responses) + 1]),
      endCursor := responses[LastPage(responses)].endCursor)
    ensures RepoCounts(info.orgOpenIssueCount, info.orgOpenStaleIssueCount, info.orgOpenPrCount, info.orgOpenStalePrCount)
      == Sum(Flatten(responses[..LastPage(responses) + 1]))
  {
    var organization, _ := CollectPages(responses);
    var orgRepos := organization.nodes;
    var a, b, c, d := SumRepoCounts(orgRepos);
    info := OrgInfo(organization, a, b, c, d);
  }

  /** Summation splits over a concatenation. */
  lemma {:induction false} SumAppend(a: seq<RepoCounts>, b: seq<RepoCounts>)
    ensures Sum(a + b) == Add(Sum(a), Sum(b))
  {
    if b == [] {
      assert a + b == a;
    } else {
      var b', y := b[..|b| - 1], b[|b| - 1];
      var ab := a + b;
      assert ab[..|ab| - 1] == a + b';
      assert ab[|ab| - 1] == y;
      assert Sum(ab) == Add(Sum(a + b'), y);
      SumAppend(a, b');
      AddAssociative(Sum(a), Sum(b'), y);
      assert Sum(b) == Add(Sum(b'), y);
    }
  }

  lemma AddAssociative(x: RepoCounts, y: RepoCounts, z: RepoCounts)
    ensures Add(Add(x, y), z) == Add(x, Add(y, z))
  {
  }

  /** The sum of the per-page sums. */
  function PageSums(pages: seq<Organization>): (total: RepoCounts)
  {
    if pages == [] then Zero
    else Add(PageSums(pages[..|pages| - 1]), Sum(pages[|pages| - 1].nodes))
  }

  /** Totals over all pages are the totals of the single pages added up. */
  lemma {:induction false} SumOfFlattenIsPageSums(pages: seq<Organization>)
    ensures Sum(Flatten(pages)) == PageSums(pages)
  {
    if pages != [] {
      var init := pages[..|pages| - 1];
      SumOfFlattenIsPageSums(init);
      SumAppend(Flatten(init), pages[|pages| - 1].nodes);
    }
  }

  /**
   * Re-partitioning: however the same repository list is split into pages
   * (one page of 250 or pages of 100, 100 and 50), the per-page sums add up
   * to the same totals.
   */
  lemma RepartitionInvariant(p1: seq<Organization>, p2: seq<Organization>)
    requires Flatten(p1) == Flatten(p2)
    ensures PageSums(p1) == PageSums(p2)
  {
    SumOfFlattenIsPageSums(p1);
    SumOfFlattenIsPageSums(p2);
  }

  /** Totals do not depend on the order of the repositories. */
  lemma {:induction false} SumPermutationInvariant(a: seq<RepoCounts>, b: seq<RepoCounts>)
    requires multiset(a) == multiset(b)
    ensures Sum(a) == Sum(b)
    decreases |a|
  {
    if a == [] {
      assert |b| == |multiset(b)| == 0;
    } else {
      var x := a[|a| - 1];
      var a' := a[..|a| - 1];
      assert a == a' + [x];
      assert multiset(a') == multiset(a) - multiset{x};
      assert x in multiset(b);
      var i :| 0 <= i < |b| && b[i] == x;
      var b' := b[..i] + b[i + 1..];
      MultisetRemoveAt(b, i);
      SumPermutationInvariant(a', b');
      SumRemoveAt(b, i);
    }
  }

  lemma MultisetRemoveAt(b: seq<RepoCounts>, i: nat)
    requires i < |b|
    ensures multiset(b[..i] + b[i + 1..]) == multiset(b) - multiset{b[i]}
  {
    assert b == b[..i] + [b[i]] + b[i + 1..];
  }

  /** Taking one repository out of a list takes its counts out of the sum. */
  lemma SumRemoveAt(b: seq<RepoCounts>, i: nat)
    requires i < |b|
    ensures Sum(b) == Add(Sum(b[..i] + b[i + 1..]), b[i])
  {
    var l, x, r := b[..i], b[i], b[i + 1..];
    var lx := l + [x];
    assert b == lx + r;
    SumAppend(lx, r);
    assert lx[..|lx| - 1] == l;
    assert Sum(lx) == Add(Sum(l), x);
    SumAppend(l, r);
    AddRotate(Sum(l), x, Sum(r));
  }

  lemma AddRotate(x: RepoCounts, y: RepoCounts, z: RepoCounts)
    ensures Add(Add(x, y), z) == Add(Add(x, z), y)
  {
  }

  /** The merged organisation keeps the first response's organisation-level fields. */
  lemma FirstPageFieldsKept(responses: seq<Organization>, organization: Organization)
    requires Terminates(responses)
    requires organization == responses[0].(
      nodes := Flatten(responses[..LastPage(responses) + 1]),
      endCursor := responses[LastPage(responses)].endCursor)
    ensures organization.isVerified == responses[0].isVerified
    ensures organization.totalCount == responses[0].totalCount
    ensures organization.hasNextPage == responses[0].hasNextPage
  {
  }
}
