/** The user table's derived view: the company options, the name and company
    filters, the email sort and the visible page, as pure functions of the
    cached users and the table's view state. */
module TableView {

  import opened Users
  import opened Text
  import opened Seqs
  import opened EmailSort
  import opened Pagination

  /** The sentinel company choice that disables the company filter. */
  const AllCompanies := "all"

  /** The table's local state: search text, company choice, sort direction,
      requested page, and the last seen row count (`prevCountRef`). */
  datatype ViewState = ViewState(q: string, company: string, sortDir: SortDir, page: int, prevCount: nat)

  /** What the table renders. */
  datatype View = View(companies: seq<string>, rows: seq<User>, page: int, totalPages: int)

  /** `data.map((u) => u.company?.name)`. */
  function CompanyNames(data: seq<User>): (r: seq<string>)
    ensures |r| == |data|
    ensures forall i :: 0 <= i < |data| ==> r[i] == data[i].company
  {
    seq(|data|, i requires 0 <= i < |data| => data[i].company)
  }

  /** `r` lists names of `names` in the order of their first appearance. */
  ghost predicate FirstSeenOrder(r: seq<string>, names: seq<string>)
  {
    forall i, j :: 0 <= i < j < |r| ==> FirstIndex(names, r[i]) < FirstIndex(names, r[j])
  }

  /** The four promises of `Companies`, for the users `data`. */
  ghost predicate CompanyOptions(r: seq<string>, data: seq<User>)
  {
    && (forall i, j :: 0 <= i < j < |r| ==> r[i] != r[j])
    && (forall c :: c in r ==> c != "" && c in CompanyNames(data))
    && (forall i :: 0 <= i < |data| && data[i].company != "" ==> data[i].company in r)
    && FirstSeenOrder(r, CompanyNames(data))
  }

  /** `Array.from(new Set(names.filter(Boolean)))`: the distinct non-empty
      company names, each at the position of its first appearance. */
  function Companies(data: seq<User>): (r: seq<string>)
    ensures forall i, j :: 0 <= i < j < |r| ==> r[i] != r[j]
    ensures forall c :: c in r ==> c != "" && c in CompanyNames(data)
    ensures forall i :: 0 <= i < |data| && data[i].company != "" ==> data[i].company in r
    ensures FirstSeenOrder(r, CompanyNames(data))
  {
    if |data| == 0 then []
    else
      var init := Companies(data[..|data| - 1]);
      assert CompanyOptions(init, data[..|data| - 1]);
      var c := data[|data| - 1].company;
      if c == "" || c in init then
        CompaniesSkip(data, init);
        init
      else
        CompaniesAdd(data, init);
        init + [c]
  }

  /** The names a prefix of the users lists are the same in the whole. */
  lemma CompanyNamesPrefix(data: seq<User>, n: nat, init: seq<string>)
    requires n <= |data|
    requires forall c :: c in init ==> c in CompanyNames(data[..n])
    ensures CompanyNames(data[..n]) == CompanyNames(data)[..n]
    ensures forall x :: x in init ==>
      x in CompanyNames(data) && FirstIndex(CompanyNames(data), x) == FirstIndex(CompanyNames(data[..n]), x) < n
  {
    var names := CompanyNames(data);
    assert CompanyNames(data[..n]) == names[..n];
    forall x | x in init
      ensures x in names && FirstIndex(names, x) == FirstIndex(names[..n], x) < n
    {
      FirstIndexPrefix(names, n, x);
    }
  }

  /** Step of `Companies` when the last user's company is empty or already listed. */
  lemma CompaniesSkip(data: seq<User>, init: seq<string>)
    requires |data| > 0 && CompanyOptions(init, data[..|data| - 1])
    requires data[|data| - 1].company == "" || data[|data| - 1].company in init
    ensures CompanyOptions(init, data)
  {
    var n := |data| - 1;
    var names := CompanyNames(data);
    var prefix := CompanyNames(data[..n]);
    CompanyNamesPrefix(data, n, init);
    forall i | 0 <= i < |data| && data[i].company != ""
      ensures data[i].company in init
    {
      if i < n {
        assert data[..n][i] == data[i];
      }
    }
    forall i, j | 0 <= i < j < |init|
      ensures FirstIndex(names, init[i]) < FirstIndex(names, init[j])
    {
      assert init[i] in init && init[j] in init;
      assert FirstIndex(prefix, init[i]) < FirstIndex(prefix, init[j]);
    }
  }

  /** Step of `Companies` when the last user brings a new company. */
  lemma CompaniesAdd(data: seq<User>, init: seq<string>)
    requires |data| > 0 && CompanyOptions(init, data[..|data| - 1])
    requires data[|data| - 1].company != "" && data[|data| - 1].company !in init
    ensures CompanyOptions(init + [data[|data| - 1].company], data)
  {
    CompaniesAddMembers(data, init);
    CompaniesAddOrder(data, init);
  }

  /** The first three promises of `CompaniesAdd`: the options stay distinct,
      non-empty and drawn from the users, and now cover every user. */
  lemma CompaniesAddMembers(data: seq<User>, init: seq<string>)
    requires |data| > 0 && CompanyOptions(init, data[..|data| - 1])
    requires data[|data| - 1].company != "" && data[|data| - 1].company !in init
    ensures var r := init + [data[|data| - 1].company];
      && (forall i, j :: 0 <= i < j < |r| ==> r[i] != r[j])
      && (forall c :: c in r ==> c != "" && c in CompanyNames(data))
      && (forall i :: 0 <= i < |data| && data[i].company != "" ==> data[i].company in r)
  {
    var n := |data| - 1;
    var c := data[n].company;
    var names := CompanyNames(data);
    var r := init + [c];
    CompanyNamesPrefix(data, n, init);
    assert names[n] == c;
    forall i, j | 0 <= i < j < |r|
      ensures r[i] != r[j]
    {
      assert r[i] == init[i];
      if j < |init| {
        assert r[j] == init[j];
      }
    }
    forall x | x in r
      ensures x != "" && x in names
    {
      if x != c {
        assert x in init;
      }
    }
    forall i | 0 <= i < |data| && data[i].company != ""
      ensures data[i].company in r
    {
      if i < n {
        assert data[..n][i] == data[i];
      }
    }
  }

  /** The last promise of `CompaniesAdd`: the new company, first seen last,
      goes last. */
  lemma CompaniesAddOrder(data: seq<User>, init: seq<string>)
    requires |data| > 0 && CompanyOptions(init, data[..|data| - 1])
    requires data[|data| - 1].company != "" && data[|data| - 1].company !in init
    ensures FirstSeenOrder(init + [data[|data| - 1].company], CompanyNames(data))
  {
    var n := |data| - 1;
    var c := data[n].company;
    var names := CompanyNames(data);
    var prefix := CompanyNames(data[..n]);
    var r := init + [c];
    CompanyNamesPrefix(data, n, init);
    assert names[n] == c;
    forall i, j | 0 <= i < j < |r|
      ensures FirstIndex(names, r[i]) < FirstIndex(names, r[j])
    {
      assert r[i] == init[i] && r[i] in init;
      if j < |init| {
        assert r[j] == init[j] && r[j] in init;
        assert FirstIndex(prefix, init[i]) < FirstIndex(prefix, init[j]);
      } else {
        assert c !in names[..n];
        assert FirstIndex(names, c) == n;
      }
    }
  }

  /** The name test: lower-cased name contains the lower-cased, untrimmed query. */
  predicate NameMatches(u: User, q: string)
  {
    Includes(LowerStr(u.name), LowerStr(q))
  }

  /** The search filter; it applies only when the trimmed query is non-empty. */
  function FilterByName(data: seq<User>, q: string): (r: seq<User>)
    ensures IsBlank(q) ==> r == data
    ensures !IsBlank(q) ==> forall u :: u in r <==> u in data && NameMatches(u, q)
    ensures !IsBlank(q) ==> |r| == Count(data, (u: User) => NameMatches(u, q))
    ensures IsSubseq(r, data)
  {
    SubseqRefl(data);
    if IsBlank(q) then data else Filter(data, (u: User) => NameMatches(u, q))
  }

  /** The company filter; the sentinel "all" keeps everyone. */
  function FilterByCompany(data: seq<User>, company: string): (r: seq<User>)
    ensures company == AllCompanies ==> r == data
    ensures company != AllCompanies ==> forall u :: u in r <==> u in data && u.company == company
    ensures company != AllCompanies ==> |r| == Count(data, (u: User) => u.company == company)
    ensures IsSubseq(r, data)
  {
    SubseqRefl(data);
    if company == AllCompanies then data else Filter(data, (u: User) => u.company == company)
  }

  /** A user passes the search test: a blank query or a matching name. */
  predicate PassesName(u: User, q: string)
  {
    IsBlank(q) || NameMatches(u, q)
  }

  /** A user passes the company test: the sentinel "all" or that company. */
  predicate PassesCompany(u: User, company: string)
  {
    company == AllCompanies || u.company == company
  }

  /** A user passes both tests. */
  predicate PassesBoth(u: User, q: string, company: string)
  {
    PassesName(u, q) && PassesCompany(u, company)
  }

  /** `filtered`: both filters in turn; an order-preserving subsequence of
      `data` holding exactly the users that pass both tests, each as many
      times as it occurs in `data`. */
  function Filtered(data: seq<User>, q: string, company: string): (r: seq<User>)
    ensures IsSubseq(r, data)
    ensures forall u :: u in r <==> u in data && PassesBoth(u, q, company)
    ensures |r| == Count(data, (u: User) => PassesBoth(u, q, company))
  {
    var byName := FilterByName(data, q);
    var r := FilterByCompany(byName, company);
    SubseqTrans(r, byName, data);
    var pName := (u: User) => PassesName(u, q);
    var pCompany := (u: User) => PassesCompany(u, company);
    assert byName == Filter(data, pName) by {
      if IsBlank(q) {
        FilterAll(data, pName);
      } else {
        FilterExtensional(data, (u: User) => NameMatches(u, q), pName);
      }
    }
    assert r == Filter(byName, pCompany) by {
      if company == AllCompanies {
        FilterAll(byName, pCompany);
      } else {
        FilterExtensional(byName, (u: User) => u.company == company, pCompany);
      }
    }
    CountFilter(data, pName, pCompany, (u: User) => PassesBoth(u, q, company));
    r
  }

  /** The whole projection: filter, sort, count pages, clamp, slice. */
  function Project(data: seq<User>, v: ViewState): (r: View)
    ensures r.companies == Companies(data)
    ensures r.totalPages == TotalPages(|Filtered(data, v.q, v.company)|)
    ensures r.page <= r.totalPages && r.page <= v.page
    ensures r.page == v.page || r.page == r.totalPages
    ensures v.page >= 1 ==> 1 <= r.page
    ensures |r.rows| <= PageSize
    ensures forall u :: u in r.rows ==> u in Filtered(data, v.q, v.company)
  {
    var filtered := Filtered(data, v.q, v.company);
    var sorted := Sort(v.sortDir, filtered);
    var total := TotalPages(|sorted|);
    var page := PageClamped(v.page, total);
    var rows := Paged(sorted, page);
    assert forall u :: u in rows ==> u in multiset(sorted);
    View(Companies(data), rows, page, total)
  }

  /** The visible rows are page `page` of the sorted filtered users, and the
      pages together list every one of them exactly once, in sorted order. */
  lemma ProjectPagesPartitionSorted(data: seq<User>, v: ViewState, sorted: seq<User>)
    requires v.page >= 1
    requires sorted == Sort(v.sortDir, Filtered(data, v.q, v.company))
    ensures var r := Project(data, v);
      && r.rows == sorted[Min((r.page - 1) * PageSize, |sorted|)..Min(r.page * PageSize, |sorted|)]
      && Pages(sorted, r.totalPages) == sorted
  {
    SortKeepsLength(v.sortDir, Filtered(data, v.q, v.company));
    var total := TotalPages(|sorted|);
    var page := PageClamped(v.page, total);
    assert Project(data, v) == View(Companies(data), Paged(sorted, page), page, total);
    WindowAndPartition(sorted, Paged(sorted, page), page, total);
  }

  /** The window of a page of at least 1 is a contiguous slice, and the
      pages up to the page count give back every row. */
  lemma WindowAndPartition(sorted: seq<User>, rows: seq<User>, page: int, total: int)
    requires page >= 1 && rows == Paged(sorted, page) && total == TotalPages(|sorted|)
    ensures rows == sorted[Min((page - 1) * PageSize, |sorted|)..Min(page * PageSize, |sorted|)]
    ensures Pages(sorted, total) == sorted
  {
    PagesCoverAllRows(sorted);
  }
}
