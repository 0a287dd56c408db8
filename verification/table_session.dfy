/** The user table's page navigation rules as a state machine over the
    cached users and the table's view state. */
module TableSession {

  import opened Users
  import Text
  import opened Seqs
  import opened EmailSort
  import opened Pagination
  import opened TableView

  /** The rows the table currently sees (`data`, defaulting to `[]`) and its state. */
  datatype Session = Session(data: seq<User>, view: ViewState)

  /** The user intents and cache changes the table reacts to. */
  datatype Event =
    | PrevPage
    | NextPage
    | Search(q: string)
    | ChooseCompany(company: string)
    | ToggleSort
    | DataChanged(data: seq<User>)

  /** First render: empty search, every company, ascending, page 1, and the
      row count remembered as it is. */
  function Init(data: seq<User>): (s: Session)
    ensures s.data == data && s.view.page == 1 && s.view.prevCount == |data|
    ensures s.view.q == "" && s.view.company == AllCompanies && s.view.sortDir == Asc
  {
    Session(data, ViewState("", AllCompanies, Asc, 1, |data|))
  }

  /** `goPrev`: one page back, never below 1. */
  function GoPrev(v: ViewState): (r: ViewState)
    ensures r.page >= 1
    ensures v.page > 1 ==> r.page == v.page - 1
    ensures v.page <= 1 ==> r.page == 1
    ensures r == v.(page := r.page)
  {
    v.(page := Max(1, v.page - 1))
  }

  /** `goNext`: one page forward, never beyond the current page count. */
  function GoNext(v: ViewState, totalPages: int): (r: ViewState)
    ensures r.page <= totalPages
    ensures v.page < totalPages ==> r.page == v.page + 1
    ensures v.page >= totalPages ==> r.page == totalPages
    ensures v.page >= 0 && totalPages >= 1 ==> r.page >= 1
    ensures r == v.(page := r.page)
  {
    v.(page := Min(totalPages, v.page + 1))
  }

  /** Typing in the search box: new text, back to page 1. */
  function SetQuery(v: ViewState, q: string): (r: ViewState)
    ensures r.q == q && r.page == 1
    ensures r.company == v.company && r.sortDir == v.sortDir && r.prevCount == v.prevCount
  {
    v.(q := q, page := 1)
  }

  /** Picking a company: new choice, back to page 1. */
  function SetCompany(v: ViewState, company: string): (r: ViewState)
    ensures r.company == company && r.page == 1
    ensures r.q == v.q && r.sortDir == v.sortDir && r.prevCount == v.prevCount
  {
    v.(company := company, page := 1)
  }

  /** The sort button flips the direction and keeps the page. */
  function FlipSort(v: ViewState): (r: ViewState)
    ensures r.sortDir != v.sortDir
    ensures r == v.(sortDir := r.sortDir)
  {
    v.(sortDir := if v.sortDir == Asc then Desc else Asc)
  }

  /** The effect on `data.length`: growth resets the page to 1; the new
      length is always remembered. */
  function OnLengthChange(v: ViewState, newLength: nat): (r: ViewState)
    ensures r.prevCount == newLength
    ensures newLength > v.prevCount ==> r.page == 1
    ensures newLength <= v.prevCount ==> r.page == v.page
    ensures r == v.(page := r.page, prevCount := newLength)
  {
    if newLength > v.prevCount then v.(page := 1, prevCount := newLength)
    else v.(prevCount := newLength)
  }

  /** One transition; "next" uses the page count currently on screen. */
  function Step(s: Session, e: Event): Session
  {
    match e
    case PrevPage => s.(view := GoPrev(s.view))
    case NextPage => s.(view := GoNext(s.view, Project(s.data, s.view).totalPages))
    case Search(q) => s.(view := SetQuery(s.view, q))
    case ChooseCompany(c) => s.(view := SetCompany(s.view, c))
    case ToggleSort => s.(view := FlipSort(s.view))
    case DataChanged(d) => Session(d, OnLengthChange(s.view, |d|))
  }

  /** A run of transitions, oldest first. */
  function Run(s: Session, es: seq<Event>): Session
    decreases |es|
  {
    if |es| == 0 then s else Run(Step(s, es[0]), es[1..])
  }

  /** Every transition keeps the requested page at 1 or above. */
  lemma StepKeepsPagePositive(s: Session, e: Event)
    requires s.view.page >= 1
    ensures Step(s, e).view.page >= 1
  {
    if e.NextPage? {
      var total := Project(s.data, s.view).totalPages;
      assert total >= 1;
    }
  }

  /** From the first render, after any run of events, the requested page is
      at least 1 and the page shown lies in `[1, totalPages]`: the missing
      lower clamp never matters. */
  lemma {:induction false} ReachablePageInRange(data: seq<User>, es: seq<Event>)
    ensures Run(Init(data), es).view.page >= 1
    ensures var s := Run(Init(data), es);
      1 <= Project(s.data, s.view).page <= Project(s.data, s.view).totalPages
  {
    RunKeepsPagePositive(Init(data), es);
  }

  /** Induction over a run for `ReachablePageInRange`. */
  lemma {:induction false} RunKeepsPagePositive(s: Session, es: seq<Event>)
    requires s.view.page >= 1
    ensures Run(s, es).view.page >= 1
    decreases |es|
  {
    if |es| > 0 {
      StepKeepsPagePositive(s, es[0]);
      RunKeepsPagePositive(Step(s, es[0]), es[1..]);
    }
  }

  /** The first render filters nothing and shows page 1: the first five
      users in ascending order of lower-cased email, or all of them when
      there are fewer. */
  lemma FirstRenderShowsFirstRows(data: seq<User>)
    ensures Project(data, Init(data).view).page == 1
    ensures var sorted := Sort(Asc, data);
      Project(data, Init(data).view).rows == sorted[..Min(PageSize, |sorted|)]
  {
    var v := Init(data).view;
    FirstRenderKeepsEveryone(data);
    var sorted := Sort(Asc, data);
    ProjectPagesPartitionSorted(data, v, sorted);
    var r := Project(data, v);
    assert 1 <= r.page <= v.page;
  }

  /** At the first render both filters keep every user. */
  lemma FirstRenderKeepsEveryone(data: seq<User>)
    ensures Filtered(data, Init(data).view.q, Init(data).view.company) == data
  {
    assert Text.IsBlank("");
    assert FilterByName(data, "") == data;
    assert FilterByCompany(data, AllCompanies) == data;
  }

  /** A growing collection (an optimistic add) sends the table back to
      page 1, which is then the page shown. */
  lemma AddShowsFirstPage(s: Session, d: seq<User>)
    requires |d| > s.view.prevCount
    ensures Step(s, DataChanged(d)).view.page == 1
    ensures Project(d, Step(s, DataChanged(d)).view).page == 1
  {
    var v := Step(s, DataChanged(d)).view;
    assert v == OnLengthChange(s.view, |d|);
    var r := Project(d, v);
    assert 1 <= r.page <= v.page;
  }
}
