/** The project list: a single-selection expand/collapse state over an
    ordered list of case-study records, and the view each row derives from it
    (src/components/Projects/Projects.tsx). */
module Projects {
  import opened Optional

  /** One case-study record (src/types/index.ts). */
  datatype Project = Project(
    id: string,
    title: string,
    summary: string,       // the record's `abstract`, a reserved word here
    problem: string,
    constraints: seq<string>,
    methodology: string,
    outcome: string,
    domains: seq<string>,
    period: string,
    link: Option<string>)

  /** `expandedId`: the id of the one open row, or None when all are collapsed. */
  type Expansion = Option<string>

  /** The state before any click: nothing expanded. */
  function Initial(): (e: Expansion)
    ensures forall id :: !IsExpanded(e, id)
  {
    None
  }

  /** A row is expanded exactly when its id is the stored one
      (`expandedId === project.id`): never while collapsed, and for a stored
      id only that id's row. */
  predicate IsExpanded(e: Expansion, id: string)
    ensures e.None? ==> !IsExpanded(e, id)
    ensures e.Some? ==> (IsExpanded(e, id) <==> id == e.value)
  {
    e == Some(id)
  }

  /** `toggleProject(id)`: clicking the open row closes it; clicking any
      other row opens that row and closes whichever was open. */
  function Toggle(e: Expansion, id: string): (r: Expansion)
    ensures IsExpanded(e, id) ==> forall other :: !IsExpanded(r, other)
    ensures !IsExpanded(e, id) ==> IsExpanded(r, id)
    ensures !IsExpanded(e, id) ==> forall other :: other != id ==> !IsExpanded(r, other)
  {
    if e == Some(id) then None else Some(id)
  }

  /** Clicking the same row twice leaves everything collapsed, unless that row
      was the open one to begin with, in which case it is open again. */
  lemma ToggleTwice(e: Expansion, id: string)
    ensures Toggle(Toggle(e, id), id) == if IsExpanded(e, id) then e else None
  {
  }

  /** The state after a sequence of clicks, applied in order. */
  function Clicks(e: Expansion, ids: seq<string>): Expansion
    decreases |ids|
  {
    if |ids| == 0 then e else Clicks(Toggle(e, ids[0]), ids[1..])
  }

  /** After any non-empty sequence of clicks, either nothing is open or the
      row clicked last is open: a click can never open a row other than its
      own. */
  lemma {:induction false} ClicksOpenOnlyLastClicked(e: Expansion, ids: seq<string>)
    requires |ids| > 0
    ensures Clicks(e, ids) == None || Clicks(e, ids) == Some(ids[|ids| - 1])
    decreases |ids|
  {
    if |ids| > 1 {
      ClicksOpenOnlyLastClicked(Toggle(e, ids[0]), ids[1..]);
      assert ids[1..][|ids[1..]| - 1] == ids[|ids| - 1];
    }
  }

  /** Clicking the same row n times from the collapsed state leaves it open
      exactly when n is odd. */
  lemma {:induction false} RepeatedClicksAlternate(id: string, n: nat)
    ensures Clicks(None, seq(n, _ => id)) == if n % 2 == 1 then Some(id) else None
    decreases n
  {
    if n > 0 {
      var ids := seq(n, _ => id);
      assert ids[1..] == seq(n - 1, _ => id);
      if n == 1 {
        assert Clicks(None, ids) == Clicks(Some(id), []);
      } else {
        assert ids[1..][1..] == seq(n - 2, _ => id);
        RepeatedClicksAlternate(id, n - 2);
        assert Clicks(None, ids) == Clicks(Some(id), ids[1..]);
        assert Clicks(Some(id), ids[1..]) == Clicks(None, ids[1..][1..]);
      }
    }
  }

  /** The header shows the first two domain tags (`domains.slice(0, 2)`),
      or all of them when there are fewer. */
  function HeaderDomains(domains: seq<string>): (r: seq<string>)
    ensures |r| == if |domains| < 2 then |domains| else 2
    ensures r <= domains
  {
    if |domains| < 2 then domains else domains[..2]
  }

  /** The expanded detail panel of a row. */
  datatype Panel = Panel(
    problem: string,
    constraints: seq<string>,
    methodology: string,
    outcome: string,
    readMore: Option<string>)

  /** What a row renders: `aria-expanded`, the header, and the panel when open. */
  datatype RowView = RowView(
    key: string,
    ariaExpanded: bool,
    period: string,
    domains: seq<string>,
    title: string,
    summary: string,
    panel: Option<Panel>)

  /** `project.link && ...`: the "Read more" link is rendered only for a
      link that is present and truthy, so an empty string renders nothing. */
  function ReadMore(link: Option<string>): (r: Option<string>)
    ensures r.Some? <==> link.Some? && link.value != ""
    ensures r.Some? ==> r == link
  {
    if link.Some? && link.value != "" then link else None
  }

  /** `ProjectRow`: the panel and `aria-expanded` follow `isExpanded`, and the
      "Read more" link is present exactly when the record has a non-empty link. */
  function RenderRow(p: Project, isExpanded: bool): (v: RowView)
    ensures v.key == p.id && v.title == p.title && v.summary == p.summary && v.period == p.period
    ensures v.ariaExpanded == isExpanded
    ensures v.panel.Some? <==> isExpanded
    ensures v.domains == HeaderDomains(p.domains)
    ensures v.panel.Some? ==> v.panel.value.problem == p.problem
                              && v.panel.value.constraints == p.constraints
                              && v.panel.value.methodology == p.methodology
                              && v.panel.value.outcome == p.outcome
                              && (v.panel.value.readMore.Some? <==> p.link.Some? && p.link.value != "")
                              && (v.panel.value.readMore.Some? ==> v.panel.value.readMore == p.link)
  {
    RowView(
      p.id, isExpanded, p.period, HeaderDomains(p.domains), p.title, p.summary,
      if isExpanded then Some(Panel(p.problem, p.constraints, p.methodology, p.outcome, ReadMore(p.link))) else None)
  }

  /** `projects.map(...)`: one row per record, in order, each told whether it
      is the expanded one. */
  function RenderList(projects: seq<Project>, e: Expansion): (rows: seq<RowView>)
    ensures |rows| == |projects|
    ensures forall i :: 0 <= i < |rows| ==> rows[i] == RenderRow(projects[i], IsExpanded(e, projects[i].id))
  {
    seq(|projects|, i requires 0 <= i < |projects| => RenderRow(projects[i], IsExpanded(e, projects[i].id)))
  }

  /** Record ids are pairwise distinct. */
  predicate DistinctIds(projects: seq<Project>) {
    forall i, j :: 0 <= i < j < |projects| ==> projects[i].id != projects[j].id
  }

  /** With distinct ids, at most one row renders its panel, whatever the state;
      and when the stored id belongs to a record, that record's row is open. */
  lemma AtMostOneOpen(projects: seq<Project>, e: Expansion)
    requires DistinctIds(projects)
    ensures forall i, j :: 0 <= i < |projects| && 0 <= j < |projects| ==>
      (RenderList(projects, e)[i].panel.Some? && RenderList(projects, e)[j].panel.Some? ==> i == j)
    ensures forall i :: 0 <= i < |projects| ==>
      (RenderList(projects, e)[i].ariaExpanded <==> e == Some(projects[i].id))
  {
  }

  /** The ids of the records in the repository's project data
      (src/data/projects.ts). */
  function CatalogueIds(): (ids: seq<string>)
    ensures |ids| == 4
    ensures forall i, j :: 0 <= i < j < |ids| ==> ids[i] != ids[j]
  {
    ["rna-therapeutics", "biomicrofluidics", "clinical-research", "neurodegenerative-research"]
  }

  /** The page's own records: any list whose ids are those of the project
      data has distinct ids, so whatever the state at most one of its rows is
      open, and a row is open exactly when its id is the stored one. */
  lemma CatalogueAtMostOneOpen(ps: seq<Project>, e: Expansion)
    requires |ps| == |CatalogueIds()|
    requires forall i :: 0 <= i < |ps| ==> ps[i].id == CatalogueIds()[i]
    ensures DistinctIds(ps)
    ensures forall i, j :: 0 <= i < |ps| && 0 <= j < |ps| ==>
      (RenderList(ps, e)[i].panel.Some? && RenderList(ps, e)[j].panel.Some? ==> i == j)
    ensures forall i :: 0 <= i < |ps| ==>
      (RenderList(ps, e)[i].ariaExpanded <==> e == Some(CatalogueIds()[i]))
  {
    var ids := CatalogueIds();
    forall i, j | 0 <= i < j < |ps| ensures ps[i].id != ps[j].id {
      assert ps[i].id == ids[i] && ps[j].id == ids[j];
    }
    AtMostOneOpen(ps, e);
  }
}
