/** The projects view (src/components/Projects.ts): a type filter over the stored
    project list, three filter buttons, and one card per shown project. Cards and
    buttons are records, not markup. */
module Projects {
  import opened Types

  /** The filter state: 'all', 'hobby' or 'personal'. */
  datatype Filter = All | Only(kind: ProjectType)

  /** `projects.filter(p => p.type === t)`. */
  function Keep(ps: seq<Project>, t: ProjectType): (r: seq<Project>)
    ensures |r| <= |ps|
    ensures forall i :: 0 <= i < |r| ==> r[i].kind == t
  {
    if ps == [] then []
    else (if ps[0].kind == t then [ps[0]] else []) + Keep(ps[1..], t)
  }

  /** What the grid shows for a filter. */
  function Filtered(ps: seq<Project>, f: Filter): (r: seq<Project>)
    ensures f == All ==> r == ps
    ensures f.Only? ==> forall i :: 0 <= i < |r| ==> r[i].kind == f.kind
  {
    if f == All then ps else Keep(ps, f.kind)
  }

  /** Filtering by type keeps the projects of that type in their original order. */
  lemma {:induction false} KeepIsSubsequence(ps: seq<Project>, t: ProjectType)
    ensures IsSubsequence(Keep(ps, t), ps)
  {
    if ps != [] {
      KeepIsSubsequence(ps[1..], t);
      var rest := Keep(ps[1..], t);
      if ps[0].kind == t {
        assert ([ps[0]] + rest)[1..] == rest;
      } else {
        assert Keep(ps, t) == rest;
        assert rest == [] || rest[0] != ps[0];
      }
    }
  }

  /** ... and exactly those: each project of that type, as often as it occurs. */
  lemma {:induction false} KeepExact(ps: seq<Project>, t: ProjectType, p: Project)
    ensures multiset(Keep(ps, t))[p] == if p.kind == t then multiset(ps)[p] else 0
  {
    if ps != [] {
      var head: seq<Project> := if ps[0].kind == t then [ps[0]] else [];
      assert Keep(ps, t) == head + Keep(ps[1..], t);
      assert multiset(Keep(ps, t)) == multiset(head) + multiset(Keep(ps[1..], t));
      assert ps == [ps[0]] + ps[1..];
      assert multiset(ps) == multiset{ps[0]} + multiset(ps[1..]);
      KeepExact(ps[1..], t, p);
    }
  }

  /** Every project is either a hobby or a personal project. */
  lemma {:induction false} KeepPartition(ps: seq<Project>)
    ensures |Keep(ps, Hobby)| + |Keep(ps, Personal)| == |ps|
  {
    if ps != [] {
      KeepPartition(ps[1..]);
    }
  }

  lemma FilteredIsSubsequence(ps: seq<Project>, f: Filter)
    ensures IsSubsequence(Filtered(ps, f), ps)
  {
    if f == All {
      SubsequenceReflexive(ps);
    } else {
      KeepIsSubsequence(ps, f.kind);
    }
  }

  /** A filter button and whether it carries the active style. */
  datatype FilterButton = FilterButton(filter: Filter, active: bool)

  /** The buttons in the order Все, Личные проекты, Хобби. */
  function Buttons(current: Filter): (r: seq<FilterButton>)
    ensures |r| == 3
    ensures r[0].filter == All && r[1].filter == Only(Personal) && r[2].filter == Only(Hobby)
    ensures forall i :: 0 <= i < 3 ==> (r[i].active <==> r[i].filter == current)
  {
    [FilterButton(All, current == All),
     FilterButton(Only(Personal), current == Only(Personal)),
     FilterButton(Only(Hobby), current == Only(Hobby))]
  }

  /** Exactly one button is active, and it is the one for the current filter. */
  lemma {:induction false} ExactlyOneActive(current: Filter)
    ensures exists i :: 0 <= i < 3 && Buttons(current)[i].active && Buttons(current)[i].filter == current
    ensures forall i, j :: 0 <= i < j < 3 ==> !(Buttons(current)[i].active && Buttons(current)[j].active)
  {
    var b := Buttons(current);
    match current
    case All => assert b[0].active;
    case Only(Personal) => assert b[1].active;
    case Only(Hobby) => assert b[2].active;
  }

  /** A project card: an image or, without one, the title's first character as
      placeholder; the link only when present; one tag per technology. */
  datatype Card = Card(
    title: string,
    description: string,
    image: Option<string>,
    placeholder: Option<string>,
    link: Option<string>,
    tags: seq<string>)

  function RenderProject(p: Project): (c: Card)
    ensures c.title == p.title && c.description == p.description
    ensures c.image.Some? <==> Truthy(p.image)
    ensures c.image.Some? ==> c.image == p.image
    ensures c.placeholder.Some? <==> !Truthy(p.image)
    ensures c.placeholder.Some? ==> c.placeholder.value == (if p.title == "" then "" else [p.title[0]])
    ensures c.link.Some? <==> Truthy(p.link)
    ensures c.link.Some? ==> c.link == p.link
    ensures c.tags == p.technologies
  {
    var image := if Truthy(p.image) then p.image else None;
    // `title.charAt(0)` is the empty string for an empty title
    var placeholder := if Truthy(p.image) then None else Some(if p.title == "" then "" else p.title[..1]);
    var link := if Truthy(p.link) then p.link else None;
    Card(p.title, p.description, image, placeholder, link, p.technologies)
  }

  function RenderCards(ps: seq<Project>): (r: seq<Card>)
    ensures |r| == |ps|
    ensures forall i :: 0 <= i < |ps| ==> r[i] == RenderProject(ps[i])
  {
    if ps == [] then [] else [RenderProject(ps[0])] + RenderCards(ps[1..])
  }

  /** The view's container: the buttons and the cards of the filtered projects. */
  datatype Page = Page(buttons: seq<FilterButton>, cards: seq<Card>)

  /** The buttons for the current filter and one card per project it shows. */
  function RenderPage(ps: seq<Project>, f: Filter): (r: Page)
    ensures r.buttons == Buttons(f)
    ensures |r.cards| == |Filtered(ps, f)|
    ensures forall i :: 0 <= i < |r.cards| ==> r.cards[i] == RenderProject(Filtered(ps, f)[i])
    ensures |r.buttons| == 3 && |r.cards| <= |ps|
    ensures f == All ==> |r.cards| == |ps|
    ensures forall i :: 0 <= i < |r.cards| ==>
      exists p :: p in ps && (f.Only? ==> p.kind == f.kind) && r.cards[i] == RenderProject(p)
  {
    FilteredIsSubsequence(ps, f);
    SubsequenceMembers(Filtered(ps, f), ps);
    Page(Buttons(f), RenderCards(Filtered(ps, f)))
  }

  class ProjectsView {
    var projects: seq<Project>
    var currentFilter: Filter
    var content: Page

    ghost predicate Valid()
      reads this
    {
      content == RenderPage(projects, currentFilter)
    }

    constructor ()
      ensures Valid() && projects == [] && currentFilter == All
    {
      projects := [];
      currentFilter := All;
      content := RenderPage([], All);
    }

    method GetFilteredProjects() returns (r: seq<Project>)
      ensures r == Filtered(projects, currentFilter)
      ensures currentFilter == All ==> r == projects
      ensures IsSubsequence(r, projects)
    {
      FilteredIsSubsequence(projects, currentFilter);
      if currentFilter == All {
        r := projects;
      } else {
        r := Keep(projects, currentFilter.kind);
      }
    }

    method RenderContent()
      modifies this
      ensures Valid() && projects == old(projects) && currentFilter == old(currentFilter)
    {
      var shown := GetFilteredProjects();
      content := Page(Buttons(currentFilter), RenderCards(shown));
    }

    /** `render(projects)`: stores the list and re-renders under the current filter. */
    method Render(ps: seq<Project>)
      modifies this
      ensures Valid() && projects == ps && currentFilter == old(currentFilter)
    {
      projects := ps;
      RenderContent();
    }

    /** A click on the button whose `data-filter` is `f`. */
    method ClickFilter(f: Filter)
      modifies this
      ensures Valid() && currentFilter == f && projects == old(projects)
    {
      currentFilter := f;
      RenderContent();
    }
  }

  /** Two clicks on the same button leave the view as one click does. */
  method ClickTwice(v: ProjectsView, f: Filter)
    modifies v
    ensures v.Valid() && v.currentFilter == f && v.projects == old(v.projects)
  {
    v.ClickFilter(f);
    v.ClickFilter(f);
  }
}
