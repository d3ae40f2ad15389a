/** The project store of `src/data/projectData/ProjectManager.ts`: a list of
    projects loaded with defaults, priority-sorted views of it, and the
    operations that add, change and remove projects in place. Project ids are
    natural numbers here (the source keeps them as numeric strings). */
module Projects {
  import opened Wrappers
  import opened Seqs
  import opened StableSort

  datatype ProjectKind = Agent | Workflow | Fullstack | Misc

  /** The filter argument of `getProjectsByType`: a kind, or 'all'. */
  datatype ProjectType = OfKind(kind: ProjectKind) | All

  datatype Project = Project(
    id: nat,
    title: string,
    description: string,
    image: string,
    quickViewImage: Option<string>,
    video: Option<string>,
    tags: seq<string>,
    stack: seq<string>,
    timeline: string,
    features: seq<string>,
    challenges: Option<seq<string>>,
    githubUrl: Option<string>,
    liveUrl: Option<string>,
    kind: ProjectKind,
    quickViewEnabled: bool,
    featured: bool,
    priority: int)

  /** A project as loaded or as passed to `addProject`: no id, and
      `featured` and `priority` possibly missing. */
  datatype Draft = Draft(
    title: string,
    description: string,
    image: string,
    quickViewImage: Option<string>,
    video: Option<string>,
    tags: seq<string>,
    stack: seq<string>,
    timeline: string,
    features: seq<string>,
    challenges: Option<seq<string>>,
    githubUrl: Option<string>,
    liveUrl: Option<string>,
    kind: ProjectKind,
    quickViewEnabled: bool,
    featured: Option<bool>,
    priority: Option<int>)

  /** One entry of the projects data file. */
  datatype RawProject = RawProject(id: nat, draft: Draft)

  /** A `Partial<Project>`: the fields present in an update. */
  datatype ProjectUpdate = ProjectUpdate(
    id: Option<nat>,
    title: Option<string>,
    description: Option<string>,
    image: Option<string>,
    quickViewImage: Option<Option<string>>,
    video: Option<Option<string>>,
    tags: Option<seq<string>>,
    stack: Option<seq<string>>,
    timeline: Option<string>,
    features: Option<seq<string>>,
    challenges: Option<Option<seq<string>>>,
    githubUrl: Option<Option<string>>,
    liveUrl: Option<Option<string>>,
    kind: Option<ProjectKind>,
    quickViewEnabled: Option<bool>,
    featured: Option<bool>,
    priority: Option<int>)

  const NoChanges := ProjectUpdate(None, None, None, None, None, None, None, None, None, None, None, None, None, None, None, None, None)

  datatype ProjectError = NotFound(id: nat)

  /** The priority a project without one is loaded with. */
  const DefaultPriority := 999

  /** The project `d` describes, under `id`, with `featured` defaulting to
      false and `priority` to `defaultPriority`. */
  function Complete(id: nat, d: Draft, defaultPriority: int): (p: Project)
    ensures p.id == id && p.title == d.title && p.description == d.description && p.image == d.image
    ensures p.quickViewImage == d.quickViewImage && p.video == d.video && p.tags == d.tags
    ensures p.stack == d.stack && p.timeline == d.timeline && p.features == d.features
    ensures p.challenges == d.challenges && p.githubUrl == d.githubUrl && p.liveUrl == d.liveUrl
    ensures p.kind == d.kind && p.quickViewEnabled == d.quickViewEnabled
    ensures p.featured == (d.featured.Some? && d.featured.value)
    ensures p.priority == if d.priority.Some? then d.priority.value else defaultPriority
  {
    Project(id, d.title, d.description, d.image, d.quickViewImage, d.video, d.tags, d.stack,
            d.timeline, d.features, d.challenges, d.githubUrl, d.liveUrl, d.kind,
            d.quickViewEnabled, d.featured.GetOr(false), d.priority.GetOr(defaultPriority))
  }

  /** `{ ...p, ...u }`: each field present in `u` replaces the one in `p`. */
  function Apply(p: Project, u: ProjectUpdate): Project {
    Project(u.id.GetOr(p.id), u.title.GetOr(p.title), u.description.GetOr(p.description),
            u.image.GetOr(p.image), u.quickViewImage.GetOr(p.quickViewImage), u.video.GetOr(p.video),
            u.tags.GetOr(p.tags), u.stack.GetOr(p.stack), u.timeline.GetOr(p.timeline),
            u.features.GetOr(p.features), u.challenges.GetOr(p.challenges),
            u.githubUrl.GetOr(p.githubUrl), u.liveUrl.GetOr(p.liveUrl), u.kind.GetOr(p.kind),
            u.quickViewEnabled.GetOr(p.quickViewEnabled), u.featured.GetOr(p.featured),
            u.priority.GetOr(p.priority))
  }

  /** An empty update changes nothing, applying an update twice is the same as
      once, and a field the update does not carry keeps its value. */
  lemma ApplyProps(p: Project, u: ProjectUpdate)
    ensures Apply(p, NoChanges) == p
    ensures Apply(Apply(p, u), u) == Apply(p, u)
    ensures u.id.None? ==> Apply(p, u).id == p.id
    ensures u.featured.None? ==> Apply(p, u).featured == p.featured
    ensures u.priority.None? ==> Apply(p, u).priority == p.priority
    ensures u.id.Some? ==> Apply(p, u).id == u.id.value
  {
  }

  /** `findIndex` / `find` by id: the first position holding `id`. */
  function FindIndex(ps: seq<Project>, id: nat): (r: Option<nat>)
    ensures r.Some? ==> r.value < |ps| && ps[r.value].id == id && forall k :: 0 <= k < r.value ==> ps[k].id != id
    ensures r.None? <==> forall k :: 0 <= k < |ps| ==> ps[k].id != id
  {
    if ps == [] then None
    else if ps[0].id == id then Some(0)
    else match FindIndex(ps[1..], id)
      case None => None
      case Some(k) => Some(k + 1)
  }

  /** The largest id, or 0 for no projects. */
  function MaxId(ps: seq<Project>): (m: nat)
    ensures forall k :: 0 <= k < |ps| ==> ps[k].id <= m
    ensures m == 0 || exists k :: 0 <= k < |ps| && ps[k].id == m
  {
    if ps == [] then 0
    else var rest := MaxId(ps[1..]);
      if ps[0].id > rest then ps[0].id else rest
  }

  /** `generateProjectId`: one more than the largest id, at least 1. */
  function NextId(ps: seq<Project>): nat {
    MaxId(ps) + 1
  }

  /** A generated id is new. */
  lemma NextIdFresh(ps: seq<Project>)
    ensures NextId(ps) >= 1
    ensures forall k :: 0 <= k < |ps| ==> ps[k].id != NextId(ps)
    ensures FindIndex(ps, NextId(ps)).None?
  {
  }

  /** The largest priority, floored at 0. */
  function MaxPriority(ps: seq<Project>): (m: int)
    ensures m >= 0
    ensures forall k :: 0 <= k < |ps| ==> ps[k].priority <= m
    ensures m == 0 || exists k :: 0 <= k < |ps| && ps[k].priority == m
  {
    if ps == [] then 0
    else var rest := MaxPriority(ps[1..]);
      if ps[0].priority > rest then ps[0].priority else rest
  }

  /** `getNextPriority`: one more than the largest priority, at least 1. */
  function NextPriority(ps: seq<Project>): int {
    MaxPriority(ps) + 1
  }

  /** A project added with the next priority sorts after every existing one. */
  lemma NextPriorityLast(ps: seq<Project>)
    ensures NextPriority(ps) >= 1
    ensures forall k :: 0 <= k < |ps| ==> ps[k].priority < NextPriority(ps)
    ensures (forall k :: 0 <= k < |ps| ==> ps[k].priority <= 0) ==> NextPriority(ps) == 1
  {
  }

  /** The sort key for "lowest priority number first". */
  function Urgency(p: Project): int { -p.priority }

  predicate ByPriority(s: seq<Project>) {
    forall i, j :: 0 <= i < j < |s| ==> s[i].priority <= s[j].priority
  }

  /** `sort((a, b) => a.priority - b.priority)` on a copy: the engine's sort
      is stable, so projects of equal priority (every project loaded without
      one has 999) keep their list order. */
  function SortByPriority(s: seq<Project>): (r: seq<Project>)
    ensures multiset(r) == multiset(s) && |r| == |s|
    ensures ByPriority(r)
    ensures forall k :: WithKey(r, Urgency, k) == WithKey(s, Urgency, k)
  {
    SortDescPerm(s, Urgency);
    SortDescSorted(s, Urgency);
    forall k ensures WithKey(SortDesc(s, Urgency), Urgency, k) == WithKey(s, Urgency, k) {
      SortDescStable(s, Urgency, k);
    }
    SortDesc(s, Urgency)
  }

  /** The project with `featured` flipped. */
  function Flipped(p: Project): Project { p.(featured := !p.featured) }

  /** Toggling twice restores the project, and never moves its id. */
  lemma FlippedTwice(ps: seq<Project>, id: nat)
    requires FindIndex(ps, id).Some?
    ensures var k := FindIndex(ps, id).value;
      var once := ps[k := Flipped(ps[k])];
      && FindIndex(once, id) == FindIndex(ps, id)
      && once[k := Flipped(once[k])] == ps
  {
    var k := FindIndex(ps, id).value;
    var once := ps[k := Flipped(ps[k])];
    assert forall j :: 0 <= j < |ps| ==> once[j].id == ps[j].id;
    FindIndexSameIds(ps, once, id);
  }

  /** Lists with the same ids at every position find the same index. */
  lemma FindIndexSameIds(a: seq<Project>, b: seq<Project>, id: nat)
    requires |a| == |b| && forall j :: 0 <= j < |a| ==> a[j].id == b[j].id
    ensures FindIndex(a, id) == FindIndex(b, id)
  {
    var ra := FindIndex(a, id);
    var rb := FindIndex(b, id);
    if ra.Some? && rb.Some? {
      assert !(ra.value < rb.value) && !(rb.value < ra.value);
    }
  }

  class ProjectManager {
    var projects: seq<Project>

    /** Loads the data file, giving each project `featured = false` and
        `priority = 999` where it has none. */
    constructor (data: seq<RawProject>)
      ensures |projects| == |data|
      ensures forall i :: 0 <= i < |data| ==> projects[i] == Complete(data[i].id, data[i].draft, DefaultPriority)
    {
      projects := seq(|data|, i requires 0 <= i < |data| => Complete(data[i].id, data[i].draft, DefaultPriority));
    }

    /** `getAllProjects`: every project, lowest priority number first, equal
        priorities in list order. */
    function GetAllProjects(): (r: seq<Project>)
      reads this
      ensures multiset(r) == multiset(projects) && |r| == |projects|
      ensures ByPriority(r)
      ensures forall k :: WithKey(r, Urgency, k) == WithKey(projects, Urgency, k)
    {
      SortByPriority(projects)
    }

    /** The featured projects, in list order. */
    function Featured(): seq<Project>
      reads this
    {
      Filter(projects, (p: Project) => p.featured)
    }

    /** The projects of type `t`, in list order. */
    function OfType(t: ProjectType): seq<Project>
      reads this
    {
      Filter(projects, (p: Project) => t == OfKind(p.kind))
    }

    /** `getFeaturedProjects`: the featured projects, lowest priority number
        first, equal priorities in list order. */
    function GetFeaturedProjects(): (r: seq<Project>)
      reads this
      ensures multiset(r) == multiset(Featured())
      ensures ByPriority(r)
      ensures forall k :: WithKey(r, Urgency, k) == WithKey(Featured(), Urgency, k)
      ensures forall i :: 0 <= i < |r| ==> r[i].featured && r[i] in projects
      ensures forall i :: 0 <= i < |projects| && projects[i].featured ==> projects[i] in r
    {
      PermSameMembers(Featured(), SortByPriority(Featured()));
      SortByPriority(Featured())
    }

    /** `getProjectsByType`: the projects of kind `t`, lowest priority number
        first, equal priorities in list order; no project has type 'all', so
        that request yields nothing. */
    function GetProjectsByType(t: ProjectType): (r: seq<Project>)
      reads this
      ensures multiset(r) == multiset(OfType(t))
      ensures ByPriority(r)
      ensures forall k :: WithKey(r, Urgency, k) == WithKey(OfType(t), Urgency, k)
      ensures forall i :: 0 <= i < |r| ==> t == OfKind(r[i].kind) && r[i] in projects
      ensures forall i :: 0 <= i < |projects| && t == OfKind(projects[i].kind) ==> projects[i] in r
      ensures t == All ==> r == []
    {
      PermSameMembers(OfType(t), SortByPriority(OfType(t)));
      SortByPriority(OfType(t))
    }

    /** `addProject`: appends the draft under a fresh id, with the next
        priority where it has none, and returns it. */
    method AddProject(d: Draft) returns (p: Project)
      modifies this
      ensures p == Complete(NextId(old(projects)), d, NextPriority(old(projects)))
      ensures projects == old(projects) + [p]
    {
      p := Complete(NextId(projects), d, NextPriority(projects));
      projects := projects + [p];
    }

    /** `updateProject`: the first project with `id` becomes itself overridden
        by `u`; an unknown id is an error and changes nothing. */
    method UpdateProject(id: nat, u: ProjectUpdate) returns (res: Result<Project, ProjectError>)
      modifies this
      ensures FindIndex(old(projects), id).None? ==> res == Failure(NotFound(id)) && projects == old(projects)
      ensures FindIndex(old(projects), id).Some? ==>
        var k := FindIndex(old(projects), id).value;
        projects == old(projects)[k := Apply(old(projects)[k], u)] && res == Success(projects[k])
    {
      var index := FindIndex(projects, id);
      if index.None? {
        return Failure(NotFound(id));
      }
      var k := index.value;
      projects := projects[k := Apply(projects[k], u)];
      res := Success(projects[k]);
    }

    /** `deleteProject`: removes the first project with `id`; an unknown id is
        an error and changes nothing. */
    method DeleteProject(id: nat) returns (res: Result<(), ProjectError>)
      modifies this
      ensures FindIndex(old(projects), id).None? ==> res == Failure(NotFound(id)) && projects == old(projects)
      ensures FindIndex(old(projects), id).Some? ==>
        var k := FindIndex(old(projects), id).value;
        projects == old(projects)[..k] + old(projects)[k + 1..] && res == Success(())
    {
      var index := FindIndex(projects, id);
      if index.None? {
        return Failure(NotFound(id));
      }
      var k := index.value;
      projects := projects[..k] + projects[k + 1..];
      res := Success(());
    }

    /** `toggleFeatured`: flips `featured` on the first project with `id`. */
    method ToggleFeatured(id: nat) returns (res: Result<Project, ProjectError>)
      modifies this
      ensures FindIndex(old(projects), id).None? ==> res == Failure(NotFound(id)) && projects == old(projects)
      ensures FindIndex(old(projects), id).Some? ==>
        var k := FindIndex(old(projects), id).value;
        projects == old(projects)[k := Flipped(old(projects)[k])] && res == Success(projects[k])
    {
      var index := FindIndex(projects, id);
      if index.None? {
        return Failure(NotFound(id));
      }
      var k := index.value;
      projects := projects[k := Flipped(projects[k])];
      res := Success(projects[k]);
    }

    /** `updatePriority`: sets the priority of the first project with `id`. */
    method UpdatePriority(id: nat, priority: int) returns (res: Result<Project, ProjectError>)
      modifies this
      ensures FindIndex(old(projects), id).None? ==> res == Failure(NotFound(id)) && projects == old(projects)
      ensures FindIndex(old(projects), id).Some? ==>
        var k := FindIndex(old(projects), id).value;
        projects == old(projects)[k := old(projects)[k].(priority := priority)] && res == Success(projects[k])
    {
      var index := FindIndex(projects, id);
      if index.None? {
        return Failure(NotFound(id));
      }
      var k := index.value;
      projects := projects[k := projects[k].(priority := priority)];
      res := Success(projects[k]);
    }
  }

  /** Removing the first match shortens the list by one and keeps the other
      projects in order. */
  lemma DeleteKeepsOthers(ps: seq<Project>, id: nat)
    requires FindIndex(ps, id).Some?
    ensures var k := FindIndex(ps, id).value;
      var after := ps[..k] + ps[k + 1..];
      && |after| == |ps| - 1
      && IsSubseq(after, ps)
      && multiset(after) + multiset{ps[k]} == multiset(ps)
  {
    RemoveAtSubseq(ps, FindIndex(ps, id).value);
    RemoveAtMultiset(ps, FindIndex(ps, id).value);
  }

  lemma RemoveAtMultiset<T>(s: seq<T>, k: nat)
    requires k < |s|
    ensures multiset(s[..k] + s[k + 1..]) + multiset{s[k]} == multiset(s)
  {
    var front, back := s[..k], s[k + 1..];
    assert front + s[k..] == s;
    assert s[k..] == [s[k]] + back;
    assert multiset(s) == multiset(front) + multiset(s[k..]);
    assert multiset(s[k..]) == multiset{s[k]} + multiset(back);
    assert multiset(front + back) == multiset(front) + multiset(back);
  }

  lemma {:induction false} RemoveAtSubseq<T>(s: seq<T>, k: nat)
    requires k < |s|
    ensures IsSubseq(s[..k] + s[k + 1..], s)
  {
    var r := s[..k] + s[k + 1..];
    if k == 0 {
      assert r == s[1..];
      PrefixIsSubseq(s[1..], |s| - 1);
      assert s[1..][..|s| - 1] == s[1..];
    } else {
      RemoveAtSubseq(s[1..], k - 1);
      assert r[0] == s[0];
      assert s[1..][..k - 1] + s[1..][k..] == r[1..];
    }
  }
}
