/** The project list: every time a project is opened its clock text is renewed, and the list shows the newest first. */
module Projects {
  import opened Prelude
  import opened Calendar

  datatype Project = Project(id: string, name: string, lastOpened: string)

  // ------------------------------------------------------------------ an order

  lemma {:induction false} BeforeTransitive(a: string, b: string, c: string)
    requires TextBefore(a, b) && TextBefore(b, c)
    ensures TextBefore(a, c)
  {
    if a != "" && b != "" && c != "" && a[0] == b[0] && b[0] == c[0] {
      BeforeTransitive(a[1..], b[1..], c[1..]);
    }
  }

  lemma {:induction false} BeforeAsymmetric(a: string, b: string)
    requires TextBefore(a, b)
    ensures !TextBefore(b, a)
  {
    if a != "" && a[0] == b[0] {
      BeforeAsymmetric(a[1..], b[1..]);
    }
  }

  /** No project is older than one further down. */
  predicate NewestFirst(r: seq<Project>) {
    forall i, j :: 0 <= i < j < |r| ==> !TextBefore(r[i].lastOpened, r[j].lastOpened)
  }

  /** Behind every project opened no earlier. */
  function Insert(p: Project, r: seq<Project>): seq<Project> {
    if r == [] then [p]
    else if TextBefore(r[0].lastOpened, p.lastOpened) then [p] + r
    else [r[0]] + Insert(p, r[1..])
  }

  lemma {:induction false} InsertHas(p: Project, r: seq<Project>)
    ensures multiset(Insert(p, r)) == multiset{p} + multiset(r)
  {
    hide TextBefore;
    if r != [] {
      assert r == [r[0]] + r[1..];
      InsertHas(p, r[1..]);
    }
  }

  lemma NewestTail(r: seq<Project>)
    requires NewestFirst(r) && r != []
    ensures NewestFirst(r[1..]) && forall x :: x in r[1..] ==> !TextBefore(r[0].lastOpened, x.lastOpened)
  {
    hide TextBefore;
    forall i, j | 0 <= i < j < |r[1..]|
      ensures !TextBefore(r[1..][i].lastOpened, r[1..][j].lastOpened)
    {
      assert !TextBefore(r[i + 1].lastOpened, r[j + 1].lastOpened);
    }
    forall x | x in r[1..]
      ensures !TextBefore(r[0].lastOpened, x.lastOpened)
    {
      var i :| 0 <= i < |r[1..]| && r[1..][i] == x;
      assert r[i + 1] == x;
    }
  }

  lemma NewestCons(p: Project, r: seq<Project>)
    requires NewestFirst(r) && forall x :: x in r ==> !TextBefore(p.lastOpened, x.lastOpened)
    ensures NewestFirst([p] + r)
  {
    hide TextBefore;
    var all := [p] + r;
    forall i, j | 0 <= i < j < |all|
      ensures !TextBefore(all[i].lastOpened, all[j].lastOpened)
    {
      assert all[j] == r[j - 1] && r[j - 1] in r;
      if i > 0 {
        assert all[i] == r[i - 1];
      }
    }
  }

  lemma InsertMember(p: Project, r: seq<Project>, x: Project)
    ensures x in Insert(p, r) <==> x == p || x in r
  {
    InsertHas(p, r);
    assert x in Insert(p, r) <==> x in multiset(Insert(p, r));
    assert x in r <==> x in multiset(r);
  }

  lemma {:induction false} InsertNewest(p: Project, r: seq<Project>)
    requires NewestFirst(r)
    ensures NewestFirst(Insert(p, r))
  {
    hide TextBefore;
    if r != [] {
      NewestTail(r);
      if TextBefore(r[0].lastOpened, p.lastOpened) {
        forall x | x in r
          ensures !TextBefore(p.lastOpened, x.lastOpened)
        {
          if TextBefore(p.lastOpened, x.lastOpened) {
            BeforeTransitive(r[0].lastOpened, p.lastOpened, x.lastOpened);
            BeforeAsymmetric(r[0].lastOpened, p.lastOpened);
          }
        }
        NewestCons(p, r);
      } else {
        InsertNewest(p, r[1..]);
        forall x | x in Insert(p, r[1..])
          ensures !TextBefore(r[0].lastOpened, x.lastOpened)
        {
          InsertMember(p, r[1..], x);
        }
        NewestCons(r[0], Insert(p, r[1..]));
      }
    }
  }

  // ------------------------------------------------------------------ the manager

  /** The projects under some of the keys. */
  ghost function Under(projects: map<string, Project>, keys: set<string>): set<Project> {
    set k | k in keys && k in projects :: projects[k]
  }

  /** Each project stands under its own id. */
  ghost predicate ById(projects: map<string, Project>) {
    forall k :: k in projects ==> projects[k].id == k
  }

  lemma UnderOneMore(projects: map<string, Project>, keys: set<string>, k: string)
    requires ById(projects) && k in projects && k !in keys
    ensures projects[k] !in Under(projects, keys)
      && Under(projects, keys + {k}) == Under(projects, keys) + {projects[k]}
    ensures multiset(Under(projects, keys + {k})) == multiset{projects[k]} + multiset(Under(projects, keys))
  {
    var a, b := Under(projects, keys), Under(projects, keys + {k});
    assert b == a + {projects[k]};
  }

  class ProjectManager {
    var projects: map<string, Project>

    ghost predicate Valid()
      reads this
    {
      ById(projects)
    }

    constructor ()
      ensures Valid() && projects == map[]
    {
      projects := map[];
    }

    method Put(p: Project)
      requires Valid()
      modifies this
      ensures Valid() && projects == old(projects)[p.id := p]
    {
      projects := projects[p.id := p];
    }

    method Remove(id: string)
      requires Valid()
      modifies this
      ensures Valid() && projects == old(projects) - {id}
    {
      projects := projects - {id};
    }

    /** Renews the time of a project that exists; the others keep theirs. */
    method Touch(id: string, secs: nat) returns (ok: bool, ghost now: Moment)
      requires Valid()
      modifies this
      ensures Valid() && ok == (id in old(projects)) && projects.Keys == old(projects).Keys
      ensures ValidMoment(now) && Seconds(now) == secs
      ensures ok ==> projects == old(projects)[id := old(projects)[id].(lastOpened := Text(now))]
      ensures !ok ==> projects == old(projects)
    {
      hide Text, Seconds, ValidMoment;
      var text := NowText(secs);
      now :| TextOf(text, now, secs);
      ok := id in projects;
      if ok {
        projects := projects[id := projects[id].(lastOpened := text)];
      }
    }

    /** Every project once, the newest first. */
    method List() returns (r: seq<Project>)
      requires Valid()
      ensures NewestFirst(r) && multiset(r) == multiset(Under(projects, projects.Keys))
    {
      hide TextBefore, Insert, NewestFirst, Under, ById;
      r := [];
      var todo := projects.Keys;
      ghost var done: set<string> := {};
      NothingListed(projects);
      while todo != {}
        invariant todo + done == projects.Keys && todo !! done
        invariant NewestFirst(r) && multiset(r) == multiset(Under(projects, done))
        decreases |todo|
      {
        var k :| k in todo;
        InsertNewest(projects[k], r);
        InsertHas(projects[k], r);
        UnderOneMore(projects, done, k);
        r := Insert(projects[k], r);
        todo := todo - {k};
        done := done + {k};
      }
      assert done == projects.Keys;
    }
  }

  lemma NothingListed(projects: map<string, Project>)
    ensures NewestFirst([]) && multiset(Under(projects, {})) == multiset{}
  {
    assert Under(projects, {}) == {};
  }

  // ------------------------------------------------------------------ newest first, by the clock

  /** A project whose time was written by the clock, before the year 10000. */
  ghost predicate OpenedAt(p: Project, t: Moment) {
    ValidMoment(t) && t.date.year < 10000 && p.lastOpened == Text(t)
  }

  /** In the list, whoever stands further up was opened no earlier. */
  lemma ListedByTime(r: seq<Project>, times: seq<Moment>, i: nat, j: nat)
    requires NewestFirst(r) && |times| == |r| && i < j < |r|
    requires OpenedAt(r[i], times[i]) && OpenedAt(r[j], times[j])
    ensures Seconds(times[i]) >= Seconds(times[j])
  {
    hide TextBefore, Text, Seconds, ValidMoment;
    TextIsTime(times[i], times[j]);
  }
}
