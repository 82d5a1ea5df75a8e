/** The project endpoints (backend/src/routes/project.routes.js), behind the
    bearer-token middleware: `caller` is `req.user.id`. */
module ProjectRoutes {
  import opened Common
  import opened Seqs
  import opened Store
  import opened Schema

  /** `GET /projects`: the caller's projects, newest first. */
  function ListProjects(projects: seq<Project>, caller: Id): (r: Reply<seq<Project>>)
    ensures r.Ok? && r.status == 200
    ensures forall i :: 0 <= i < |r.body| ==> r.body[i] in projects && r.body[i].data.userId == caller
    ensures forall j :: 0 <= j < |projects| && projects[j].data.userId == caller ==> projects[j] in r.body
    ensures Ascending(projects) ==> Descending(r.body)
  {
    Ok(200, NewestFirst(projects, (p: Project) => p.data.userId == caller))
  }

  /** The body `POST /projects` accepts. */
  predicate ProjectBodyValid(name: Option<Field>, description: Option<Field>) {
    StringMin(name, 2) && OptionalString(description)
  }

  /** `POST /projects`: a body that fails its schema writes nothing; otherwise
      exactly one project is appended, owned by the caller, with the given
      name and description, and nothing else in the store changes. */
  method CreateProject(db: Db, caller: Id, name: Option<Field>, description: Option<Field>) returns (r: Reply<Project>)
    requires db.Valid()
    modifies db
    ensures db.Valid()
    ensures !ProjectBodyValid(name, description) ==> r == Invalid && unchanged(db)
    ensures ProjectBodyValid(name, description) ==>
              && r == Ok(201, Row(old(db.clock), old(db.clock), ProjectData(caller, name.value.s, StringValue(description))))
              && db.projects == old(db.projects) + [r.body] && db.clock == old(db.clock) + 1
              && db.users == old(db.users) && db.prompts == old(db.prompts)
              && db.chats == old(db.chats) && db.messages == old(db.messages)
  {
    if !ProjectBodyValid(name, description) {
      return Invalid;
    }
    var project := db.InsertProject(ProjectData(caller, name.value.s, StringValue(description)));
    r := Ok(201, project);
  }

  /** A project just created heads its owner's listing and does not appear in
      anyone else's. */
  lemma {:induction false} CreatedProjectListed(projects: seq<Project>, p: Project, other: Id)
    requires other != p.data.userId
    ensures |ListProjects(projects + [p], p.data.userId).body| > 0
    ensures ListProjects(projects + [p], p.data.userId).body[0] == p
    ensures p !in ListProjects(projects + [p], other).body
  {
    var owner := p.data.userId;
    var keep := (q: Project) => q.data.userId == owner;
    FilterAppend(projects, p, keep);
    var f := Filter(projects + [p], keep);
    assert f == Filter(projects, keep) + [p];
    assert Reverse(f)[0] == f[|f| - 1] == p;
    assert ListProjects(projects + [p], owner).body == Reverse(f);
  }
}
