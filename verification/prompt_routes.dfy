/** The prompt endpoints (backend/src/routes/prompt.routes.js), behind the
    bearer-token middleware: `caller` is `req.user.id`. */
module PromptRoutes {
  import opened Common
  import opened Seqs
  import opened Store
  import opened Schema

  /** `GET /projects/:projectId/prompts`: 404 unless the caller owns the
      project; otherwise that project's prompts, newest first. */
  function ListPrompts(projects: seq<Project>, prompts: seq<Prompt>, projectId: Id, caller: Id): (r: Reply<seq<Prompt>>)
    ensures OwnedProject(projects, projectId, caller).None? ==> r == Fail(404, "Project not found")
    ensures OwnedProject(projects, projectId, caller).Some? ==> r.Ok? && r.status == 200
    ensures r.Ok? ==> forall i :: 0 <= i < |r.body| ==> r.body[i] in prompts && r.body[i].data.projectId == projectId
    ensures r.Ok? ==> forall j :: 0 <= j < |prompts| && prompts[j].data.projectId == projectId ==> prompts[j] in r.body
    ensures r.Ok? && Ascending(prompts) ==> Descending(r.body)
  {
    match OwnedProject(projects, projectId, caller)
    case None => Fail(404, "Project not found")
    case Some(project) => Ok(200, NewestFirst(prompts, (p: Prompt) => p.data.projectId == project.id))
  }

  /** The body `POST /projects/:projectId/prompts` accepts. */
  predicate PromptBodyValid(title: Option<Field>, content: Option<Field>, isDefault: Option<Field>) {
    StringMin(title, 2) && StringMin(content, 5) && OptionalBool(isDefault)
  }

  /** `body.isDefault`, which also decides `isDefault ?? false`. */
  predicate MakesDefault(isDefault: Option<Field>) {
    isDefault == Some(Bool(true))
  }

  /** `POST /projects/:projectId/prompts`. The body is checked first, then
      ownership; either failure writes nothing. On success the new prompt is
      appended; when it is to be the default, the project's existing prompts
      are first made non-default. */
  method CreatePrompt(db: Db, caller: Id, projectId: Id, title: Option<Field>, content: Option<Field>, isDefault: Option<Field>)
    returns (r: Reply<Prompt>)
    requires db.Valid()
    modifies db
    ensures db.Valid()
    ensures !PromptBodyValid(title, content, isDefault) ==> r == Invalid && unchanged(db)
    ensures PromptBodyValid(title, content, isDefault) && OwnedProject(old(db.projects), projectId, caller).None?
            ==> r == Fail(404, "Project not found") && unchanged(db)
    ensures PromptBodyValid(title, content, isDefault) && OwnedProject(old(db.projects), projectId, caller).Some? ==>
              && r == Ok(201, Row(old(db.clock), old(db.clock),
                                  PromptData(projectId, title.value.s, content.value.s, MakesDefault(isDefault))))
              && db.prompts == (if MakesDefault(isDefault) then Cleared(old(db.prompts), projectId) else old(db.prompts)) + [r.body]
              && db.clock == old(db.clock) + 1
              && db.users == old(db.users) && db.projects == old(db.projects)
              && db.chats == old(db.chats) && db.messages == old(db.messages)
  {
    if !PromptBodyValid(title, content, isDefault) {
      return Invalid;
    }
    var project := OwnedProject(db.projects, projectId, caller);
    if project.None? {
      return Fail(404, "Project not found");
    }
    var makeDefault := MakesDefault(isDefault);
    if makeDefault {
      db.ClearDefaults(projectId);
    }
    var data := PromptData(projectId, title.value.s, content.value.s, makeDefault);
    assert HasId(db.projects, projectId) by {
      var i :| 0 <= i < |db.projects| && db.projects[i] == project.value;
    }
    var prompt := db.InsertPrompt(data);
    r := Ok(201, prompt);
  }

  /** Clearing the flags changes only the project's default prompts, and
      only their flag. */
  lemma ClearedOnlyUnsetsFlags(prompts: seq<Prompt>, projectId: Id)
    ensures var after := Cleared(prompts, projectId);
            && (forall i :: 0 <= i < |prompts| && prompts[i].data.projectId != projectId ==> after[i] == prompts[i])
            && (forall i :: 0 <= i < |prompts| ==> after[i] == prompts[i].(data := prompts[i].data.(isDefault := after[i].data.isDefault)))
            && (forall i :: 0 <= i < |prompts| && prompts[i].data.projectId == projectId ==> !after[i].data.isDefault)
  {
  }

  /** After clear-then-create, the new prompt is the one and only default of
      its project, and no project has two defaults, however many defaults
      the project had before. */
  lemma NewDefaultIsTheOnlyOne(prompts: seq<Prompt>, projectId: Id, p: Prompt)
    requires AtMostOneDefault(prompts)
    requires p.data.projectId == projectId && p.data.isDefault
    ensures var after := Cleared(prompts, projectId) + [p];
            && AtMostOneDefault(after)
            && after[|after| - 1].data.isDefault
            && forall i :: 0 <= i < |after| - 1 ==> !(after[i].data.projectId == projectId && after[i].data.isDefault)
  {
    var after := Cleared(prompts, projectId) + [p];
    assert forall i :: 0 <= i < |prompts| ==> after[i] == Unset(prompts[i], projectId);
  }

  /** Creating a prompt that is not the default leaves every existing prompt
      as it was and keeps the invariant. */
  lemma NonDefaultKeepsInvariant(prompts: seq<Prompt>, p: Prompt)
    requires AtMostOneDefault(prompts)
    requires !p.data.isDefault
    ensures AtMostOneDefault(prompts + [p])
    ensures (prompts + [p])[..|prompts|] == prompts
  {
  }
}
