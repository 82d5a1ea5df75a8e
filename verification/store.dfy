/** The relational store the handlers talk to, as in-memory tables.

    Every insert takes the next tick of one store-wide clock as both the new
    row's key and its creation time, so along every table the rows appear in
    creation order; `orderBy: { createdAt: "desc" }` is then the table order
    reversed. */
module Store {
  import opened Common
  import opened Seqs

  type Id = nat

  /** A stored row: the key and creation time the store assigns, and the
      columns the handler supplies. */
  datatype Row<T> = Row(id: Id, createdAt: nat, data: T)

  datatype UserData = UserData(name: string, email: string, passwordHash: string)
  datatype ProjectData = ProjectData(userId: Id, name: string, description: Option<string>)
  datatype PromptData = PromptData(projectId: Id, title: string, content: string, isDefault: bool)
  datatype ChatData = ChatData(projectId: Id, title: string)
  datatype MessageData = MessageData(chatId: Id, role: string, content: string)

  type User = Row<UserData>
  type Project = Row<ProjectData>
  type Prompt = Row<PromptData>
  type Chat = Row<ChatData>
  type Message = Row<MessageData>

  /** Creation times strictly increase along `t` (creation order). */
  predicate Ascending<T>(t: seq<Row<T>>) {
    forall i, j :: 0 <= i < j < |t| ==> t[i].createdAt < t[j].createdAt
  }

  /** Creation times strictly decrease along `t` (newest first). */
  predicate Descending<T>(t: seq<Row<T>>) {
    forall i, j :: 0 <= i < j < |t| ==> t[i].createdAt > t[j].createdAt
  }

  /** Every row of `t` was stamped by a clock that now reads `clock`, in
      order: keys and creation times increase along the table and lie below
      the clock. */
  predicate Stamped<T>(t: seq<Row<T>>, clock: nat) {
    && Ascending(t)
    && (forall i, j :: 0 <= i < j < |t| ==> t[i].id < t[j].id)
    && (forall i :: 0 <= i < |t| ==> t[i].id < clock && t[i].createdAt < clock)
  }

  /** Some row of `t` has key `id`. */
  predicate HasId<T>(t: seq<Row<T>>, id: Id) {
    exists i :: 0 <= i < |t| && t[i].id == id
  }

  predicate IsChatRole(role: string) {
    role == "user" || role == "assistant"
  }

  predicate SameEmail(a: User, b: User) {
    a.data.email == b.data.email
  }

  /** No two users share an email (the column is unique). */
  predicate UniqueEmails(users: seq<User>) {
    forall i, j :: 0 <= i < j < |users| ==> !SameEmail(users[i], users[j])
  }

  /** No project has two default prompts. */
  predicate AtMostOneDefault(prompts: seq<Prompt>) {
    forall i, j :: 0 <= i < j < |prompts| && prompts[i].data.isDefault && prompts[j].data.isDefault
      ==> prompts[i].data.projectId != prompts[j].data.projectId
  }

  /** Prompts and chats belong to stored projects, messages to stored chats. */
  predicate Linked(projects: seq<Project>, prompts: seq<Prompt>, chats: seq<Chat>, messages: seq<Message>) {
    && (forall i :: 0 <= i < |prompts| ==> HasId(projects, prompts[i].data.projectId))
    && (forall i :: 0 <= i < |chats| ==> HasId(projects, chats[i].data.projectId))
    && (forall i :: 0 <= i < |messages| ==> HasId(chats, messages[i].data.chatId))
  }

  /** Every stored message was written by a user or by the assistant. */
  predicate ChatRoles(messages: seq<Message>) {
    forall i :: 0 <= i < |messages| ==> IsChatRole(messages[i].data.role)
  }

  /** A row stamped with the current tick extends a stamped table. */
  lemma StampedAppend<T>(t: seq<Row<T>>, clock: nat, x: Row<T>)
    requires Stamped(t, clock)
    requires x.id == clock && x.createdAt == clock
    ensures Stamped(t + [x], clock + 1)
  {
  }

  /** A table grown at its end keeps every key it had. */
  lemma HasIdAppend<T>(t: seq<Row<T>>, x: Row<T>, id: Id)
    requires HasId(t, id)
    ensures HasId(t + [x], id)
  {
    var i :| 0 <= i < |t| && t[i].id == id;
    assert (t + [x])[i] == t[i];
  }

  /** A new project keeps every link intact. */
  lemma LinkedAfterProject(projects: seq<Project>, prompts: seq<Prompt>, chats: seq<Chat>, messages: seq<Message>, x: Project)
    requires Linked(projects, prompts, chats, messages)
    ensures Linked(projects + [x], prompts, chats, messages)
  {
    forall i | 0 <= i < |prompts| ensures HasId(projects + [x], prompts[i].data.projectId) {
      HasIdAppend(projects, x, prompts[i].data.projectId);
    }
    forall i | 0 <= i < |chats| ensures HasId(projects + [x], chats[i].data.projectId) {
      HasIdAppend(projects, x, chats[i].data.projectId);
    }
  }

  /** A new chat of a stored project keeps every link intact. */
  lemma LinkedAfterChat(projects: seq<Project>, prompts: seq<Prompt>, chats: seq<Chat>, messages: seq<Message>, x: Chat)
    requires Linked(projects, prompts, chats, messages)
    requires HasId(projects, x.data.projectId)
    ensures Linked(projects, prompts, chats + [x], messages)
  {
    forall i | 0 <= i < |messages| ensures HasId(chats + [x], messages[i].data.chatId) {
      HasIdAppend(chats, x, messages[i].data.chatId);
    }
  }

  /** A new prompt of a stored project keeps every link intact. */
  lemma LinkedAfterPrompt(projects: seq<Project>, prompts: seq<Prompt>, chats: seq<Chat>, messages: seq<Message>, x: Prompt)
    requires Linked(projects, prompts, chats, messages)
    requires HasId(projects, x.data.projectId)
    ensures Linked(projects, prompts + [x], chats, messages)
  {
    assert forall i :: 0 <= i < |prompts| ==> (prompts + [x])[i] == prompts[i];
  }

  /** A new prompt keeps at most one default per project when it is not a
      default, or when its project has none yet. */
  lemma DefaultsAfterPrompt(prompts: seq<Prompt>, x: Prompt)
    requires AtMostOneDefault(prompts)
    requires x.data.isDefault ==> forall i :: 0 <= i < |prompts| ==> !(prompts[i].data.projectId == x.data.projectId && prompts[i].data.isDefault)
    ensures AtMostOneDefault(prompts + [x])
  {
    var t := prompts + [x];
    forall i, j | 0 <= i < j < |t| && t[i].data.isDefault && t[j].data.isDefault
      ensures t[i].data.projectId != t[j].data.projectId
    {
      assert t[i] == prompts[i];
      if j < |prompts| {
        assert t[j] == prompts[j];
      }
    }
  }

  /** A new message of a stored chat keeps every link intact. */
  lemma LinkedAfterMessage(projects: seq<Project>, prompts: seq<Prompt>, chats: seq<Chat>, messages: seq<Message>, x: Message)
    requires Linked(projects, prompts, chats, messages)
    requires HasId(chats, x.data.chatId)
    ensures Linked(projects, prompts, chats, messages + [x])
  {
  }

  /** A message with a chat role keeps every stored role a chat role. */
  lemma ChatRolesAppend(messages: seq<Message>, x: Message)
    requires ChatRoles(messages) && IsChatRole(x.data.role)
    ensures ChatRoles(messages + [x])
  {
  }

  /** Clearing the flags keeps at most one default per project. */
  lemma ClearedIsSafe(prompts: seq<Prompt>, projectId: Id)
    requires AtMostOneDefault(prompts)
    ensures AtMostOneDefault(Cleared(prompts, projectId))
  {
  }

  /** Clearing the flags moves no prompt to another project. */
  lemma ClearedKeepsLinks(projects: seq<Project>, prompts: seq<Prompt>, chats: seq<Chat>, messages: seq<Message>, projectId: Id)
    requires Linked(projects, prompts, chats, messages)
    ensures Linked(projects, Cleared(prompts, projectId), chats, messages)
  {
    var after := Cleared(prompts, projectId);
    assert forall i :: 0 <= i < |after| ==> after[i].data.projectId == prompts[i].data.projectId;
  }

  /** Keeping some rows of a table in creation order keeps creation order. */
  lemma {:induction false} FilterAscending<T>(t: seq<Row<T>>, keep: Row<T> -> bool)
    requires Ascending(t)
    ensures Ascending(Filter(t, keep))
  {
    if t != [] {
      FilterAscending(t[1..], keep);
      if keep(t[0]) {
        var rest := Filter(t[1..], keep);
        forall j | 0 <= j < |rest| ensures t[0].createdAt < rest[j].createdAt {
          var k :| 0 <= k < |t[1..]| && t[1..][k] == rest[j];
          assert t[1..][k] == t[k + 1];
        }
        var r := [t[0]] + rest;
        assert forall j :: 0 < j < |r| ==> r[j] == rest[j - 1];
      }
    }
  }

  /** Reversing a table in creation order lists it newest first. */
  lemma ReverseDescending<T>(t: seq<Row<T>>)
    requires Ascending(t)
    ensures Descending(Reverse(t))
  {
  }

  /** Reversing keeps every element. */
  lemma ReverseKeeps<T>(s: seq<T>)
    ensures forall j :: 0 <= j < |s| ==> s[j] in Reverse(s)
  {
    forall j | 0 <= j < |s| ensures s[j] in Reverse(s) {
      assert Reverse(s)[|s| - 1 - j] == s[j];
    }
  }

  /** `prisma.<table>.findMany({ where, orderBy: { createdAt: "desc" } })`
      over a table kept in creation order. */
  function NewestFirst<T>(t: seq<Row<T>>, keep: Row<T> -> bool): (r: seq<Row<T>>)
    ensures forall i :: 0 <= i < |r| ==> r[i] in t && keep(r[i])
    ensures forall j :: 0 <= j < |t| && keep(t[j]) ==> t[j] in r
    ensures Ascending(t) ==> Descending(r)
  {
    var f := Filter(t, keep);
    ReverseKeeps(f);
    if Ascending(t) then
      FilterAscending(t, keep);
      ReverseDescending(f);
      Reverse(f)
    else
      Reverse(f)
  }

  /** The head of a newest-first listing is the newest matching row. */
  lemma NewestFirstHead<T>(t: seq<Row<T>>, keep: Row<T> -> bool)
    requires Ascending(t) && NewestFirst(t, keep) != []
    ensures forall j :: 0 <= j < |t| && keep(t[j]) ==> t[j].createdAt <= NewestFirst(t, keep)[0].createdAt
  {
    var d := NewestFirst(t, keep);
    forall j | 0 <= j < |t| && keep(t[j]) ensures t[j].createdAt <= d[0].createdAt {
      var k :| 0 <= k < |d| && d[k] == t[j];
    }
  }

  /** `prisma.<table>.findMany({ where, orderBy: { createdAt: "asc" } })`
      over a table kept in creation order. */
  function OldestFirst<T>(t: seq<Row<T>>, keep: Row<T> -> bool): (r: seq<Row<T>>)
    ensures forall i :: 0 <= i < |r| ==> r[i] in t && keep(r[i])
    ensures forall j :: 0 <= j < |t| && keep(t[j]) ==> t[j] in r
    ensures Ascending(t) ==> Ascending(r)
  {
    if Ascending(t) then
      FilterAscending(t, keep);
      Filter(t, keep)
    else
      Filter(t, keep)
  }

  /** `prisma.project.findFirst({ where: { id, userId } })`: the project with
      that key, provided the caller owns it. */
  function OwnedProject(projects: seq<Project>, id: Id, caller: Id): (r: Option<Project>)
    ensures r.None? <==> forall i :: 0 <= i < |projects| ==> !(projects[i].id == id && projects[i].data.userId == caller)
    ensures r.Some? ==> r.value in projects && r.value.id == id && r.value.data.userId == caller
  {
    First(projects, (p: Project) => p.id == id && p.data.userId == caller)
  }

  /** The chat's project is owned by `caller` (the `project: { userId }` join). */
  predicate OwnsChat(projects: seq<Project>, chat: Chat, caller: Id) {
    exists i :: 0 <= i < |projects| && projects[i].id == chat.data.projectId && projects[i].data.userId == caller
  }

  /** `prisma.chat.findFirst({ where: { id, project: { userId } } })`: the chat
      with that key, provided its project is owned by the caller. */
  function OwnedChat(projects: seq<Project>, chats: seq<Chat>, id: Id, caller: Id): (r: Option<Chat>)
    ensures r.None? <==> forall i :: 0 <= i < |chats| ==> !(chats[i].id == id && OwnsChat(projects, chats[i], caller))
    ensures r.Some? ==> r.value in chats && r.value.id == id && OwnsChat(projects, r.value, caller)
  {
    First(chats, (c: Chat) => c.id == id && OwnsChat(projects, c, caller))
  }

  /** `prisma.user.findUnique({ where: { email } })`. */
  function UserByEmail(users: seq<User>, email: string): (r: Option<User>)
    ensures r.None? <==> forall i :: 0 <= i < |users| ==> users[i].data.email != email
    ensures r.Some? ==> r.value in users && r.value.data.email == email
  {
    First(users, (u: User) => u.data.email == email)
  }

  /** `prisma.user.findUnique({ where: { id } })`. */
  function UserById(users: seq<User>, id: Id): (r: Option<User>)
    ensures r.None? <==> forall i :: 0 <= i < |users| ==> users[i].id != id
    ensures r.Some? ==> r.value in users && r.value.id == id
  {
    First(users, (u: User) => u.id == id)
  }

  /** The row after `updateMany({ where: { projectId, isDefault: true },
      data: { isDefault: false } })` has passed over it. */
  function Unset(p: Prompt, projectId: Id): (q: Prompt)
    ensures q.data.isDefault == (p.data.isDefault && p.data.projectId != projectId)
    ensures q == p.(data := p.data.(isDefault := q.data.isDefault))
  {
    if p.data.projectId == projectId && p.data.isDefault then p.(data := p.data.(isDefault := false)) else p
  }

  /** The prompts table after that `updateMany`. */
  function Cleared(prompts: seq<Prompt>, projectId: Id): (r: seq<Prompt>)
    ensures |r| == |prompts|
    ensures forall i :: 0 <= i < |r| ==> r[i] == Unset(prompts[i], projectId)
  {
    seq(|prompts|, i requires 0 <= i < |prompts| => Unset(prompts[i], projectId))
  }

  /** The whole store: one table per entity and the clock that stamps rows. */
  class Db {
    var users: seq<User>
    var projects: seq<Project>
    var prompts: seq<Prompt>
    var chats: seq<Chat>
    var messages: seq<Message>
    var clock: nat

    /** What the store itself guarantees: rows in creation order, unique keys. */
    ghost predicate Ordered()
      reads this
    {
      && Stamped(users, clock) && Stamped(projects, clock) && Stamped(prompts, clock)
      && Stamped(chats, clock) && Stamped(messages, clock)
    }

    /** What the handlers keep true between requests. */
    ghost predicate Valid()
      reads this
    {
      && Ordered()
      && UniqueEmails(users)
      && AtMostOneDefault(prompts)
      && Linked(projects, prompts, chats, messages)
      && ChatRoles(messages)
    }

    constructor ()
      ensures Valid()
      ensures users == [] && projects == [] && prompts == [] && chats == [] && messages == []
    {
      users, projects, prompts, chats, messages := [], [], [], [], [];
      clock := 0;
    }

    /** `prisma.user.create`, for an email no stored user has (the unique
        column). */
    method InsertUser(data: UserData) returns (row: User)
      requires Valid()
      requires forall i :: 0 <= i < |users| ==> users[i].data.email != data.email
      modifies this
      ensures Valid()
      ensures row == Row(old(clock), old(clock), data) && clock == old(clock) + 1
      ensures users == old(users) + [row]
      ensures projects == old(projects) && prompts == old(prompts)
      ensures chats == old(chats) && messages == old(messages)
    {
      row := Row(clock, clock, data);
      StampedAppend(users, clock, row);
      users := users + [row];
      clock := clock + 1;
    }

    /** `prisma.project.create`. */
    method InsertProject(data: ProjectData) returns (row: Project)
      requires Valid()
      modifies this
      ensures Valid()
      ensures row == Row(old(clock), old(clock), data) && clock == old(clock) + 1
      ensures projects == old(projects) + [row]
      ensures users == old(users) && prompts == old(prompts)
      ensures chats == old(chats) && messages == old(messages)
    {
      row := Row(clock, clock, data);
      StampedAppend(projects, clock, row);
      LinkedAfterProject(projects, prompts, chats, messages, row);
      projects := projects + [row];
      clock := clock + 1;
    }

    /** `prisma.prompt.create`, for a stored project (the foreign key); a
        default prompt only for a project that has none. */
    method InsertPrompt(data: PromptData) returns (row: Prompt)
      requires Valid()
      requires HasId(projects, data.projectId)
      requires data.isDefault ==> forall i :: 0 <= i < |prompts| ==> !(prompts[i].data.projectId == data.projectId && prompts[i].data.isDefault)
      modifies this
      ensures Valid()
      ensures row == Row(old(clock), old(clock), data) && clock == old(clock) + 1
      ensures prompts == old(prompts) + [row]
      ensures users == old(users) && projects == old(projects)
      ensures chats == old(chats) && messages == old(messages)
    {
      row := Row(clock, clock, data);
      StampedAppend(prompts, clock, row);
      LinkedAfterPrompt(projects, prompts, chats, messages, row);
      DefaultsAfterPrompt(prompts, row);
      prompts := prompts + [row];
      clock := clock + 1;
    }

    /** `prisma.chat.create`, for a stored project (the foreign key). */
    method InsertChat(data: ChatData) returns (row: Chat)
      requires Valid()
      requires HasId(projects, data.projectId)
      modifies this
      ensures Valid()
      ensures row == Row(old(clock), old(clock), data) && clock == old(clock) + 1
      ensures chats == old(chats) + [row]
      ensures users == old(users) && projects == old(projects)
      ensures prompts == old(prompts) && messages == old(messages)
    {
      row := Row(clock, clock, data);
      StampedAppend(chats, clock, row);
      LinkedAfterChat(projects, prompts, chats, messages, row);
      chats := chats + [row];
      clock := clock + 1;
    }

    /** `prisma.message.create`, for a chat that is stored (the foreign key)
        and a role the handlers write. */
    method InsertMessage(data: MessageData) returns (row: Message)
      requires Valid()
      requires HasId(chats, data.chatId) && IsChatRole(data.role)
      modifies this
      ensures Valid()
      ensures row == Row(old(clock), old(clock), data) && clock == old(clock) + 1
      ensures messages == old(messages) + [row]
      ensures users == old(users) && projects == old(projects)
      ensures prompts == old(prompts) && chats == old(chats)
    {
      row := Row(clock, clock, data);
      StampedAppend(messages, clock, row);
      LinkedAfterMessage(projects, prompts, chats, messages, row);
      ChatRolesAppend(messages, row);
      messages := messages + [row];
      clock := clock + 1;
    }

    /** `prisma.prompt.updateMany({ where: { projectId, isDefault: true },
        data: { isDefault: false } })`, row by row. */
    method ClearDefaults(projectId: Id)
      requires Valid()
      modifies this
      ensures Valid()
      ensures prompts == Cleared(old(prompts), projectId)
      ensures clock == old(clock) && users == old(users) && projects == old(projects)
      ensures chats == old(chats) && messages == old(messages)
    {
      ghost var before := prompts;
      var i := 0;
      while i < |prompts|
        invariant 0 <= i <= |prompts| == |before|
        invariant forall k :: 0 <= k < i ==> prompts[k] == Unset(before[k], projectId)
        invariant forall k :: i <= k < |prompts| ==> prompts[k] == before[k]
        invariant clock == old(clock) && users == old(users) && projects == old(projects)
        invariant chats == old(chats) && messages == old(messages)
      {
        if prompts[i].data.projectId == projectId && prompts[i].data.isDefault {
          prompts := prompts[i := prompts[i].(data := prompts[i].data.(isDefault := false))];
        }
        i := i + 1;
      }
      assert prompts == Cleared(before, projectId);
      ClearedIsSafe(before, projectId);
      ClearedKeepsLinks(projects, before, chats, messages, projectId);
    }
  }
}
