/** The chat endpoints (backend/src/routes/chat.routes.js), behind the
    bearer-token middleware: `caller` is `req.user.id`. Sending a message
    stores it, assembles the conversation context and the system text, asks
    the language model, and stores the reply. */
module ChatRoutes {
  import opened Common
  import opened Text
  import opened Seqs
  import opened Store
  import opened Schema
  import opened Gateway

  /* ---------------------------------------------------------------------- */
  /* Creating and listing chats                                              */

  /** `body.title || "New Chat"`: a title that is absent or empty becomes
      "New Chat"; any other title is kept as given. */
  function ChatTitle(title: Option<Field>): (t: string)
    requires OptionalString(title)
    ensures t != ""
    ensures title.Some? && title.value.s != "" ==> t == title.value.s
    ensures title.None? || title.value.s == "" ==> t == "New Chat"
  {
    OrElse(StringValue(title), "New Chat")
  }

  /** `POST /projects/:projectId/chats`. The project lookup comes first: a
      project the caller does not own gives 404 and writes nothing. Then the
      body is checked (a `title` that is present must be a string), and one
      chat is appended to the project. */
  method CreateChat(db: Db, caller: Id, projectId: Id, title: Option<Field>) returns (r: Reply<Chat>)
    requires db.Valid()
    modifies db
    ensures db.Valid()
    ensures OwnedProject(old(db.projects), projectId, caller).None? ==> r == Fail(404, "Project not found") && unchanged(db)
    ensures OwnedProject(old(db.projects), projectId, caller).Some? && !OptionalString(title) ==> r == Invalid && unchanged(db)
    ensures OwnedProject(old(db.projects), projectId, caller).Some? && OptionalString(title) ==>
              && r == Ok(201, Row(old(db.clock), old(db.clock), ChatData(projectId, ChatTitle(title))))
              && db.chats == old(db.chats) + [r.body] && db.clock == old(db.clock) + 1
              && db.users == old(db.users) && db.projects == old(db.projects)
              && db.prompts == old(db.prompts) && db.messages == old(db.messages)
  {
    var project := OwnedProject(db.projects, projectId, caller);
    if project.None? {
      return Fail(404, "Project not found");
    }
    if !OptionalString(title) {
      return Invalid;
    }
    var data := ChatData(project.value.id, ChatTitle(title));
    assert HasId(db.projects, projectId) by {
      var i :| 0 <= i < |db.projects| && db.projects[i] == project.value;
    }
    var chat := db.InsertChat(data);
    r := Ok(201, chat);
  }

  /** `GET /projects/:projectId/chats`: 404 unless the caller owns the
      project; otherwise exactly that project's chats, newest first. */
  function ListChats(projects: seq<Project>, chats: seq<Chat>, projectId: Id, caller: Id): (r: Reply<seq<Chat>>)
    ensures OwnedProject(projects, projectId, caller).None? ==> r == Fail(404, "Project not found")
    ensures OwnedProject(projects, projectId, caller).Some? ==> r.Ok? && r.status == 200
    ensures r.Ok? ==> forall i :: 0 <= i < |r.body| ==> r.body[i] in chats && r.body[i].data.projectId == projectId
    ensures r.Ok? ==> forall j :: 0 <= j < |chats| && chats[j].data.projectId == projectId ==> chats[j] in r.body
    ensures r.Ok? && Ascending(chats) ==> Descending(r.body)
  {
    match OwnedProject(projects, projectId, caller)
    case None => Fail(404, "Project not found")
    case Some(project) => Ok(200, NewestFirst(chats, (c: Chat) => c.data.projectId == project.id))
  }

  /* ---------------------------------------------------------------------- */
  /* Reading a conversation                                                  */

  /** The `where: { chatId }` filter on messages. */
  function InChat(chatId: Id): Message -> bool {
    (m: Message) => m.data.chatId == chatId
  }

  /** The messages of one chat, in creation order. */
  function Conversation(messages: seq<Message>, chatId: Id): seq<Message> {
    Filter(messages, InChat(chatId))
  }

  /** `GET /chats/:chatId/messages`: 404 unless the chat exists and its
      project is owned by the caller; otherwise exactly that chat's
      messages, oldest first. */
  function ListMessages(projects: seq<Project>, chats: seq<Chat>, messages: seq<Message>, chatId: Id, caller: Id)
    : (r: Reply<seq<Message>>)
    ensures OwnedChat(projects, chats, chatId, caller).None? ==> r == Fail(404, "Chat not found")
    ensures OwnedChat(projects, chats, chatId, caller).Some? ==> r.Ok? && r.status == 200
    ensures r.Ok? ==> forall i :: 0 <= i < |r.body| ==> r.body[i] in messages && r.body[i].data.chatId == chatId
    ensures r.Ok? ==> forall j :: 0 <= j < |messages| && messages[j].data.chatId == chatId ==> messages[j] in r.body
    ensures r.Ok? && Ascending(messages) ==> Ascending(r.body)
  {
    match OwnedChat(projects, chats, chatId, caller)
    case None => Fail(404, "Chat not found")
    case Some(chat) => Ok(200, OldestFirst(messages, InChat(chat.id)))
  }

  /* ---------------------------------------------------------------------- */
  /* The context sent to the language model                                  */

  /** `take: 20` on the context query. */
  const ContextSize: nat := 20

  /** `findMany({ where: { chatId }, orderBy: { createdAt: "desc" }, take: 20 })`. */
  function LastMessages(messages: seq<Message>, chatId: Id): (r: seq<Message>)
    ensures |r| == if |Conversation(messages, chatId)| < ContextSize then |Conversation(messages, chatId)| else ContextSize
    ensures forall i :: 0 <= i < |r| ==> r[i] in messages && r[i].data.chatId == chatId
    ensures Ascending(messages) ==> Descending(r)
  {
    Take(NewestFirst(messages, InChat(chatId)), ContextSize)
  }

  /** `({ role: m.role, content: m.content })`: every other column dropped. */
  function Entry(m: Message): ChatEntry {
    ChatEntry(m.data.role, m.data.content)
  }

  /** `.filter((m) => m.role === "user" || m.role === "assistant").map(...)`. */
  function ToEntries(ms: seq<Message>): (r: seq<ChatEntry>)
    ensures |r| <= |ms|
    ensures forall i :: 0 <= i < |r| ==> IsChatRole(r[i].role)
  {
    if ms == [] then []
    else (if IsChatRole(ms[0].data.role) then [Entry(ms[0])] else []) + ToEntries(ms[1..])
  }

  /** `lastMessages.reverse()` filtered and mapped. */
  function LlmMessages(messages: seq<Message>, chatId: Id): (r: seq<ChatEntry>)
    ensures |r| <= ContextSize
    ensures forall i :: 0 <= i < |r| ==> IsChatRole(r[i].role)
  {
    ToEntries(Reverse(LastMessages(messages, chatId)))
  }

  /** One more message at the end adds its entry at the end, if its role is
      kept. */
  lemma {:induction false} ToEntriesAppend(ms: seq<Message>, x: Message)
    ensures ToEntries(ms + [x]) == ToEntries(ms) + (if IsChatRole(x.data.role) then [Entry(x)] else [])
  {
    if ms == [] {
      assert [] + [x] == [x];
      assert ToEntries([x]) == (if IsChatRole(x.data.role) then [Entry(x)] else []) + ToEntries([]);
    } else {
      assert (ms + [x])[1..] == ms[1..] + [x];
      ToEntriesAppend(ms[1..], x);
    }
  }

  /** Over messages that all have a chat role the filter drops nothing: one
      entry per message, in the same order. */
  lemma {:induction false} ToEntriesKeepsAll(ms: seq<Message>)
    requires ChatRoles(ms)
    ensures |ToEntries(ms)| == |ms|
    ensures forall i :: 0 <= i < |ms| ==> ToEntries(ms)[i] == Entry(ms[i])
  {
    if ms != [] {
      ToEntriesKeepsAll(ms[1..]);
      assert ToEntries(ms) == [Entry(ms[0])] + ToEntries(ms[1..]);
    }
  }

  /** The context window: the messages handed to the model are the newest
      `min(20, n)` messages of the chat's `n`, in creation order, and there
      are never more than 20 entries. */
  lemma ContextWindow(messages: seq<Message>, chatId: Id)
    ensures var c := Conversation(messages, chatId);
            var k := if |c| < ContextSize then |c| else ContextSize;
            Reverse(LastMessages(messages, chatId)) == c[|c| - k..]
    ensures |LlmMessages(messages, chatId)| <= ContextSize
  {
    NewestInOrder(Conversation(messages, chatId), ContextSize);
  }

  /** In a store whose messages all have chat roles, the context is exactly
      the role and content of each of the chat's newest `min(20, n)`
      messages, oldest of them first. */
  lemma ContextOfStore(messages: seq<Message>, chatId: Id)
    requires ChatRoles(messages)
    ensures var c := Conversation(messages, chatId);
            var k := if |c| < ContextSize then |c| else ContextSize;
            && |LlmMessages(messages, chatId)| == k
            && forall i :: 0 <= i < k ==> LlmMessages(messages, chatId)[i] == Entry(c[|c| - k + i])
  {
    var c := Conversation(messages, chatId);
    var k := if |c| < ContextSize then |c| else ContextSize;
    ContextWindow(messages, chatId);
    var w := c[|c| - k..];
    forall i | 0 <= i < |w| ensures IsChatRole(w[i].data.role) {
      assert w[i] == c[|c| - k + i];
      var j :| 0 <= j < |messages| && messages[j] == w[i];
    }
    ToEntriesKeepsAll(w);
  }

  /** The user message stored first is the last entry of the context built
      right after it. */
  lemma UserMessageLast(messages: seq<Message>, u: Message)
    requires u.data.role == "user"
    ensures var ctx := LlmMessages(messages + [u], u.data.chatId);
            |ctx| >= 1 && ctx[|ctx| - 1] == ChatEntry("user", u.data.content)
  {
    ConversationGrows(messages, u);
    ContextEndsWith(messages + [u], u.data.chatId, u);
  }

  /** The newest message of a conversation, when it has a chat role, gives
      the last entry of the context. */
  lemma ContextEndsWith(messages: seq<Message>, chatId: Id, u: Message)
    requires var c := Conversation(messages, chatId); |c| > 0 && c[|c| - 1] == u
    requires IsChatRole(u.data.role)
    ensures var ctx := LlmMessages(messages, chatId);
            |ctx| > 0 && ctx[|ctx| - 1] == Entry(u)
  {
    var c := Conversation(messages, chatId);
    ContextWindow(messages, chatId);
    var k := if |c| < ContextSize then |c| else ContextSize;
    var w := c[|c| - k..];
    assert w[|w| - 1] == u;
    EntriesEndWith(w, u);
  }

  /** A message stored in a chat becomes the last of that chat's conversation. */
  lemma ConversationGrows(messages: seq<Message>, u: Message)
    ensures Conversation(messages + [u], u.data.chatId) == Conversation(messages, u.data.chatId) + [u]
  {
    FilterAppend(messages, u, InChat(u.data.chatId));
  }

  lemma EntriesEndWith(w: seq<Message>, u: Message)
    requires |w| > 0 && w[|w| - 1] == u && IsChatRole(u.data.role)
    ensures |ToEntries(w)| > 0 && ToEntries(w)[|ToEntries(w)| - 1] == Entry(u)
  {
    assert w == w[..|w| - 1] + [u];
    ToEntriesAppend(w[..|w| - 1], u);
  }

  /* ---------------------------------------------------------------------- */
  /* The system text                                                         */

  /** The `where: { projectId, isDefault: true }` filter on prompts. */
  function IsDefaultOf(projectId: Id): Prompt -> bool {
    (p: Prompt) => p.data.projectId == projectId && p.data.isDefault
  }

  /** `prisma.prompt.findFirst({ where: { projectId, isDefault: true },
      orderBy: { createdAt: "desc" } })`: the newest default prompt of the
      project, if it has one. */
  function DefaultPrompt(prompts: seq<Prompt>, projectId: Id): (r: Option<Prompt>)
    ensures r.None? <==> forall j :: 0 <= j < |prompts| ==> !(prompts[j].data.projectId == projectId && prompts[j].data.isDefault)
    ensures r.Some? ==> r.value in prompts && r.value.data.projectId == projectId && r.value.data.isDefault
    ensures r.Some? && Ascending(prompts) ==>
              forall j :: 0 <= j < |prompts| && prompts[j].data.projectId == projectId && prompts[j].data.isDefault
                ==> prompts[j].createdAt <= r.value.createdAt
  {
    var d := NewestFirst(prompts, IsDefaultOf(projectId));
    if d == [] then None
    else if Ascending(prompts) then
      NewestFirstHead(prompts, IsDefaultOf(projectId));
      Some(d[0])
    else
      Some(d[0])
  }

  /** The prompt a create with `isDefault: true` has just appended is the one
      the next message of that project is sent with. */
  lemma DefaultAfterCreate(prompts: seq<Prompt>, p: Prompt)
    requires p.data.isDefault
    ensures DefaultPrompt(Cleared(prompts, p.data.projectId) + [p], p.data.projectId) == Some(p)
  {
    var pid := p.data.projectId;
    var cleared := Cleared(prompts, pid);
    FilterNone(cleared, IsDefaultOf(pid));
    FilterAppend(cleared, p, IsDefaultOf(pid));
    assert Filter(cleared + [p], IsDefaultOf(pid)) == [p];
  }

  const Fallback: string := "You are a helpful assistant."

  /** The four fixed rules; the second ends where the date is inserted. */
  const RuleOne: string := "1) If user says only \"hi\" or \"hello\", reply normally with a greeting."
  const RuleTwo: string := "2) If user asks today's date, reply with: "
  const RuleThree: string := "3) Answer directly. No generic filler."
  const RuleFour: string := "4) Keep it short."

  /** The rule block with the formatted date (`today`) filled in. */
  function Rules(today: string): string {
    "Rules:" + RuleList(today)
  }

  function RuleList(today: string): string {
    "\n" + RuleOne + "\n" + RuleTwo + today + "\n" + RuleThree + "\n" + RuleFour
  }

  /** `defaultPrompt?.content || "You are a helpful assistant."`: the default
      prompt's content unless there is none or it is empty. */
  function BasePrompt(d: Option<Prompt>): (r: string)
    ensures r != ""
    ensures d.Some? && d.value.data.content != "" ==> r == d.value.data.content
    ensures d.None? || d.value.data.content == "" ==> r == Fallback
  {
    if d.Some? then OrElse(Some(d.value.data.content), Fallback) else Fallback
  }

  /** The template literal, before `.trim()`. */
  function Template(base: string, today: string): string {
    "\n" + base + "\n\n" + Rules(today) + "\n"
  }

  /** The system text: the template, trimmed. It is never empty, since the
      rule block always has content. */
  function SystemText(d: Option<Prompt>, today: string): (r: string)
    ensures r != ""
  {
    var t := Template(BasePrompt(d), today);
    RulesEdges(today);
    ContentInside("\n" + BasePrompt(d) + "\n\n", Rules(today), "\n");
    Trim(t)
  }

  /** A string with a non-whitespace first character, wherever it sits, gives
      the whole string content. */
  lemma ContentInside(a: string, b: string, c: string)
    requires b != [] && !IsWhitespace(b[0])
    ensures HasContent(a + b + c)
  {
    assert (a + b + c)[|a|] == b[0];
  }

  /** The rule block starts and ends with a character `trim` keeps. */
  lemma RulesEdges(today: string)
    ensures Framed(Rules(today))
    ensures Rules(today)[0] == 'R' && Rules(today)[|Rules(today)| - 1] == '.'
  {
    var list := RuleList(today);
    var body := "\n" + RuleOne + "\n" + RuleTwo + today + "\n" + RuleThree + "\n";
    assert RuleFour[|RuleFour| - 1] == '.';
    EdgesOfAppend(body, RuleFour);
    assert list[|list| - 1] == '.';
    EdgesOfAppend("Rules:", list);
  }

  lemma EdgesOfAppend<T>(a: seq<T>, b: seq<T>)
    requires |a| > 0 && |b| > 0
    ensures (a + b)[0] == a[0] && (a + b)[|a + b| - 1] == b[|b| - 1]
  {
  }

  /** A block that starts and ends with a character `trim` keeps. */
  predicate Framed(block: string) {
    |block| > 0 && !IsWhitespace(block[0]) && !IsWhitespace(block[|block| - 1])
  }

  /** A base with content, a blank line and a framed block, all between two
      newlines: trimming removes the newlines and the base's leading
      whitespace, and nothing else. */
  lemma TrimFramedWithContent(b: string, block: string)
    requires HasContent(b) && Framed(block)
    ensures Trim("\n" + b + "\n\n" + block + "\n") == TrimStart(b) + "\n\n" + block
  {
    TemplateTrimStart(b, block);
    TemplateTrimEnd(TrimStart(b), block);
  }

  /** The front trim of the template stops at the base's content. */
  lemma TemplateTrimStart(b: string, block: string)
    requires HasContent(b)
    ensures TrimStart("\n" + b + "\n\n" + block + "\n") == TrimStart(b) + "\n\n" + block + "\n"
  {
    var y := "\n\n" + block + "\n";
    RegroupFront("\n", b, "\n\n", block, "\n");
    RegroupBack(TrimStart(b), "\n\n", block, "\n");
    TrimStartSkipsWhitespace("\n", b + y);
    TrimStartAppend(b, y);
  }

  /** The end trim of the template stops at the block's last character. */
  lemma TemplateTrimEnd(base: string, block: string)
    requires Framed(block)
    ensures TrimEnd(base + "\n\n" + block + "\n") == base + "\n\n" + block
  {
    var x := base + "\n\n" + block;
    assert x[|x| - 1] == block[|block| - 1];
    TrimEndAppendWhitespace(x, "\n");
  }

  lemma RegroupFront<T>(a: seq<T>, b: seq<T>, c: seq<T>, d: seq<T>, e: seq<T>)
    ensures a + b + c + d + e == a + (b + (c + d + e))
  {
  }

  lemma RegroupBack<T>(a: seq<T>, b: seq<T>, c: seq<T>, d: seq<T>)
    ensures a + (b + c + d) == a + b + c + d
  {
  }

  /** A base that is all whitespace is trimmed away with the blank line
      after it, leaving the block. */
  lemma TrimFramedWithoutContent(b: string, block: string)
    requires !HasContent(b) && Framed(block)
    ensures Trim("\n" + b + "\n\n" + block + "\n") == block
  {
    var w := "\n" + b + "\n\n";
    forall i | 0 <= i < |w| ensures IsWhitespace(w[i]) {
      if 0 < i <= |b| {
        assert w[i] == b[i - 1];
      }
    }
    assert "\n" + b + "\n\n" + block + "\n" == w + (block + "\n");
    TrimStartSkipsWhitespace(w, block + "\n");
    TrimStartOfTrimmed(block + "\n");
    TrimEndAppendWhitespace(block, "\n");
  }

  /** The system text is the base prompt without its leading whitespace, a
      blank line, and the rule block; a base that is all whitespace leaves
      the rule block alone. */
  lemma SystemTextShape(d: Option<Prompt>, today: string)
    ensures HasContent(BasePrompt(d)) ==> SystemText(d, today) == TrimStart(BasePrompt(d)) + "\n\n" + Rules(today)
    ensures !HasContent(BasePrompt(d)) ==> SystemText(d, today) == Rules(today)
  {
    var b := BasePrompt(d);
    var rules := Rules(today);
    RulesEdges(today);
    assert SystemText(d, today) == Trim("\n" + b + "\n\n" + rules + "\n");
    if HasContent(b) {
      TrimFramedWithContent(b, rules);
    } else {
      TrimFramedWithoutContent(b, rules);
    }
  }

  /** Without a default prompt the base is the fallback sentence. */
  lemma FallbackSystemText(today: string)
    ensures SystemText(None, today) == Fallback + "\n\n" + Rules(today)
  {
    assert !IsWhitespace(Fallback[0]);
    assert HasContent(Fallback);
    SystemTextShape(None, today);
    TrimStartOfTrimmed(Fallback);
  }

  /* ---------------------------------------------------------------------- */
  /* Sending a message                                                       */

  /** The reply of a successful send: both stored messages. */
  datatype SentPair = SentPair(userMessage: Message, assistantMessage: Message)

  /** `POST /chats/:chatId/messages`. The body is checked first and then the
      chat's ownership; either failure writes nothing. Otherwise the user
      message is stored, the context and system text are built from the
      store as it is after that write, and the model is asked. If the model
      call fails the error propagates and only the user message stays
      stored; otherwise the reply is stored as an assistant message right
      after it. */
  method SendMessage(db: Db, caller: Id, chatId: Id, content: Option<Field>, today: string, env: Env, fetch: Fetch)
    returns (r: Reply<SentPair>)
    requires db.Valid()
    modifies db
    ensures db.Valid()
    ensures !StringMin(content, 1) ==> r == Invalid && unchanged(db)
    ensures StringMin(content, 1) && OwnedChat(old(db.projects), old(db.chats), chatId, caller).None?
            ==> r == Fail(404, "Chat not found") && unchanged(db)
    ensures StringMin(content, 1) && OwnedChat(old(db.projects), old(db.chats), chatId, caller).Some? ==>
              var chat := OwnedChat(old(db.projects), old(db.chats), chatId, caller).value;
              var u := Row(old(db.clock), old(db.clock), MessageData(chatId, "user", content.value.s));
              var systemText := SystemText(DefaultPrompt(old(db.prompts), chat.data.projectId), today);
              var outcome := GenerateAssistantReply(env, systemText, Some(LlmMessages(old(db.messages) + [u], chatId)), fetch);
              && db.users == old(db.users) && db.projects == old(db.projects)
              && db.prompts == old(db.prompts) && db.chats == old(db.chats)
              && (outcome.Failed? ==> && r == Thrown(ErrorMessage(outcome.error))
                                      && db.messages == old(db.messages) + [u] && db.clock == old(db.clock) + 1)
              && (outcome.Reply? ==>
                    && r.Ok? && r.status == 201 && r.body.userMessage == u
                    && r.body.assistantMessage.id == old(db.clock) + 1
                    && r.body.assistantMessage.createdAt == old(db.clock) + 1
                    && r.body.assistantMessage.data == MessageData(chatId, "assistant", outcome.text)
                    && db.messages == old(db.messages) + [u, r.body.assistantMessage]
                    && db.clock == old(db.clock) + 2)
  {
    if !StringMin(content, 1) {
      return Invalid;
    }
    var chat := OwnedChat(db.projects, db.chats, chatId, caller);
    if chat.None? {
      return Fail(404, "Chat not found");
    }
    assert HasId(db.chats, chatId) by {
      var i :| 0 <= i < |db.chats| && db.chats[i] == chat.value;
    }
    r := Exchange(db, chatId, chat.value.data.projectId, content.value.s, today, env, fetch);
  }

  /** Steps 2) to 6) of a send, for a stored chat of project `projectId`:
      store the user message, ask the model with the default prompt of the
      project and the context built after that write, and store the reply
      when there is one. */
  method Exchange(db: Db, chatId: Id, projectId: Id, content: string, today: string, env: Env, fetch: Fetch)
    returns (r: Reply<SentPair>)
    requires db.Valid() && HasId(db.chats, chatId)
    modifies db
    ensures db.Valid()
    ensures var u := Row(old(db.clock), old(db.clock), MessageData(chatId, "user", content));
            var systemText := SystemText(DefaultPrompt(old(db.prompts), projectId), today);
            var outcome := GenerateAssistantReply(env, systemText, Some(LlmMessages(old(db.messages) + [u], chatId)), fetch);
            && db.users == old(db.users) && db.projects == old(db.projects)
            && db.prompts == old(db.prompts) && db.chats == old(db.chats)
            && (outcome.Failed? ==> && r == Thrown(ErrorMessage(outcome.error))
                                    && db.messages == old(db.messages) + [u] && db.clock == old(db.clock) + 1)
            && (outcome.Reply? ==>
                  && r.Ok? && r.status == 201 && r.body.userMessage == u
                  && r.body.assistantMessage.id == old(db.clock) + 1
                  && r.body.assistantMessage.createdAt == old(db.clock) + 1
                  && r.body.assistantMessage.data == MessageData(chatId, "assistant", outcome.text)
                  && db.messages == old(db.messages) + [u, r.body.assistantMessage]
                  && db.clock == old(db.clock) + 2)
  {
    ghost var before := db.messages;
    ghost var start := db.clock;
    ghost var u := Row(start, start, MessageData(chatId, "user", content));
    ghost var expected := GenerateAssistantReply(env, SystemText(DefaultPrompt(db.prompts, projectId), today),
                                                 Some(LlmMessages(before + [u], chatId)), fetch);

    // 2) store the user message
    var userMsg := db.InsertMessage(MessageData(chatId, "user", content));
    assert userMsg == u && db.messages == before + [u];

    // 3) - 5) default prompt, context, system text, model call
    var defaultPrompt := DefaultPrompt(db.prompts, projectId);
    var llmMessages := LlmMessages(db.messages, chatId);
    var systemText := SystemText(defaultPrompt, today);
    var outcome := GenerateAssistantReply(env, systemText, Some(llmMessages), fetch);
    assert outcome == expected;
    if outcome.Failed? {
      return Thrown(ErrorMessage(outcome.error));
    }

    // 6) store the reply
    var assistantMsg := db.InsertMessage(MessageData(chatId, "assistant", outcome.text));
    AppendPair(before, userMsg, assistantMsg);
    r := Ok(201, SentPair(userMsg, assistantMsg));
  }

  lemma AppendPair<T>(s: seq<T>, x: T, y: T)
    ensures s + [x] + [y] == s + [x, y]
  {
  }

  /** A successful send leaves the chat's conversation longer by exactly the
      user message and then the assistant reply, in that order. */
  lemma SendAppendsPair(messages: seq<Message>, u: Message, a: Message)
    requires u.data.chatId == a.data.chatId
    ensures Conversation(messages + [u, a], u.data.chatId) == Conversation(messages, u.data.chatId) + [u, a]
  {
    var keep := InChat(u.data.chatId);
    AppendPair(messages, u, a);
    FilterAppend(messages, u, keep);
    FilterAppend(messages + [u], a, keep);
  }
}
