# Chatbot platform backend: a Dafny model

This project models the backend of a small chatbot platform. Users
register and log in, and receive a bearer token. They create projects, and
under each project they create prompts (at most one of them the
project's default) and chats. Sending a message in a chat does the
following:

1. It stores the user's message.
2. It builds the conversation context (the chat's newest 20 messages,
   oldest first).
3. It builds a system text from the project's default prompt and a fixed
   rule block.
4. It asks a hosted language model through an OpenRouter chat-completion
   call.
5. It stores the model's reply as an assistant message.

## How the model is organised

- `common.dfy`: `Option`, and the JSON field values a request body can
  carry. It also holds the outcome of a handler (`Reply`) and JavaScript
  truthiness and `||` on strings.
- `text.dfy`: the JavaScript string operations the code relies on:
  - `trim`, using the ECMAScript whitespace set;
  - `split` on one character;
  - `startsWith`;
  - the UTF-16 `length` that the schema library measures;
  - the decimal rendering of a status code.
- `seqs.dfy`: the sequence operations a table query is made of. These are
  filter (`where`), reverse (`orderBy: desc`), take (`take`) and first
  match (`findFirst`).
- `store.dfy`: the database as a class `Db`. Each table is a sequence
  field, and one clock stamps every new row with its key and creation time.
  - The class invariant `Valid()` covers:
    - rows in creation order with increasing keys;
    - unique emails;
    - at most one default prompt per project;
    - foreign keys (prompts and chats to projects, messages to chats);
    - only `user`/`assistant` messages.
  - Every write (`Insert*`, `ClearDefaults`) keeps the invariant.
  - The file also holds the read queries: newest first, oldest first, the
    owned project, the owned chat, and users by email and by id.
- `schema.dfy`: the request-body checks (`string().min(n)`, `email()`,
  `optional()`, `boolean()`).
- `guard.dfy`: the bearer-token middleware. `Guard` is the decision and
  `AuthGuard` sets `req.user`.
- `gateway.dfy`: the language-model service. It covers the request it
  builds, the error messages it throws, and the reply text it extracts.
- `auth_routes.dfy`, `project_routes.dfy`, `prompt_routes.dfy`,
  `chat_routes.dfy`: the route handlers.
  - Handlers that only read are functions of the tables.
  - Handlers that write are methods that take the store `db: Db` and
    declare `modifies db`. They state the whole new store (every table and
    the clock), and they keep `Valid()`.

The caller of a protected route is `req.user.id`, passed in as `caller`.

## Model

| member | source | states |
|---|---|---|
| Text.TrimStart | backend/src/routes/chat.routes.js:147 | the result is the suffix of the input after its leading whitespace, and starts with a non-whitespace character or is empty |
| Text.TrimEnd | backend/src/routes/chat.routes.js:147 | the result is the prefix of the input before its trailing whitespace, and ends with a non-whitespace character or is empty |
| Text.Trim | backend/src/services/openrouter.service.js:39 | the result is the slice of the input that starts after its leading whitespace (`Lead`), everything after the slice is whitespace, the slice neither starts nor ends with whitespace, and it is empty exactly when the input is all whitespace |
| Text.TrimOfTrimmed | backend/src/services/openrouter.service.js:39 | a string with no whitespace at either end is its own trim |
| Text.TrimIdempotent | backend/src/services/openrouter.service.js:39 | trimming twice equals trimming once |
| Text.TrimStartAppend | backend/src/routes/chat.routes.js:139-147 | leading whitespace is stripped from the first part alone when that part has content, and the rest is kept untouched |
| Text.TrimStartSkipsWhitespace | backend/src/routes/chat.routes.js:139-147 | whitespace in front of a string is skipped entirely by `trim` |
| Text.TrimEndAppendWhitespace | backend/src/routes/chat.routes.js:146-147 | trailing whitespace after a non-whitespace end is exactly what the end-trim removes |
| Text.Split | backend/src/middleware/auth.js:10 | `split` yields at least one field and no field contains the separator |
| Text.JoinSplit | backend/src/middleware/auth.js:10 | joining the fields of a split with the separator gives back the original string |
| Text.SplitFirstField | backend/src/middleware/auth.js:10 | the first field is the longest separator-free prefix |
| Text.SplitAfterField | backend/src/middleware/auth.js:10 | a separator-free prefix followed by the separator is exactly the first field, and the rest splits on its own |
| Text.SplitWithoutSeparator | backend/src/middleware/auth.js:10 | a string without the separator splits into itself alone |
| Text.StartsWithConcat | backend/src/middleware/auth.js:6 | `startsWith(p)` holds of `p` followed by anything, and a string that starts with `p` is `p` followed by the rest |
| Text.Utf16Length | backend/src/routes/auth.routes.js:15-17 | the length the schema library checks counts each character up to U+FFFF once and every other character twice: it equals the character count when all characters are in the Basic Multilingual Plane, twice that when none are, and lies between the two otherwise |
| Text.Utf16LengthAppend | backend/src/routes/auth.routes.js:15-17 | the length of a concatenation is the sum of the lengths |
| Text.Utf16LengthOfChar | backend/src/routes/auth.routes.js:15-17 | a single character counts two code units exactly when it lies above U+FFFF, and one otherwise |
| Text.Decimal | backend/src/services/openrouter.service.js:34 | the rendered status code is a non-empty string of decimal digits with no leading zero (only 0 itself starts with "0") |
| Text.DecimalRoundTrip | backend/src/services/openrouter.service.js:34 | reading the rendered digits back gives the status code |
| Seqs.Filter | backend/src/routes/chat.routes.js:73-76 | a `where` keeps exactly the matching rows |
| Seqs.FilterAppend | backend/src/routes/chat.routes.js:102-108 | a row appended to a table appears at the end of every filtered view it matches and changes no other view |
| Seqs.FilterNone | backend/src/routes/chat.routes.js:111-114 | a query that no row matches returns nothing |
| Seqs.Take | backend/src/routes/chat.routes.js:120 | `take: n` gives the first `min(n, length)` rows |
| Seqs.Reverse | backend/src/routes/chat.routes.js:124-125 | `reverse()` keeps the length and puts element `i` at position `n-1-i` |
| Seqs.ReverseInvolution | backend/src/routes/chat.routes.js:117-125 | reversing the newest-first result a second time gives back the original order |
| Seqs.First | backend/src/routes/prompt.routes.js:13-15 | `findFirst` returns the earliest matching row, or nothing exactly when no row matches |
| Seqs.NewestInOrder | backend/src/routes/chat.routes.js:117-125 | the newest `n` rows, reversed back, are exactly the last `min(n, length)` rows in their original order |
| Store.NewestFirst | backend/src/routes/project.routes.js:13-16 | a `createdAt: "desc"` query returns exactly the matching rows, newest first |
| Store.NewestFirstHead | backend/src/routes/chat.routes.js:111-114 | the head of a newest-first result has the latest creation time among the matching rows |
| Store.OldestFirst | backend/src/routes/chat.routes.js:73-76 | a `createdAt: "asc"` query returns exactly the matching rows, oldest first |
| Store.FilterAscending | backend/src/routes/chat.routes.js:73-76 | keeping some rows of a creation-ordered table keeps creation order |
| Store.ReverseDescending | backend/src/routes/chat.routes.js:52-55 | reversing a creation-ordered table lists it newest first |
| Store.OwnedProject | backend/src/routes/chat.routes.js:15-17 | the lookup finds a project with that key owned by the caller, and finds none exactly when no such project exists |
| Store.OwnedChat | backend/src/routes/chat.routes.js:93-95 | the lookup finds a chat with that key whose project is owned by the caller, and finds none exactly when no such chat exists |
| Store.UserByEmail | backend/src/routes/auth.routes.js:22-24 | the lookup finds a user with that email, and finds none exactly when no user has it |
| Store.UserById | backend/src/routes/auth.routes.js:78-81 | the lookup finds the user with that key, and finds none exactly when no user has it |
| Store.Unset | backend/src/routes/prompt.routes.js:44-47 | a row passed over by the `updateMany` keeps its default flag only when it was set and the row belongs to another project, and keeps every other column |
| Store.Cleared | backend/src/routes/prompt.routes.js:44-47 | the `updateMany` keeps the table's length and order and passes every prompt through `Unset` |
| Store.ClearedIsSafe | backend/src/routes/prompt.routes.js:44-47 | clearing the flags keeps at most one default per project |
| Store.ClearedKeepsLinks | backend/src/routes/prompt.routes.js:44-47 | clearing the flags moves no prompt away from its project |
| Store.LinkedAfterChat | backend/src/routes/chat.routes.js:29-34 | a chat of a stored project keeps every foreign key intact |
| Store.LinkedAfterMessage | backend/src/routes/chat.routes.js:102-108 | a message of a stored chat keeps every foreign key intact |
| Store.Db.InsertUser | backend/src/routes/auth.routes.js:30-37 | `user.create` with a fresh email appends the row stamped with the clock, keeps the invariant, and changes no other table |
| Store.Db.InsertProject | backend/src/routes/project.routes.js:31-37 | `project.create` appends the stamped row, keeps the invariant, and changes no other table |
| Store.Db.InsertPrompt | backend/src/routes/prompt.routes.js:50-57 | `prompt.create` for a stored project (and as default only when the project has none) appends the stamped row and keeps the invariant |
| Store.Db.InsertChat | backend/src/routes/chat.routes.js:29-34 | `chat.create` for a stored project appends the stamped row and keeps the invariant |
| Store.Db.InsertMessage | backend/src/routes/chat.routes.js:102-108 | `message.create` for a stored chat, with role `user` or `assistant`, appends the stamped row and keeps the invariant |
| Store.Db.ClearDefaults | backend/src/routes/prompt.routes.js:43-48 | the loop over the prompts table leaves it equal to `Cleared` of the old table, and leaves every other table as it was |
| Middleware.BearerSplit | backend/src/middleware/auth.js:6-10 | a header that passes the prefix test splits into "Bearer" and then the fields of the rest |
| Middleware.BearerToken | backend/src/middleware/auth.js:10 | the token is the text after "Bearer " up to the next space or the end, and contains no space |
| Middleware.Guard | backend/src/middleware/auth.js:3-19 | missing or non-Bearer header gives 401 "Missing token" (iff); a token that does not verify gives 401 "Invalid or expired token" (iff); a token that verifies always lets the request through, with its `userId` and `email` as the user, and only such a token does |
| Middleware.IssuedTokenAccepted | backend/src/middleware/auth.js:10-15 | a token the server signed, sent after "Bearer " with or without trailing words, lets the request through as the user it names |
| Middleware.AuthGuard | backend/src/middleware/auth.js:3-19 | the method reaches the decision of `Guard`, sets `req.user` to the claims on success, and leaves it untouched on rejection |
| Gateway.BuildPayload | backend/src/services/openrouter.service.js:10-18 | the payload has a system entry first exactly when the system text is non-empty, then the given messages (none when absent), at temperature 0.2 and 300 tokens |
| Gateway.BuildRequest | backend/src/services/openrouter.service.js:2-29 | the request goes to the base URL (default "https://openrouter.ai/api/v1") plus "/chat/completions" with the bearer key, and uses the model name (default "openai/gpt-4o-mini") |
| Gateway.ReplyText | backend/src/services/openrouter.service.js:37-39 | the reply is `Trim` of the first choice content when there is one, "" when it is missing, and non-empty exactly when that content has a non-whitespace character |
| Gateway.MissingKeySendsNothing | backend/src/services/openrouter.service.js:6-8 | without a key the call fails with "OPENROUTER_API_KEY missing in .env" whatever the upstream would answer |
| Gateway.UpstreamMessage | backend/src/services/openrouter.service.js:33-35 | the thrown message is "OpenRouter error: ", the status digits that read back as the status, a space, and the response body |
| Gateway.FirstContent | backend/src/services/openrouter.service.js:37 | the optional chain yields a value exactly when there is a `choices` list whose first entry has a string content, and then that content |
| Gateway.GenerateAssistantReply | backend/src/services/openrouter.service.js:1-39 | without a key it fails with the configuration error (iff); otherwise the built request is sent once, a failed round trip propagates, a non-2xx response fails with its status and body, and a 2xx response gives the trimmed first content, which trimming again leaves unchanged |
| ProjectRoutes.ListProjects | backend/src/routes/project.routes.js:13-17 | the listing holds exactly the caller's projects, newest first |
| ProjectRoutes.CreateProject | backend/src/routes/project.routes.js:24-39 | a bad body writes nothing; otherwise one project owned by the caller is appended with the given fields, the clock advances by one, and nothing else changes |
| ProjectRoutes.CreatedProjectListed | backend/src/routes/project.routes.js:13-17 | a new project heads its owner's listing and is absent from every other user's listing |
| PromptRoutes.ListPrompts | backend/src/routes/prompt.routes.js:13-23 | 404 "Project not found" unless the caller owns the project; otherwise exactly its prompts, newest first |
| PromptRoutes.CreatePrompt | backend/src/routes/prompt.routes.js:30-59 | a bad body, then a project not owned, each write nothing; otherwise the project's defaults are cleared when `isDefault` is true and the new prompt is appended with `isDefault ?? false`, the clock advancing by one, keeping at most one default per project |
| PromptRoutes.ClearedOnlyUnsetsFlags | backend/src/routes/prompt.routes.js:43-48 | clearing touches only the flag, and only that project's prompts |
| PromptRoutes.NewDefaultIsTheOnlyOne | backend/src/routes/prompt.routes.js:43-56 | after clear-then-create the new prompt is its project's only default |
| PromptRoutes.NonDefaultKeepsInvariant | backend/src/routes/prompt.routes.js:50-56 | a non-default prompt leaves every existing prompt alone and keeps at most one default per project |
| AuthRoutes.Register | backend/src/routes/auth.routes.js:14-39 | a bad body writes nothing; a stored email gives 409 "Email already exists" and writes nothing; otherwise one user is appended with the password's hash, the clock advances by one, and the reply holds only id, name, email and createdAt |
| AuthRoutes.Login | backend/src/routes/auth.routes.js:46-70 | a bad body is rejected (iff); with a valid body, every outcome other than success is the same 401 "Invalid credentials", whether the email is unknown or the password wrong; success (iff a user with that email matches the password) returns a token signed over that user's id and email, with the user's id, name and email |
| AuthRoutes.Me | backend/src/routes/auth.routes.js:78-83 | 200 with the caller's public fields, or with null exactly when no user has that id |
| AuthRoutes.RegisterThenLogin | backend/src/routes/auth.routes.js:28-70 | whoever registers can then log in with the same email and password and gets a token for the new user |
| AuthRoutes.RegisterTwice | backend/src/routes/auth.routes.js:14-39 | when a registration succeeds, a second one with the same body gets 409 "Email already exists" and the store holds exactly the one new user |
| AuthRoutes.LoginTokenAuthenticates | backend/src/routes/auth.routes.js:61-83 | the token from a successful login passes the middleware as that user, and `/me` then finds the user with the same email |
| ChatRoutes.ChatTitle | backend/src/routes/chat.routes.js:32 | the title is the given one when non-empty, and "New Chat" when it is absent or empty |
| ChatRoutes.CreateChat | backend/src/routes/chat.routes.js:15-37 | a project not owned gives 404 and writes nothing, checked before the body; a bad body writes nothing; otherwise one chat of the project is appended with the title and the clock advances by one |
| ChatRoutes.ListChats | backend/src/routes/chat.routes.js:44-58 | 404 "Project not found" unless the caller owns the project; otherwise exactly its chats, newest first |
| ChatRoutes.ListMessages | backend/src/routes/chat.routes.js:65-79 | 404 "Chat not found" unless the caller owns the chat's project; otherwise exactly the chat's messages, oldest first |
| ChatRoutes.LastMessages | backend/src/routes/chat.routes.js:117-121 | the context query returns `min(20, n)` of the chat's `n` messages, all of that chat, newest first |
| ChatRoutes.LlmMessages | backend/src/routes/chat.routes.js:124-130 | the context never has more than 20 entries, each with role `user` or `assistant` |
| ChatRoutes.ToEntries | backend/src/routes/chat.routes.js:124-130 | the conversion keeps only `user` and `assistant` entries and never grows the list |
| ChatRoutes.ToEntriesAppend | backend/src/routes/chat.routes.js:126-130 | a message appended at the end adds its entry at the end when its role is kept |
| ChatRoutes.ToEntriesKeepsAll | backend/src/routes/chat.routes.js:126-130 | over chat-role messages nothing is dropped, and each entry is the message's role and content, in order |
| ChatRoutes.ContextWindow | backend/src/routes/chat.routes.js:117-130 | the context is the chat's newest `min(20, n)` messages, oldest first, and never has more than 20 entries |
| ChatRoutes.ContextOfStore | backend/src/routes/chat.routes.js:117-130 | in a valid store the context is exactly the role and content of those messages |
| ChatRoutes.UserMessageLast | backend/src/routes/chat.routes.js:101-130 | the message just stored is the last entry of the context built after it |
| ChatRoutes.ContextEndsWith | backend/src/routes/chat.routes.js:117-130 | when the chat's newest message has a chat role, its role and content are the last entry of the context |
| ChatRoutes.ConversationGrows | backend/src/routes/chat.routes.js:102-108 | a stored message becomes the last message of its chat |
| ChatRoutes.DefaultPrompt | backend/src/routes/chat.routes.js:111-114 | the project's default prompt, found exactly when one exists, and in a creation-ordered table the newest |
| ChatRoutes.DefaultAfterCreate | backend/src/routes/chat.routes.js:111-114 | a prompt just created as default is the one the next message of its project is sent with |
| ChatRoutes.RulesEdges | backend/src/routes/chat.routes.js:142-146 | the rule block begins with "R" and ends with ".", so neither end is whitespace |
| ChatRoutes.BasePrompt | backend/src/routes/chat.routes.js:140 | the base is the default prompt's content unless there is none or it is empty, and then "You are a helpful assistant."; it is never empty |
| ChatRoutes.SystemText | backend/src/routes/chat.routes.js:139-147 | the trimmed template is never empty |
| ChatRoutes.TrimFramedWithContent | backend/src/routes/chat.routes.js:139-147 | trimming the template around a base with content gives the base without leading whitespace, a blank line, and the rule block |
| ChatRoutes.TrimFramedWithoutContent | backend/src/routes/chat.routes.js:139-147 | trimming the template around an all-whitespace base leaves the rule block alone |
| ChatRoutes.SystemTextShape | backend/src/routes/chat.routes.js:139-147 | the system text is the base prompt with leading whitespace dropped, a blank line and the rules with today's date; an all-whitespace base leaves the rules alone |
| ChatRoutes.FallbackSystemText | backend/src/routes/chat.routes.js:139-147 | without a default prompt the system text is "You are a helpful assistant.", a blank line and the rules |
| ChatRoutes.SendMessage | backend/src/routes/chat.routes.js:86-167 | a bad body, then a chat not owned, each write nothing; otherwise the user message is stored, the model is asked with the system text and context built after that write, and on success the reply is stored right after it and both are returned; on failure the error propagates and only the user message stays stored; the clock advances once per stored message |
| ChatRoutes.Exchange | backend/src/routes/chat.routes.js:101-162 | for a stored chat: the user message is stored with the next tick, the model is asked with the project's system text and the context built after that write; a failed call is thrown with only the user message stored, and a reply is stored with the tick after it and returned with status 201; no other table changes |
| ChatRoutes.SendAppendsPair | backend/src/routes/chat.routes.js:156-167 | a successful send makes the chat's conversation longer by exactly the user message and then the reply |

## Left out

- The HTTP layer is not modelled: Express routing, JSON parsing of request
  bodies, and the `asyncHandler`/error-handler mapping of thrown errors.
  `Invalid` stands for a body the schema library rejects. `Thrown(message)`
  stands for any other error the handler throws. The status code the error
  handler turns these into is not part of this model (`app.js` and
  `server.js` are not part of this model).
- The database is an in-memory set of tables:
  - Keys and creation times come from one store-wide counter, not from
    generated ids and the wall clock.
  - Each request runs alone, with no concurrency and no interleaving of two
    requests.
  - The two writes of a send are not in a transaction, which the model
    reflects: a model failure leaves the user message stored.
- The email column is assumed unique, since `findUnique({ where: { email } })`
  requires it. The database schema is not part of this model.
- Password hashing is a parameter (`Bcrypt`: hash, compare). This leaves out
  the salt and cost factor 10. Where `RegisterThenLogin` needs it, the one
  property assumed is that a password matches its own hash.
- The token library is a parameter (`Jwt`: sign, verify). This leaves out
  the secret, the signature algorithm and the 7-day expiry. The properties
  assumed where needed are that a token verifies to its claims and has no
  space.
- The schema library's email check is a parameter (`isEmail`).
- Text.Utf16Length: strings are sequences of Unicode scalar values, so a
  lone UTF-16 surrogate cannot be represented. A JavaScript string can hold
  one, for instance from a `\uD800` escape in a JSON body, and the length
  checks are not modelled for such strings.
- `new Date().toLocaleDateString("en-IN", …)` is not modelled: the formatted
  date is the parameter `today`.
- The network round trip to the model is the parameter `fetch`. The
  response body is reduced to what the service reads (`choices[0].message.content`,
  when it is a string). `JSON.stringify` of that body is the response's
  `json` string.
- Gateway.ReplyText: a first-choice content that is present but is not a
  string is treated as absent. In the service, a truthy non-string would make
  `trim` throw instead.
- `JSON.stringify(payload)` is not modelled: the payload is kept as a
  value. The temperature is kept as the real 0.2.
- `backend/src/services/openai.service.js` is not part of this model, since
  no route uses it. The frontend is not part of this model either.
- `ChatRoutes.DefaultPrompt`, `ChatRoutes.ContextOfStore`, and the listing
  functions (`ListProjects`, `ListPrompts`, `ListChats`, `ListMessages`) state
  their ordering only for tables in creation order. Every valid store is in
  creation order. Ties in `createdAt` cannot occur in the model.
