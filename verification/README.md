# tager — a Dafny model of the chat log, the task store and their guards

tager is a workspace and task-management web application (Next.js, React,
Socket.IO). Most of it is UI and request plumbing. This project models the
small, sequential logic inside it:

- **Chat server** (`ChatServer`, `src/app/api/socket/route.ts`). A process-wide
  Socket.IO server is created lazily by `POST /api/socket`, guarded by a module
  handle and a `global.io` handle. A module-level message log holds at most 100
  entries. An incoming `send-message` payload is spread into a new object whose
  `id` is the server's, pushed, the oldest entry is shifted out past 100, and the
  message is broadcast. A new connection receives the whole log as history.
- **Chat client** (`ChatClient`, `src/hooks/use-socket-chat.tsx`). This is the
  socket singleton and the `chat-messages` and `new-message` listeners that the
  hook's effect registers when its bootstrap request resolves. The module also
  has the listeners' reducers over the local message list, the cleanup, and the
  `sendMessage` gate and payload.
- **Chat widget** (`ChatWidget`, `src/components/chat.tsx`). This is the send gate
  on the input box, Enter-to-send, and the launcher badge.
- **End to end** (`ChatSystem`). A payload goes from the hook through the server
  and back to a listening client.
- **Task store** (`Tasks`, `src/hooks/use-tasks.tsx`, `src/mock-data/tasks.ts`).
  It has the `Task` record, the initial per-workspace filter, `getTaskById`,
  `addTask`, `updateTask`, `deleteTask`, `addMemberToTask` and
  `removeMemberFromTask`.
- **Task components**:
  - `TaskList`: the search and status filter.
  - `TaskDetail`: the form reset, the assigned/unassigned split, the update
    payload, the creator lookup and the attachment flag.
  - `TaskItem`: the avatar overflow, the confirm-gated delete and the status maps.
  - `CreateTask`: validation, the emitted task, form reset and the disabled button.
- **Invite codes** (`InviteCode`, `src/lib/utils.ts`). The random index for each
  position is an input.

Shared helpers live in `Seqs`, `Text` and `Payload`:

- `Seqs` has `filter`, `find` and subsequence facts.
- `Text` has JavaScript `trim` and `includes`.
- `Payload` treats a JSON object as a map, so an object spread is a map update.

Clocks (`Date.now()`, `new Date().toISOString()`), `uuidv4()`, `Math.random()`,
the server's message id and HTTP response statuses are parameters.
`toLowerCase` is an abstract `string -> string` parameter.

Facts about the chat code that the model keeps:

- The payload fields are `userId`, `userName`, `content` and `timestamp`.
- The server does not validate payloads. An empty or field-less payload is
  stored and broadcast.
- The timestamp is the client's `Date.now()`, copied through by the spread. The
  server does not assign one.
- There are no rooms: every message goes to every connected client.
- Nothing makes message ids unique.
- Repeated mounting can leak listeners (see Findings).

A send typed before the socket exists clears the input box. The hook then drops
the message, which `ChatWidget.HandleSend` states.

## Model

| member | source | states |
|---|---|---|
| ChatServer.Get | src/app/api/socket/route.ts:9-12 | GET answers success and changes nothing |
| ChatServer.Post | src/app/api/socket/route.ts:15-69 | POST always answers success. It constructs a server only when neither `io` nor `global.io` is set. It listens only when the module handle was unset. It leaves the log alone and keeps the one-instance invariant |
| ChatServer.PostIdempotent | src/app/api/socket/route.ts:16-18 | a second POST changes nothing |
| ChatServer.PostTimesSingleInstance | src/app/api/socket/route.ts:16-66 | any number of POSTs construct at most one server and call `listen` at most once more |
| ChatServer.PostTimesFixed | src/app/api/socket/route.ts:16 | once the module handle is set, POSTs leave the process unchanged |
| ChatServer.Stamp | src/app/api/socket/route.ts:36-39 | the stored message keeps every payload field except `id`, which becomes the server's value. A client-sent `id` never survives |
| ChatServer.Push | src/app/api/socket/route.ts:42-45 | the new message ends the log. A log within 100 stays within 100. Below 100 it is an append. At 100, exactly the oldest entry is dropped and the survivors keep their order |
| ChatServer.Connect | src/app/api/socket/route.ts:32 | a new connection receives the current log unchanged |
| ChatServer.Send | src/app/api/socket/route.ts:35-49 | the log becomes the old log with the stamped message pushed and, past 100, its oldest entry shifted out. The broadcast is that stamped message, identical to the log's last entry. Nothing but the log changes, and the 100 bound is kept |
| ChatServer.SendAllIsPushAll | src/app/api/socket/route.ts:35-45 | handling submissions one by one with the `send-message` handler is pushing their stamped messages in order, and changes nothing but the log |
| ChatServer.PushAllKeepsNewest | src/app/api/socket/route.ts:42-45 | after any series of pushes onto a log within the bound, the log is the last 100 of old-plus-new in order |
| ChatServer.SendAllKeepsNewest | src/app/api/socket/route.ts:35-45 | after any series of sends onto a log within the bound, the log is the last 100 of the old log followed by the new messages |
| ChatServer.LastHundredFromEmpty | src/app/api/socket/route.ts:35-45 | after 100 or more sends from an empty log, the log is exactly the last 100 messages in send order |
| ChatClient.Mount | src/hooks/use-socket-chat.tsx:13-17 | an effect run issues a new bootstrap request and registers nothing yet. Only the mounted flag, the run counter and the in-flight requests change |
| ChatClient.Unmount | src/hooks/use-socket-chat.tsx:38-43 | cleanup removes all `chat-messages` and `new-message` listeners when a socket exists. Without one it removes nothing, and an in-flight request is not cancelled. The messages, the socket and the run counter stay |
| ChatClient.Resolve | src/hooks/use-socket-chat.tsx:15-36 | a resolving bootstrap creates the socket only if none exists and always registers one listener per event. The messages, the mounted flag and the run counter stay |
| ChatClient.ResolveGuarded | src/hooks/use-socket-chat.tsx:15-36 | corrected registration: only for the current, still-mounted effect run. The messages, the mounted flag and the run counter stay |
| ChatClient.ReceiveHistory | src/hooks/use-socket-chat.tsx:28-30 | with a listener, history replaces the local list. Without one, nothing changes |
| ChatClient.ReceiveMessage | src/hooks/use-socket-chat.tsx:33-35 | each listener appends the message once at the end. The old list is an unchanged prefix |
| ChatClient.SendMessage | src/hooks/use-socket-chat.tsx:48-57 | a payload is emitted iff there is a socket and a user. It has exactly `userId`, `userName`, `content` (untouched) and `timestamp`, and no `id` |
| ChatClient.StepFramesMessages | src/hooks/use-socket-chat.tsx:13-57 | only the two server events change the local list. Mount, cleanup, bootstrap and send never do |
| ChatClient.StepKeepsSingleSocket | src/hooks/use-socket-chat.tsx:7-20 | the socket is created only when none exists, so at most once |
| ChatClient.GuardedStepKeepsNoLeak | src/hooks/use-socket-chat.tsx:13-43 | with the guard, every event keeps at most one listener per event, and only while mounted |
| ChatClient.NoLeakShowsMessageOnce | src/hooks/use-socket-chat.tsx:33-35 | without a leak a broadcast is shown at most once |
| ChatClient.GuardedMountSubscribes | src/hooks/use-socket-chat.tsx:13-36 | the guard does not prevent subscribing: mount then resolve registers one listener |
| ChatClient.DoubleEffectDuplicatesMessages | src/hooks/use-socket-chat.tsx:13-43 | as written, mount/cleanup/mount with late bootstraps leaves two listeners, and one broadcast shows twice |
| ChatClient.DoubleEffectGuardedShowsOnce | src/hooks/use-socket-chat.tsx:13-43 | with the guard, the same trace shows the broadcast once |
| ChatWidget.HandleSend | src/components/chat.tsx:24-29 | it sends iff the input is not blank, a user exists and the socket exists. The untrimmed input is sent. The input is cleared iff it is not blank and a user exists, and is otherwise unchanged |
| ChatWidget.HandleKeyPress | src/components/chat.tsx:31-35 | Enter runs exactly the send-button path. Other keys do nothing |
| ChatWidget.BadgeCount | src/components/chat.tsx:104 | the badge counts the messages whose `userId` is not the current user's |
| ChatWidget.BadgeCountsOthers | src/components/chat.tsx:104 | badge count plus own-message count equals the number of messages |
| ChatWidget.Render | src/components/chat.tsx:42-108 | no user renders nothing. The open panel aligns each message by sender. The closed launcher shows the badge iff the list is non-empty |
| ChatSystem.BroadcastCarriesPayload | src/app/api/socket/route.ts:35-48 | the broadcast of a hook's send has exactly the hook's fields plus the server id |
| ChatSystem.ClientKeepsServerLog | src/app/api/socket/route.ts:42-48 | a client that holds the server log as the end of its list still does so after a send and its broadcast |
| ChatSystem.ConnectShowsLog | src/app/api/socket/route.ts:32 | after connecting, the client's list is the server's log |
| ChatSystem.HelloScenario | src/app/api/socket/route.ts:15-48 | on a freshly started server, u1/Alice sends "hello": the log holds that one message and a listener appends it once |
| Text.TrimEmptyIffBlank | src/components/chat.tsx:25 | `trim()` is empty iff every character is whitespace |
| Text.Includes | src/components/taskList.tsx:24 | `includes` holds iff the text has the query at some position |
| Text.IncludesEmpty | src/components/taskList.tsx:24 | every string includes the empty string |
| Tasks.InitialTasks | src/hooks/use-tasks.tsx:6 | the initial list is exactly the mock tasks of the workspace, in order, each as often as the mock data holds it |
| Tasks.GetTaskById | src/hooks/use-tasks.tsx:9-14 | it returns the first task with the id, or none iff no task has it |
| Tasks.AddTask | src/hooks/use-tasks.tsx:17-27 | it appends one task with the given fields, the fresh id, and `createdAt` and `updatedAt` each from its own clock reading, and returns that task |
| Tasks.ApplyUpdate | src/hooks/use-tasks.tsx:31 | an update keeps `id`, `createdAt` and `createdBy`, takes each given field, and sets `updatedAt` to now |
| Tasks.UpdateTask | src/hooks/use-tasks.tsx:30-32 | length, order and ids are kept. Only tasks with the id change |
| Tasks.DeleteTask | src/hooks/use-tasks.tsx:35-37 | no task with the id remains. All others remain in order, each as often as before |
| Tasks.AddMember | src/hooks/use-tasks.tsx:43-50 | a matching task without the user gets it appended and `updatedAt` = now. Any other task is unchanged |
| Tasks.AddMemberToTask | src/hooks/use-tasks.tsx:40-53 | length is kept and each task is changed only as above |
| Tasks.RemoveMember | src/hooks/use-tasks.tsx:59-64 | a matching task loses every occurrence of the user and is stamped now. Any other task is unchanged |
| Tasks.RemoveMemberFromTask | src/hooks/use-tasks.tsx:56-69 | length is kept and each task is changed only as above |
| Tasks.AddMemberKeepsNoDuplicates | src/hooks/use-tasks.tsx:43-46 | adding never creates a duplicate assignee, and the user is assigned afterwards iff before or the task matched |
| Tasks.AddMemberIdempotent | src/hooks/use-tasks.tsx:40-53 | adding the same member twice equals adding once |
| Tasks.RemoveMemberKeepsOthers | src/hooks/use-tasks.tsx:62 | the other assignees stay, in order |
| Tasks.RemoveUndoesAdd | src/hooks/use-tasks.tsx:40-69 | removing a just-added member restores the assignee list |
| Tasks.DeleteThenGet | src/hooks/use-tasks.tsx:9-37 | a deleted id can no longer be looked up |
| Tasks.AddThenGet | src/hooks/use-tasks.tsx:9-27 | a task added under an unused id is what the lookup finds |
| Tasks.UpdateThenGet | src/hooks/use-tasks.tsx:9-32 | after an update, the lookup returns the updated first match |
| Tasks.AssignedMembers | src/components/taskItem.tsx:28 | the assignee list is the directory users whose id is assigned, in directory order, each as often as the directory lists it |
| TaskList.FilteredTasks | src/components/taskList.tsx:23-27 | the result is an order-preserving subsequence. Every kept task matches the search and the status filter, and every task matching both is kept, as often as the list holds it |
| TaskList.EmptyQueryShowsAll | src/components/taskList.tsx:23-27 | an empty query with "all" selected returns every task |
| TaskDetail.FormFor | src/components/taskDetailModal.tsx:26-35 | the form (initially and on task change) is the task's title, description and status |
| TaskDetail.UnassignedMembers | src/components/taskDetailModal.tsx:39 | these are the directory users not assigned, in directory order, each as often as the directory lists it |
| TaskDetail.AssignedUnassignedPartition | src/components/taskDetailModal.tsx:38-39 | every user is in exactly one of the two lists, which together are the directory |
| TaskDetail.HandleUpdate | src/components/taskDetailModal.tsx:89-96 | it passes exactly title, description and status for `task.id`, then closes |
| TaskDetail.UpdateRoundTrip | src/components/taskDetailModal.tsx:89-95 | the updated task's form is the submitted one, and its other data is kept |
| TaskDetail.Creator | src/components/taskDetailModal.tsx:102 | the creator is the first directory user with the `createdBy` id, or none iff there is none |
| TaskDetail.HandleUpload | src/components/taskDetailModal.tsx:50-69 | with no file, nothing happens. The flag becomes true only after an ok upload. A failure leaves it unchanged |
| TaskDetail.HandleDelete | src/components/taskDetailModal.tsx:75-86 | the flag becomes false only after an ok delete. A failure leaves it unchanged |
| TaskDetail.FileExistsAfterHead | src/components/taskDetailModal.tsx:44-48 | after the opening check the flag is true iff the answer was exactly 200, whatever it was before |
| TaskDetail.HeadIsStricterThanOk | src/components/taskDetailModal.tsx:44-69 | a 204 answer reads as "no attachment" on opening, although an upload answered 204 marks one present |
| TaskItem.Avatars | src/components/taskItem.tsx:97-106 | the first min(3, n) assignees are shown. The overflow appears iff n > 3 and shows n − 3 |
| TaskItem.CardShowsAssignees | src/components/taskItem.tsx:28-106 | avatars show only assignees, and shown plus overflow equals the assignee count |
| TaskItem.HandleDelete | src/components/taskItem.tsx:34-39 | `onDelete(task.id)` runs iff the confirmation is true |
| TaskItem.Badge | src/components/taskItem.tsx:86 | the badge shows the colour and the label of the task's own status |
| TaskItem.BadgeIdentifiesStatus | src/components/taskItem.tsx:41-51 | two tasks carry the same badge label iff they have the same status |
| TaskItem.StatusMapsTotal | src/components/taskItem.tsx:41-51 | both maps cover all three statuses, and the labels are distinct |
| CreateTask.HandleCreateTask | src/components/createTaskModal.tsx:30-47 | a blank title does nothing. Otherwise it emits the untrimmed title with no assignees and creator "user-1", resets the form to ("", "", todo) and closes. It emits iff the button is enabled |
| CreateTask.CreateThenAdd | src/components/createTaskModal.tsx:33-40 | a created task is appended to the store with the form's data and no assignees |
| CreateTask.EmptyFormCannotCreate | src/components/createTaskModal.tsx:26-28 | the initial form ("", "", todo) has the button disabled and cannot create |
| InviteCode.AlphabetIsAlphanumeric | src/lib/utils.ts:9 | the alphabet is the 62 ASCII letters and digits, each once |
| InviteCode.GenerateInviteCode | src/lib/utils.ts:8-18 | the code has max(length, 0) characters. Character i is `chars[idx[i]]`, always alphanumeric |

## Left out

- Socket.IO transport: `new Server`, the CORS options, `io(...)`, the `connect`
  and `disconnect` logging, and the actual binding of port 3001. `listen` is
  only counted.
- Module reloading is not an event of the model. Its result, a process with
  `global.io` set and the module handle unset, is a valid starting state. There
  `ChatServer.Post` records a second `listen` without a second instance.
- Message ids (`msg-${Date.now()}-…`) are an opaque input. The code guarantees no
  uniqueness, so none is stated.
- Rooms and payload validation: the server has neither, so the model has
  neither.
- ChatClient: one mounted hook is modelled. With several hooks mounted, one
  cleanup's `off` would also drop the others' listeners; the application mounts
  one chat.
- ChatClient.Mount: a cleanup followed by an effect run keeps the message
  list, as React's development re-run of the same component does. A new chat
  component mounted later is not modelled: it starts from an empty list and
  reuses the module socket, and since the server sends the history only on
  connection, it never receives the history.
- ChatClient.Mount: the effect is assumed to run only while unmounted, and
  cleanup only while mounted, as React guarantees.
- Text.TrimEmptyIffBlank: characters are Unicode scalar values, not the UTF-16
  code units JavaScript strings hold.
- TaskList.FilteredTasks: `toLowerCase` is an abstract parameter, because
  Unicode's full default case mapping, including mappings to several
  characters, is not modelled. The empty-query lemma assumes it
  maps "" to "".
- Tasks.UpdateTask: takes one clock reading for the whole call, although
  `new Date()` runs once per matching task inside `map`. Readings can differ
  only when several tasks share the id, which fresh uuids make unusual.
- Tasks.AddMemberToTask: one clock reading per call, for the same reason as
  `Tasks.UpdateTask`.
- Tasks.RemoveMemberFromTask: one clock reading per call, for the same reason
  as `Tasks.UpdateTask`.
- Payload values: a payload field holds a string or an integer. Booleans,
  fractions, nested objects and non-object payloads (which the spread turns
  into index keys or nothing) are not modelled; no stated property depends on
  the kind of value a field holds.
- Tasks.ApplyUpdate: an update field that is present but `undefined` (which the
  spread copies) is not distinguished from an absent one.
- InviteCode.GenerateInviteCode: takes an integer `length`. A fractional
  JavaScript number, which the loop rounds up, is not modelled. The draws are
  taken as already floored indices below 62.
- Date and time formatting: `formatTime`, date-fns `format`.
- React rendering: the modals, toasts, `toggleChat`, scrolling, `handleDownload`
  (`window.open`), and the component wiring. For example, taskItem.tsx and
  taskDetailModal.tsx import `Task` and `users` from a module that does not
  export them.
- The upload route, the Appwrite-backed auth routes and session middleware,
  page.tsx, the workspace-id hook and `cn`: these are I/O or thin wrappers.

## Findings

| source | as written | input that shows it | evidently intended | confidence | as-written member | corrected member |
|---|---|---|---|---|---|---|
| src/hooks/use-socket-chat.tsx:13-43 | listeners are registered in the `.then` of the bootstrap `fetch`, and the cleanup only removes listeners that already exist, so a request that resolves after its cleanup still registers a listener set | effect run, cleanup before the bootstrap resolves (no socket yet), effect run again, then both requests resolve, as under React's development double-invoked effects; one `new-message` broadcast is then appended twice | at most one listener set per mounted hook, so each broadcast is shown once | medium, not executed | ChatClient.DoubleEffectDuplicatesMessages | ChatClient.GuardedStepKeepsNoLeak |
