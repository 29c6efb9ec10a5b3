/** The client side of the chat, `src/hooks/use-socket-chat.tsx`: a socket
    singleton shared by every mount of the hook, the `chat-messages` and
    `new-message` listeners its effect registers, and the message list those
    listeners maintain.

    The effect's body runs in the `.then` of a `fetch`, so registration happens
    whenever that request resolves, and the cleanup the effect returns may run
    before it. The model keeps each in-flight request as the generation of the
    effect run that issued it, and counts the listeners registered per event. */
module ChatClient {
  import opened Payload
  import opened Seqs

  /** The current account as `useCurrent` returns it: `$id` and `name`. */
  datatype User = User(id: string, name: string)

  /** One mounted hook together with the module-level socket. */
  datatype Adapter = Adapter(
    socket: bool,               // the module-level `socket` is set
    socketsCreated: nat,        // calls of `io("http://localhost:3001")`
    mounted: bool,              // the effect has run and not been cleaned up
    generation: nat,            // number of effect runs so far
    pending: set<nat>,          // effect runs whose `fetch` has not resolved yet
    historyHandlers: nat,       // `chat-messages` listeners on the socket
    messageHandlers: nat,       // `new-message` listeners on the socket
    messages: seq<Obj>)         // the hook's `messages` state

  /** Page load: no socket, nothing mounted, no messages. */
  const Initial := Adapter(false, 0, false, 0, {}, 0, 0, [])

  /** The socket singleton: it is created at most once and kept for good. */
  predicate SingleSocket(a: Adapter)
  {
    a.socketsCreated == (if a.socket then 1 else 0)
  }

  /** The effect runs: it issues the `POST /api/socket` bootstrap request. */
  function Mount(a: Adapter): (r: Adapter)
    requires !a.mounted
    ensures r.mounted && r.generation in r.pending
    ensures r.socket == a.socket && r.messages == a.messages
    ensures r.messageHandlers == a.messageHandlers && r.historyHandlers == a.historyHandlers
    ensures r.pending == a.pending + {r.generation} && r.generation == a.generation + 1
    ensures r == a.(mounted := true, generation := r.generation, pending := r.pending)
  {
    a.(mounted := true, generation := a.generation + 1, pending := a.pending + {a.generation + 1})
  }

  /** The effect's cleanup: when a socket exists, `off` drops every listener
      of both events; without a socket it does nothing. A request still in
      flight is not cancelled. */
  function Unmount(a: Adapter): (r: Adapter)
    requires a.mounted
    ensures !r.mounted && r.pending == a.pending && r.messages == a.messages
    ensures a.socket ==> r.messageHandlers == 0 && r.historyHandlers == 0
    ensures !a.socket ==> r.messageHandlers == a.messageHandlers && r.historyHandlers == a.historyHandlers
    ensures r == a.(mounted := false, historyHandlers := r.historyHandlers, messageHandlers := r.messageHandlers)
  {
    if a.socket then a.(mounted := false, historyHandlers := 0, messageHandlers := 0)
    else a.(mounted := false)
  }

  /** The bootstrap request issued by effect run `g` resolves, as the hook is
      written: create the socket if there is none, then register one listener
      for each event, whether or not the effect was cleaned up meanwhile. */
  function Resolve(a: Adapter, g: nat): (r: Adapter)
    ensures g !in a.pending ==> r == a
    ensures g in a.pending ==> r.socket && r.pending == a.pending - {g}
    ensures g in a.pending ==>
      r.messageHandlers == a.messageHandlers + 1 && r.historyHandlers == a.historyHandlers + 1
    ensures SingleSocket(a) ==> SingleSocket(r)
    ensures r == a.(socket := r.socket, socketsCreated := r.socketsCreated, pending := r.pending,
                    historyHandlers := r.historyHandlers, messageHandlers := r.messageHandlers)
  {
    if g !in a.pending then a
    else
      var s := if a.socket then a else a.(socket := true, socketsCreated := a.socketsCreated + 1);
      s.(pending := a.pending - {g},
         historyHandlers := a.historyHandlers + 1,
         messageHandlers := a.messageHandlers + 1)
  }

  /** The same step with the guard the cleanup was meant to provide: a request
      resolving after its effect run was cleaned up registers nothing. */
  function ResolveGuarded(a: Adapter, g: nat): (r: Adapter)
    ensures g !in a.pending ==> r == a
    ensures g in a.pending ==> r.socket && r.pending == a.pending - {g}
    ensures g in a.pending && a.mounted && g == a.generation ==>
      r.messageHandlers == a.messageHandlers + 1 && r.historyHandlers == a.historyHandlers + 1
    ensures !(a.mounted && g == a.generation) ==>
      r.messageHandlers == a.messageHandlers && r.historyHandlers == a.historyHandlers
    ensures SingleSocket(a) ==> SingleSocket(r)
    ensures r == a.(socket := r.socket, socketsCreated := r.socketsCreated, pending := r.pending,
                    historyHandlers := r.historyHandlers, messageHandlers := r.messageHandlers)
  {
    if g !in a.pending then a
    else
      var s := if a.socket then a else a.(socket := true, socketsCreated := a.socketsCreated + 1);
      if a.mounted && g == a.generation then
        s.(pending := a.pending - {g},
           historyHandlers := a.historyHandlers + 1,
           messageHandlers := a.messageHandlers + 1)
      else s.(pending := a.pending - {g})
  }

  /** The server's `chat-messages` event: every listener replaces the list
      with the history, so with any listener at all the list is the history. */
  function ReceiveHistory(a: Adapter, history: seq<Obj>): (r: Adapter)
    ensures a.historyHandlers > 0 ==> r.messages == history
    ensures a.historyHandlers == 0 ==> r == a
    ensures r == a.(messages := r.messages)
  {
    if a.historyHandlers > 0 then a.(messages := history) else a
  }

  /** `k` copies of `m`. */
  function Copies(m: Obj, k: nat): (r: seq<Obj>)
    ensures |r| == k && forall i :: 0 <= i < k ==> r[i] == m
  {
    if k == 0 then [] else [m] + Copies(m, k - 1)
  }

  /** The server's `new-message` event: each listener appends the message
      to the list once. */
  function ReceiveMessage(a: Adapter, m: Obj): (r: Adapter)
    ensures |r.messages| == |a.messages| + a.messageHandlers
    ensures r.messages[..|a.messages|] == a.messages
    ensures forall i :: |a.messages| <= i < |r.messages| ==> r.messages[i] == m
    ensures r == a.(messages := r.messages)
  {
    a.(messages := a.messages + Copies(m, a.messageHandlers))
  }

  /** `sendMessage(content)`: nothing without a socket or a user; otherwise the
      `send-message` payload with the sender, the untouched content and the
      client clock, and no `id`. The message list is not an input of the
      result: sending never changes it. */
  function SendMessage(a: Adapter, user: Option<User>, content: string, now: int): (r: Option<Obj>)
    ensures r.Some? <==> a.socket && user.Some?
    ensures r.Some? ==> "id" !in r.value
    ensures r.Some? ==> r.value.Keys == {"userId", "userName", "content", "timestamp"}
    ensures r.Some? ==> HasStr(r.value, "userId", user.value.id) && HasStr(r.value, "userName", user.value.name)
    ensures r.Some? ==> HasStr(r.value, "content", content) && r.value["timestamp"] == Num(now)
  {
    if !a.socket || user.None? then None
    else Some(map["userId" := Str(user.value.id), "userName" := Str(user.value.name),
                  "content" := Str(content), "timestamp" := Num(now)])
  }

  /** Everything that can happen to the hook. */
  datatype Event =
    | EffectRun
    | Cleanup
    | Resolved(g: nat)
    | History(history: seq<Obj>)
    | Message(m: Obj)
    | Send(user: Option<User>, content: string, now: int)

  /** React runs an effect only while unmounted and cleans up only while mounted. */
  predicate Enabled(a: Adapter, e: Event)
  {
    match e
    case EffectRun => !a.mounted
    case Cleanup => a.mounted
    case _ => true
  }

  /** One event, with the resolution step the hook is written with (`guarded`
      false) or the corrected one (`guarded` true); a send's payload goes to
      the server and leaves the adapter as it was. */
  function Step(a: Adapter, e: Event, guarded: bool): Adapter
    requires Enabled(a, e)
  {
    match e
    case EffectRun => Mount(a)
    case Cleanup => Unmount(a)
    case Resolved(g) => if guarded then ResolveGuarded(a, g) else Resolve(a, g)
    case History(h) => ReceiveHistory(a, h)
    case Message(m) => ReceiveMessage(a, m)
    case Send(_, _, _) => a
  }

  /** Only the two server events change the message list; mounting, cleanup,
      bootstrap and sending never do. */
  lemma StepFramesMessages(a: Adapter, e: Event, guarded: bool)
    requires Enabled(a, e)
    ensures Step(a, e, guarded).messages != a.messages ==> e.History? || e.Message?
  {
  }

  /** The socket is created at most once, in either variant. */
  lemma StepKeepsSingleSocket(a: Adapter, e: Event, guarded: bool)
    requires Enabled(a, e) && SingleSocket(a)
    ensures SingleSocket(Step(a, e, guarded))
  {
  }

  /** Listeners are registered as one set per effect run, with no leak: at
      most one of each, only while mounted, and only once the socket exists
      and the current run's request has resolved. */
  ghost predicate NoLeak(a: Adapter)
  {
    && a.historyHandlers == a.messageHandlers
    && a.messageHandlers <= 1
    && (a.messageHandlers == 1 ==> a.mounted && a.socket && a.generation !in a.pending)
    && (forall g :: g in a.pending ==> g <= a.generation)
  }

  /** With the guarded resolution every event keeps `NoLeak`. */
  lemma GuardedStepKeepsNoLeak(a: Adapter, e: Event)
    requires Enabled(a, e) && NoLeak(a)
    ensures NoLeak(Step(a, e, true))
  {
  }

  /** Under `NoLeak` a broadcast is shown once, or not at all when nothing is
      listening. */
  lemma NoLeakShowsMessageOnce(a: Adapter, m: Obj)
    requires NoLeak(a)
    ensures ReceiveMessage(a, m).messages == a.messages + [m]
         || ReceiveMessage(a, m).messages == a.messages
  {
  }

  /** The guarded hook still subscribes: after mounting and the bootstrap
      request resolving, one listener per event is registered. */
  lemma GuardedMountSubscribes(a: Adapter)
    requires NoLeak(a) && !a.mounted
    ensures Step(Step(a, EffectRun, true), Resolved(a.generation + 1), true).messageHandlers == 1
  {
  }

  /** The hook as written under React's development double-invoked effects:
      the effect runs, is cleaned up before its request resolved (no socket
      yet, so nothing is removed), runs again, and both requests resolve.
      Two listeners per event are left, and one broadcast shows twice. */
  lemma DoubleEffectDuplicatesMessages(m: Obj)
    ensures var a1 := Mount(Initial);
            var a2 := Unmount(a1);
            var a3 := Mount(a2);
            var a4 := Resolve(Resolve(a3, 1), 2);
            a4.messageHandlers == 2 && ReceiveMessage(a4, m).messages == [m, m]
  {
  }

  /** The same trace with the guarded resolution registers a single set. */
  lemma DoubleEffectGuardedShowsOnce(m: Obj)
    ensures var a4 := ResolveGuarded(ResolveGuarded(Mount(Unmount(Mount(Initial))), 1), 2);
            a4.messageHandlers == 1 && ReceiveMessage(a4, m).messages == [m]
  {
  }
}
