/** The Socket.IO chat server of `src/app/api/socket/route.ts`: a process-wide,
    lazily created server instance and a module-level message log holding at
    most 100 entries, oldest first. The transport itself is not modelled; a
    connection is reduced to the history it receives and a send to the
    message it makes the server append and broadcast. */
module ChatServer {
  import opened Payload

  /** Messages kept in the log; the oldest is shifted out beyond this. */
  const MaxMessages: nat := 100

  /** The state behind the route module: the module-local `io` handle, the
      `global.io` handle that survives module reloads, how many Socket.IO
      servers were constructed and how often `listen(3001)` was called, and
      the `messages` array. */
  datatype Process = Process(
    moduleIo: bool,
    globalIo: bool,
    instances: nat,
    listens: nat,
    log: seq<Obj>)

  /** What `NextResponse.json(...)` answers. */
  datatype Response = Response(success: bool)

  /** A fresh process: nothing created, nothing logged. */
  const Initial := Process(false, false, 0, 0, [])

  /** The handles agree with the number of constructed servers: one exactly
      when `global.io` is set, and the module handle is only ever a copy of it. */
  predicate SingleInstance(p: Process)
  {
    && p.instances == (if p.globalIo then 1 else 0)
    && (p.moduleIo ==> p.globalIo)
  }

  /** `GET /api/socket`: a health check with no effect. */
  function Get(p: Process): (r: (Process, Response))
    ensures r.0 == p && r.1.success
  {
    (p, Response(true))
  }

  /** `POST /api/socket`: construct the server only when neither handle is
      set, adopt `global.io` into the module handle and listen, and answer
      success in every case. */
  function Post(p: Process): (r: (Process, Response))
    ensures r.1.success
    ensures r.0.moduleIo && r.0.log == p.log
    ensures !p.moduleIo ==> r.0.globalIo
    ensures p.moduleIo ==> r.0 == p
    ensures r.0.instances == p.instances + (if p.moduleIo || p.globalIo then 0 else 1)
    ensures r.0.listens == p.listens + (if p.moduleIo then 0 else 1)
    ensures SingleInstance(p) ==> SingleInstance(r.0)
  {
    if p.moduleIo then (p, Response(true))
    else
      var created := if p.globalIo then p else p.(globalIo := true, instances := p.instances + 1);
      (created.(moduleIo := true, listens := created.listens + 1), Response(true))
  }

  /** `n` consecutive `POST` requests. */
  function PostTimes(p: Process, n: nat): Process
    decreases n
  {
    if n == 0 then p else PostTimes(Post(p).0, n - 1)
  }

  /** A second `POST` changes nothing. */
  lemma PostIdempotent(p: Process)
    ensures Post(Post(p).0) == Post(p)
  {
  }

  /** However many `POST` requests arrive, at most one server is ever
      constructed and `listen` is called at most once more than before. */
  lemma {:induction false} PostTimesSingleInstance(p: Process, n: nat)
    requires SingleInstance(p)
    ensures SingleInstance(PostTimes(p, n))
    ensures PostTimes(p, n).instances <= 1
    ensures PostTimes(p, n).listens <= p.listens + 1
    ensures PostTimes(p, n).log == p.log
    decreases n
  {
    if n > 0 {
      var q := Post(p).0;
      PostTimesSingleInstance(q, n - 1);
      if q.listens != p.listens {
        assert PostTimes(q, n - 1) == q by { PostTimesFixed(q, n - 1); }
      }
    }
  }

  /** Once the module handle is set, `POST` requests leave the process alone. */
  lemma {:induction false} PostTimesFixed(p: Process, n: nat)
    requires p.moduleIo
    ensures PostTimes(p, n) == p
    decreases n
  {
    if n > 0 {
      PostTimesFixed(p, n - 1);
    }
  }

  /** The message the server stores for an incoming payload: every field of
      the payload is kept, and `id` is set to the server-generated value,
      overwriting any `id` the client sent. */
  function Stamp(payload: Obj, id: string): (m: Obj)
    ensures HasStr(m, "id", id)
    ensures m.Keys == payload.Keys + {"id"}
    ensures forall k :: k in payload && k != "id" ==> m[k] == payload[k]
  {
    payload["id" := Str(id)]
  }

  /** `messages.push(m); if (messages.length > 100) messages.shift();` */
  function Push<T>(log: seq<T>, m: T): (r: seq<T>)
    ensures |r| > 0 && r[|r| - 1] == m
    ensures |log| <= MaxMessages ==> |r| <= MaxMessages
    ensures |log| < MaxMessages ==> r == log + [m]
    ensures |log| >= MaxMessages ==> |r| == |log| && r == log[1..] + [m]
  {
    var pushed := log + [m];
    if |pushed| > MaxMessages then pushed[1..] else pushed
  }

  /** The `connection` handler's first act: the new client receives the
      whole log as its history, unchanged. */
  function Connect(p: Process): (history: seq<Obj>)
    ensures history == p.log
  {
    p.log
  }

  /** The `send-message` handler: stamp the payload, push it, and broadcast
      the very object that was pushed. */
  function Send(p: Process, payload: Obj, id: string): (r: (Process, Obj))
    ensures r.1 == Stamp(payload, id)
    ensures r.0.log == Push(p.log, r.1)
    ensures |r.0.log| > 0 && r.0.log[|r.0.log| - 1] == r.1
    ensures r.0 == p.(log := r.0.log)
    ensures |p.log| <= MaxMessages ==> |r.0.log| <= MaxMessages
  {
    var m := Stamp(payload, id);
    (p.(log := Push(p.log, m)), m)
  }

  /** One incoming `send-message` event with the id the server drew for it. */
  datatype Submission = Submission(payload: Obj, id: string)

  /** The messages the server makes of a series of submissions. */
  function StampAll(subs: seq<Submission>): (ms: seq<Obj>)
    ensures |ms| == |subs|
    ensures forall i :: 0 <= i < |subs| ==> ms[i] == Stamp(subs[i].payload, subs[i].id)
  {
    if |subs| == 0 then [] else [Stamp(subs[0].payload, subs[0].id)] + StampAll(subs[1..])
  }

  /** The process after handling the submissions one at a time, in order,
      each by `Send`. */
  function SendAll(p: Process, subs: seq<Submission>): Process
    decreases |subs|
  {
    if |subs| == 0 then p
    else SendAll(Send(p, subs[0].payload, subs[0].id).0, subs[1..])
  }

  /** Pushing a series of messages one at a time. */
  function PushAll<T>(log: seq<T>, ms: seq<T>): seq<T>
    decreases |ms|
  {
    if |ms| == 0 then log else PushAll(Push(log, ms[0]), ms[1..])
  }

  function Max(a: int, b: int): int { if a < b then b else a }

  /** Handling submissions is pushing the messages stamped from them. */
  lemma {:induction false} SendAllIsPushAll(p: Process, subs: seq<Submission>)
    ensures SendAll(p, subs) == p.(log := PushAll(p.log, StampAll(subs)))
    decreases |subs|
  {
    if |subs| > 0 {
      var p1 := Send(p, subs[0].payload, subs[0].id).0;
      SendAllIsPushAll(p1, subs[1..]);
      assert StampAll(subs)[1..] == StampAll(subs[1..]);
    }
  }

  /** A log within the bound, after any series of pushes, holds exactly the
      last 100 of the old entries followed by the new messages, in order. */
  lemma {:induction false} PushAllKeepsNewest<T>(log: seq<T>, ms: seq<T>)
    requires |log| <= MaxMessages
    ensures PushAll(log, ms) == (log + ms)[Max(0, |log| + |ms| - MaxMessages)..]
    decreases |ms|
  {
    if |ms| > 0 {
      var m := ms[0];
      var tail := ms[1..];
      var pushed := Push(log, m);
      PushAllKeepsNewest(pushed, tail);
      var whole := (log + [m]) + tail;
      assert log + ms == whole;
      if |log| < MaxMessages {
        assert pushed + tail == whole;
      } else {
        assert pushed + tail == whole[1..];
        DropTwice(whole, 1, |tail|);
      }
    }
  }

  /** Dropping `a` elements and then `b` more drops `a + b`. */
  lemma DropTwice<T>(xs: seq<T>, a: nat, b: nat)
    requires a + b <= |xs|
    ensures xs[a..][b..] == xs[a + b..]
  {
  }

  /** A log within the bound, after any series of sends, holds exactly the
      last 100 of the old entries followed by the new messages, in order. */
  lemma {:induction false} SendAllKeepsNewest(p: Process, subs: seq<Submission>)
    requires |p.log| <= MaxMessages
    ensures SendAll(p, subs).log == (p.log + StampAll(subs))[Max(0, |p.log| + |subs| - MaxMessages)..]
    ensures SendAll(p, subs) == p.(log := SendAll(p, subs).log)
  {
    var ms := StampAll(subs);
    assert |ms| == |subs|;
    SendAllIsPushAll(p, subs);
    calc {
      SendAll(p, subs).log;
      PushAll(p.log, ms);
      { PushAllKeepsNewest(p.log, ms); }
      (p.log + ms)[Max(0, |p.log| + |ms| - MaxMessages)..];
    }
  }

  /** From an empty log, once at least 100 messages were sent the log holds
      exactly the last 100 of them in send order. */
  lemma LastHundredFromEmpty(p: Process, subs: seq<Submission>)
    requires p.log == [] && |subs| >= MaxMessages
    ensures SendAll(p, subs).log == StampAll(subs)[|subs| - MaxMessages..]
    ensures |SendAll(p, subs).log| == MaxMessages
  {
    SendAllKeepsNewest(p, subs);
    assert p.log + StampAll(subs) == StampAll(subs);
  }
}
