/** The chat widget of `src/components/chat.tsx`: the input box with its send
    gate, and the launcher badge counting other people's messages. Layout,
    scrolling and time formatting are not modelled. */
module ChatWidget {
  import opened Payload
  import opened Seqs
  import opened Text
  import ChatClient

  /** The result of a send attempt: the input box afterwards and the payload
      the hook emitted, if any. */
  datatype SendResult = SendResult(input: string, emitted: Option<Obj>)

  /** `handleSend`: with a non-blank input and a user, hand the input as typed
      to the hook's `sendMessage` and clear the box; otherwise do nothing. The
      hook still drops the message when its socket is not there yet. */
  function HandleSend(a: ChatClient.Adapter, user: Option<ChatClient.User>, input: string, now: int): (r: SendResult)
    ensures !AllWhitespace(input) && user.Some? ==> r.input == ""
    ensures AllWhitespace(input) || user.None? ==> r == SendResult(input, None)
    ensures r.emitted.Some? <==> !AllWhitespace(input) && user.Some? && a.socket
    ensures r.emitted.Some? ==> HasStr(r.emitted.value, "content", input)
    ensures r.emitted.Some? ==> r.emitted == ChatClient.SendMessage(a, user, input, now)
  {
    TrimEmptyIffBlank(input);
    if Trim(input) != "" && user.Some? then
      SendResult("", ChatClient.SendMessage(a, user, input, now))
    else SendResult(input, None)
  }

  /** `handleKeyPress`: Enter sends exactly like the button; other keys do nothing. */
  function HandleKeyPress(a: ChatClient.Adapter, user: Option<ChatClient.User>, input: string, now: int, key: string): (r: SendResult)
    ensures key == "Enter" ==> r == HandleSend(a, user, input, now)
    ensures key != "Enter" ==> r == SendResult(input, None)
  {
    if key == "Enter" then HandleSend(a, user, input, now) else SendResult(input, None)
  }

  /** A message shown as someone else's: its `userId` differs from the
      current user's id (a message with no `userId` counts as someone else's). */
  predicate FromOther(uid: string, m: Obj)
  {
    !HasStr(m, "userId", uid)
  }

  /** The number on the launcher badge: every message not sent by the
      current user, read or not. */
  function BadgeCount(messages: seq<Obj>, uid: string): (n: nat)
    ensures n <= |messages|
    ensures n == Count(m => FromOther(uid, m), messages)
  {
    |Filter(m => FromOther(uid, m), messages)|
  }

  /** What the component renders. */
  datatype View =
    | Nothing                                   // no user
    | Panel(ownSides: seq<bool>)                // open: per message, whether it sits on the right
    | Launcher(badge: Option<nat>)              // closed: the icon, with its badge when shown

  /** The component's output for the current user, open flag and messages. */
  function Render(user: Option<ChatClient.User>, isOpen: bool, messages: seq<Obj>): (v: View)
    ensures user.None? <==> v.Nothing?
    ensures user.Some? && isOpen ==> v.Panel? && |v.ownSides| == |messages|
    ensures v.Panel? ==> user.Some? && |v.ownSides| == |messages| && forall i :: 0 <= i < |messages| ==> (v.ownSides[i] <==> !FromOther(user.value.id, messages[i]))
    ensures user.Some? && !isOpen ==> v.Launcher? && (v.badge.Some? <==> |messages| > 0)
    ensures v.Launcher? && v.badge.Some? ==> v.badge.value == BadgeCount(messages, user.value.id)
  {
    if user.None? then Nothing
    else if isOpen then
      Panel(seq(|messages|, i requires 0 <= i < |messages| => !FromOther(user.value.id, messages[i])))
    else if |messages| > 0 then Launcher(Some(BadgeCount(messages, user.value.id)))
    else Launcher(None)
  }

  /** The badge and the user's own messages account for the whole list. */
  lemma {:induction false} BadgeCountsOthers(messages: seq<Obj>, uid: string)
    ensures BadgeCount(messages, uid) + Count(m => HasStr(m, "userId", uid), messages) == |messages|
  {
    if |messages| > 0 {
      BadgeCountsOthers(messages[1..], uid);
    }
  }
}
