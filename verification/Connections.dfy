/** What both connection handlers share: the state of a connection, what the socket calls come to, and the count of
    callbacks. */
module Connections {

  datatype ConnState = Unconnected | Connecting | Connected
  datatype OpenOutcome = NoSocket | NoPollerSlot | ConnectFails | ConnectPending | ConnectsAtOnce
  datatype IoOutcome = Took(n: nat) | WouldBlock | Fails

  /** One more callback for action `id`. */
  function Called(calls: seq<nat>, id: nat): seq<nat>
    requires id < |calls|
  {
    calls[id := calls[id] + 1]
  }

  /** No callback is taken back. */
  ghost predicate More(calls: seq<nat>, calls': seq<nat>)
  {
    |calls| <= |calls'| && forall id :: 0 <= id < |calls| ==> calls[id] <= calls'[id]
  }

  lemma MoreAtOnce(calls: seq<nat>)
    ensures More(calls, calls)
  {
  }

  lemma MoreTwice(a: seq<nat>, b: seq<nat>, c: seq<nat>)
    requires More(a, b) && More(b, c)
    ensures More(a, c)
  {
  }

  lemma MoreCalled(calls: seq<nat>, id: nat)
    requires id < |calls|
    ensures More(calls, Called(calls, id)) && |Called(calls, id)| == |calls| && Called(calls, id)[id] == calls[id] + 1
  {
  }

  /** What a socket that answers with n takes of so many bytes: at least one, if there is one. */
  function Clip(n: nat, left: nat): (r: nat)
    ensures r <= left && (left > 0 ==> r > 0)
  {
    if n > left then left else if n == 0 && left > 0 then 1 else n
  }

  /** The attempt gives a connection, or one under way. */
  predicate Opens(o: OpenOutcome, isTcp: bool)
  {
    match o
    case NoSocket => false
    case NoPollerSlot => false
    case ConnectFails => !isTcp
    case ConnectPending => true
    case ConnectsAtOnce => true
  }

  /** Attempts to connect come out in this order, and any more at once. */
  function First(opens: seq<OpenOutcome>): OpenOutcome
  {
    if opens == [] then ConnectsAtOnce else opens[0]
  }

  function Later<T>(outcomes: seq<T>): seq<T>
  {
    if outcomes == [] then [] else outcomes[1..]
  }
}
