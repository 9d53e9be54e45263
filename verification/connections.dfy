/**
 * The "current socket" field each channel keeps, with sockets abstracted to identities
 * and a set of those already closed. The robot and video channels close the previous
 * socket on accept and null the field unconditionally when a worker exits; the console
 * channel keeps the previous socket open and clears the field only for its own socket.
 */
module Connections {
  import opened Wrappers

  type ConnId = nat

  /** The channel's current socket and every socket closed so far. */
  datatype Slot = Slot(current: Option<ConnId>, closed: set<ConnId>)

  const NoConnection: Slot := Slot(None, {})

  /** `isConnected`: there is a current socket and it is not closed. */
  predicate IsConnected(s: Slot) {
    s.current.Some? && s.current.value !in s.closed
  }

  /** `sendToX`: one delivery to an open current socket, nothing (and no exception) otherwise. */
  function Deliver<M>(s: Slot, msg: M): (r: seq<M>)
    ensures |r| <= 1
    ensures r == [msg] <==> IsConnected(s)
    ensures r == [] <==> !IsConnected(s)
  {
    if IsConnected(s) then [msg] else []
  }

  /** Robot and video accept: an open previous socket is closed, and the new one becomes current. */
  function AcceptClosingPrevious(s: Slot, id: ConnId): (r: Slot)
    requires id !in s.closed && s.current != Some(id)
    ensures r.current == Some(id) && IsConnected(r)
    ensures s.current.Some? ==> s.current.value in r.closed
    ensures r.closed - s.closed <= (if s.current.Some? then {s.current.value} else {})
  {
    if IsConnected(s) then Slot(Some(id), s.closed + {s.current.value}) else Slot(Some(id), s.closed)
  }

  /** Console accept: the new socket becomes current and the previous one is left open. */
  function AcceptKeepingPrevious(s: Slot, id: ConnId): (r: Slot)
    requires id !in s.closed
    ensures r.current == Some(id) && IsConnected(r)
    ensures r.closed == s.closed
  {
    Slot(Some(id), s.closed)
  }

  /** Robot and video worker exit: its socket is closed and the field is nulled, whoever holds it. */
  function ExitUnguarded(s: Slot, id: ConnId): (r: Slot)
    ensures r.current.None? && !IsConnected(r)
    ensures r.closed == s.closed + {id}
  {
    Slot(None, s.closed + {id})
  }

  /** Console worker exit: its socket is closed; the field is cleared only if it still holds that socket. */
  function ExitGuarded(s: Slot, id: ConnId): (r: Slot)
    ensures r.closed == s.closed + {id}
    ensures s.current == Some(id) ==> r.current.None?
    ensures s.current != Some(id) ==> r.current == s.current
  {
    Slot(if s.current == Some(id) then None else s.current, s.closed + {id})
  }

  // ----- properties -----

  /**
   * With unguarded cleanup, the worker of a superseded robot or video connection, on its
   * way out, leaves the channel disconnected although the newer socket is still open.
   */
  lemma SupersededExitDropsNewer(s: Slot, prior: ConnId, newer: ConnId)
    requires s.current == Some(prior) && IsConnected(s) && newer !in s.closed && newer != prior
    ensures var r := ExitUnguarded(AcceptClosingPrevious(s, newer), prior);
      !IsConnected(r) && newer !in r.closed
  {
  }

  /** With the identity guard, an prior console worker's exit keeps the newer connection. */
  lemma GuardedExitKeepsNewer(s: Slot, prior: ConnId, newer: ConnId)
    requires newer !in s.closed && newer != prior
    ensures var r := ExitGuarded(AcceptKeepingPrevious(s, newer), prior);
      IsConnected(r) && r.current == Some(newer)
  {
  }

  /** A console accept leaves the previous socket open; a robot or video accept closes it. */
  lemma AcceptPolicies(s: Slot, newer: ConnId)
    requires IsConnected(s) && newer !in s.closed && s.current != Some(newer)
    ensures s.current.value !in AcceptKeepingPrevious(s, newer).closed
    ensures s.current.value in AcceptClosingPrevious(s, newer).closed
  {
  }

  /** Sequences of accepts and exits the console channel's threads may interleave. */
  datatype Event = Accept(id: ConnId) | Exit(id: ConnId)


  function RunGuarded(s: Slot, events: seq<Event>): Slot
    decreases |events|
  {
    if events == [] then s
    else
      var e := events[0];
      var s1 := if e.Accept? then Slot(Some(e.id), s.closed) else ExitGuarded(s, e.id);
      RunGuarded(s1, events[1..])
  }

  /** Whether connection `id` has exited within `events`. */
  predicate Exited(events: seq<Event>, id: ConnId) {
    exists j :: 0 <= j < |events| && events[j] == Exit(id)
  }

  /**
   * Under the console policy the current socket, if any, is always one that has not
   * exited: the guard never leaves a dead socket current and never clears a live one.
   */
  lemma {:induction false} GuardedCurrentIsLive(s: Slot, events: seq<Event>)
    requires s.current.Some? ==> s.current.value !in s.closed
    requires forall j :: 0 <= j < |events| && events[j].Accept? ==> events[j].id !in s.closed
    requires forall i, j :: 0 <= i < j < |events| && events[i].Exit? && events[j].Accept? ==> events[i].id != events[j].id
    ensures var r := RunGuarded(s, events);
      r.current.Some? ==> r.current.value !in r.closed
    decreases |events|
  {
    if events != [] {
      var e := events[0];
      var s1 := if e.Accept? then Slot(Some(e.id), s.closed) else ExitGuarded(s, e.id);
      assert s1.current.Some? ==> s1.current.value !in s1.closed;
      forall j | 0 <= j < |events[1..]| && events[1..][j].Accept?
        ensures events[1..][j].id !in s1.closed
      {
        assert events[1..][j] == events[j + 1];
        if e.Exit? {
          assert events[0].Exit? && events[j + 1].Accept?;
        }
      }
      forall i, j | 0 <= i < j < |events[1..]| && events[1..][i].Exit? && events[1..][j].Accept?
        ensures events[1..][i].id != events[1..][j].id
      {
        assert events[1..][i] == events[i + 1] && events[1..][j] == events[j + 1];
      }
      GuardedCurrentIsLive(s1, events[1..]);
    }
  }
}
