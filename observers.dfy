/**
 * The observer side of both boards. Observers are foreign objects whose update bodies are not
 * part of this model; what the engine does to them is recorded as a trace of notifications,
 * one record per call of update, naming the observer by its registration index.
 */
module Observers {
  import opened Enums

  /** A registered observer, known to the engine only by identity. */
  datatype ObserverRef = ObserverRef(id: nat)

  /** One call observer.update(board, message); None stands for Python's None (re-render). */
  datatype Notification = Notification(observer: nat, message: Option<string>)

  /** The message a failed move is reported with. */
  const InvalidMoveMessage: string := "Invalid Move."

  /** The calls notify_observers makes for n registered observers: one per observer, as its loop visits them. */
  function Broadcast(n: nat, message: Option<string>): seq<Notification>
  {
    if n == 0 then [] else Broadcast(n - 1, message) + [Notification(n - 1, message)]
  }

  /** Every registered observer is told exactly once, in registration order, with the same message. */
  lemma {:induction false} BroadcastInOrder(n: nat, message: Option<string>)
    ensures |Broadcast(n, message)| == n
    ensures forall i :: 0 <= i < n ==> Broadcast(n, message)[i] == Notification(i, message)
  {
    if n > 0 {
      BroadcastInOrder(n - 1, message);
    }
  }
}
