/** The synchronized input/response transaction (server/transaction.go). */
module Transactions {
  import opened Basics
  import opened MessageIds

  datatype TxState =
    | Idle | ReceivingInput | InputComplete | ResponsePending | SendingResponse | TxInterrupted | TxClearing | TxClosed

  datatype Tx = Tx(state: TxState, id: MessageId)

  /** The declared edges; clearing and closed are reachable from everywhere besides. */
  function Edges(s: TxState): set<TxState> {
    match s
    case Idle => {ReceivingInput, InputComplete}
    case ReceivingInput => {ReceivingInput, InputComplete, TxInterrupted}
    case InputComplete => {ResponsePending, Idle, ReceivingInput, TxInterrupted}
    case ResponsePending => {SendingResponse, Idle, TxInterrupted}
    case SendingResponse => {SendingResponse, Idle, TxInterrupted}
    case TxInterrupted => {Idle}
    case TxClearing => {Idle}
    case TxClosed => {}
  }

  predicate SelfEdge(s: TxState) { s == ReceivingInput || s == SendingResponse }

  predicate Allowed(s: TxState, next: TxState) {
    if next == s && !SelfEdge(s) then false
    else if next == TxClearing || next == TxClosed then true
    else next in Edges(s)
  }

  /** The transitions there are, one by one: clearing and closed from every other state, and besides them these. */
  lemma AllowedExactly(s: TxState, next: TxState)
    ensures Allowed(s, next) <==>
      || (next == TxClearing && s != TxClearing)
      || (next == TxClosed && s != TxClosed)
      || (next == ReceivingInput && (s == Idle || s == ReceivingInput || s == InputComplete))
      || (next == InputComplete && (s == Idle || s == ReceivingInput))
      || (next == ResponsePending && s == InputComplete)
      || (next == SendingResponse && (s == ResponsePending || s == SendingResponse))
      || (next == TxInterrupted && (s == ReceivingInput || s == InputComplete || s == ResponsePending
                                    || s == SendingResponse))
      || (next == Idle && (s == InputComplete || s == ResponsePending || s == SendingResponse || s == TxInterrupted
                           || s == TxClearing))
  {
  }

  /** The transition to next that carries id with it, or an error and no change. */
  function Move(t: Tx, next: TxState, id: MessageId): (Tx, Err) {
    if Allowed(t.state, next) then (Tx(next, id), None) else (t, Some(InvalidTransition))
  }

  function BeginInput(t: Tx): (Tx, Err) { Move(t, ReceivingInput, t.id) }
  function CompleteInput(t: Tx, id: MessageId): (Tx, Err) { Move(t, InputComplete, id) }
  function ExpectResponse(t: Tx): (Tx, Err) { Move(t, ResponsePending, t.id) }
  function BeginResponse(t: Tx): (Tx, Err) { Move(t, SendingResponse, t.id) }
  function Complete(t: Tx): (Tx, Err) { Move(t, Idle, NO_MESSAGE_ID) }
  function Interrupt(t: Tx): (Tx, Err) { Move(t, TxInterrupted, t.id) }
  function Clear(t: Tx): (Tx, Err) { Move(t, TxClearing, t.id) }

  const RESET := Tx(Idle, NO_MESSAGE_ID)

  class Transaction {
    var state: TxState
    var id: MessageId

    ghost function View(): Tx
      reads this
    {
      Tx(state, id)
    }

    constructor ()
      ensures View() == Tx(Idle, 0)
    {
      state, id := Idle, 0;
    }

    method To(next: TxState) returns (err: Err)
      modifies this`state
      ensures (View(), err) == Move(old(View()), next, id)
    {
      if next == state && !SelfEdge(state) {
        return Some(InvalidTransition);
      }
      if next == TxClearing || next == TxClosed {
        state := next;
        return None;
      }
      if state == TxClosed {
        return Some(InvalidTransition);
      }
      if next in Edges(state) {
        state := next;
        return None;
      }
      err := Some(InvalidTransition);
    }

    method DoCompleteInput(m: MessageId) returns (err: Err)
      modifies this
      ensures (View(), err) == CompleteInput(old(View()), m)
    {
      err := To(InputComplete);
      if err == None {
        id := m;
      }
    }

    method DoComplete() returns (err: Err)
      modifies this
      ensures (View(), err) == Complete(old(View()))
    {
      err := To(Idle);
      if err == None {
        id := NO_MESSAGE_ID;
      }
    }

    method Reset()
      modifies this
      ensures View() == RESET
    {
      state, id := Idle, NO_MESSAGE_ID;
    }
  }
}
