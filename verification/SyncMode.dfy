/** The two trackers Synchronized Mode consists of (server/rmt.go, server/status.go). */
module SyncMode {
  import opened MessageIds
  import opened Messages
  import E = Engine

  /** Whether a response terminator was sent that no client message has answered for yet. */
  class RMT {
    var expected: bool

    constructor ()
      ensures !expected
    {
      expected := false;
    }

    method SentDataEnd()
      modifies this
      ensures expected
    {
      expected := true;
    }

    /** The check on every Data, DataEnd and Trigger; the flag is down afterwards either way. */
    method ReceivedSyncMessage(rmtDelivered: bool) returns (mismatch: bool)
      modifies this
      ensures !expected && mismatch == (old(expected) != rmtDelivered)
    {
      mismatch := expected != rmtDelivered;
      expected := false;
    }

    method ReceivedStatusQuery(rmtDelivered: bool)
      modifies this
      ensures expected == (old(expected) && !rmtDelivered)
    {
      if rmtDelivered {
        expected := false;
      }
    }

    method Reset()
      modifies this
      ensures !expected
    {
      expected := false;
    }
  }

  datatype StatusView = StatusView(
    lastReceived: MessageId, responsePending: bool, srqLatched: bool, srqStatus: StatusRegister)

  const NEW_STATUS := StatusView(STATUS_QUERY_INITIAL_MESSAGE_ID, false, false, E.NO_STATUS)

  class Status {
    var lastReceived: MessageId
    var responsePending: bool
    var srqLatched: bool
    var srqStatus: StatusRegister
    var started: bool

    ghost function View(): StatusView
      reads this
    {
      StatusView(lastReceived, responsePending, srqLatched, srqStatus)
    }

    /** The zero value resets itself when its MessageID is first used. */
    ghost function Used(): StatusView
      reads this
    {
      if started then View() else NEW_STATUS
    }

    constructor ()
      ensures started && View() == NEW_STATUS
    {
      lastReceived, responsePending := STATUS_QUERY_INITIAL_MESSAGE_ID, false;
      srqLatched, srqStatus, started := false, E.NO_STATUS, true;
    }

    method Reset()
      modifies this
      ensures started && View() == NEW_STATUS
    {
      lastReceived, responsePending := STATUS_QUERY_INITIAL_MESSAGE_ID, false;
      srqLatched, srqStatus, started := false, E.NO_STATUS, true;
    }

    method ReceivedSyncMessage(id: MessageId)
      modifies this
      ensures started && View() == old(Used()).(lastReceived := id)
    {
      if !started {
        Reset();
      }
      lastReceived := id;
    }

    method LastReceived() returns (id: MessageId)
      modifies this
      ensures started && View() == old(Used()) && id == lastReceived
    {
      if !started {
        Reset();
      }
      id := lastReceived;
    }

    method SetResponsePending(pending: bool)
      modifies this`responsePending
      ensures responsePending == pending
    {
      responsePending := pending;
    }

    method LatchServiceRequest(status: StatusRegister) returns (latched: bool)
      modifies this`srqLatched, this`srqStatus
      ensures latched == !old(srqLatched)
      ensures View() == if latched then old(View()).(srqLatched := true, srqStatus := status) else old(View())
    {
      if srqLatched {
        return false;
      }
      srqLatched, srqStatus := true, status;
      latched := true;
    }

    method TakeServiceRequest() returns (latched: bool)
      modifies this`srqLatched, this`srqStatus
      ensures latched == old(srqLatched) && View() == old(View()).(srqLatched := false, srqStatus := E.NO_STATUS)
    {
      latched := srqLatched;
      srqLatched, srqStatus := false, E.NO_STATUS;
    }

    method MAV(query: MessageId, rmtDelivered: bool) returns (mav: bool)
      modifies this
      ensures started && View() == old(Used())
      ensures mav == (query == lastReceived && !rmtDelivered && responsePending)
    {
      var last := LastReceived();
      if query != last || rmtDelivered {
        return false;
      }
      mav := responsePending;
    }

    /** Only the MAV bit is decided here; the device's other bits stay. */
    method Byte(device: StatusRegister, query: MessageId, rmtDelivered: bool) returns (stb: StatusRegister)
      modifies this
      ensures started && View() == old(Used())
      ensures stb == device.(mav := query == lastReceived && !rmtDelivered && responsePending)
    {
      var mav := MAV(query, rmtDelivered);
      stb := if mav then device.(mav := true) else device.(mav := false);
    }
  }
}
