/**
 * The state word of a wire-up stub endpoint (src/ucp/wireup/stub_ep.c):
 * two flags, set by a successful connect of next_ep and by the remote
 * side's notice, and never cleared; and the choice of the endpoint that
 * carries wire-up messages, which follows from them.
 */
module StubState {
  import opened Wrappers
  import opened Ucs

  /** UCP_STUB_EP_LOCAL_CONNECTED: next_ep is connected to the remote side. */
  const LocalConnected: bv32 := 1
  /** UCP_STUB_EP_REMOTE_CONNECTED: the remote side is connected to next_ep. */
  const RemoteConnectedBit: bv32 := 2
  /** UCP_STUB_EP_CONNECTED, both of the above. */
  const Connected: bv32 := 3

  // ---------------------------------------------------------------------
  // The state word
  // ---------------------------------------------------------------------

  /** ucs_test_all_flags(state, UCP_STUB_EP_CONNECTED). */
  predicate IsConnectedState(s: bv32) {
    s & Connected == Connected
  }

  /** What can happen to the state word: uct_ep_connect_to_ep on next_ep
      returning a status, or ucp_stub_ep_remote_connected. */
  datatype StateEvent = LocalConnect(status: Status) | RemoteConnect

  /** The state word after one event. */
  function StepState(s: bv32, e: StateEvent): bv32 {
    match e
    case LocalConnect(st) => if st == Ok then s | LocalConnected else s
    case RemoteConnect => s | RemoteConnectedBit
  }

  /** The state word after a sequence of events. */
  function RunEvents(s: bv32, evs: seq<StateEvent>): bv32
    decreases |evs|
  {
    if evs == [] then s else RunEvents(StepState(s, evs[0]), evs[1..])
  }

  /** No bit outside the two flags is ever set. */
  lemma {:induction false} EventsStayInFlags(s: bv32, evs: seq<StateEvent>)
    requires s & !Connected == 0
    ensures RunEvents(s, evs) & !Connected == 0
    decreases |evs|
  {
    if evs != [] {
      StepStaysInFlags(s, evs[0]);
      EventsStayInFlags(StepState(s, evs[0]), evs[1..]);
    }
  }

  lemma StepStaysInFlags(s: bv32, e: StateEvent)
    ensures s & !Connected == 0 ==> StepState(s, e) & !Connected == 0
  {
    match e
    case LocalConnect(st) => OrKeepsBits(s, LocalConnected);
    case RemoteConnect => OrKeepsBits(s, RemoteConnectedBit);
  }

  lemma OrKeepsBits(s: bv32, b: bv32)
    requires b & !Connected == 0
    ensures s & !Connected == 0 ==> (s | b) & !Connected == 0
  {
  }

  /** LOCAL_CONNECTED is set after a sequence of events exactly when it was
      set before or some connect_to_ep in it returned OK; REMOTE_CONNECTED
      exactly when it was set before or remote_connected was called. In
      particular neither flag is ever cleared. */
  lemma {:induction false} EventsSetFlagsIff(s: bv32, evs: seq<StateEvent>)
    ensures RunEvents(s, evs) & LocalConnected != 0 <==> s & LocalConnected != 0 || LocalConnect(Ok) in evs
    ensures RunEvents(s, evs) & RemoteConnectedBit != 0 <==> s & RemoteConnectedBit != 0 || RemoteConnect in evs
    decreases |evs|
  {
    if evs != [] {
      var t := StepState(s, evs[0]);
      EventsSetFlagsIff(t, evs[1..]);
      assert t & LocalConnected != 0 <==> s & LocalConnected != 0 || evs[0] == LocalConnect(Ok);
      assert t & RemoteConnectedBit != 0 <==> s & RemoteConnectedBit != 0 || evs[0] == RemoteConnect;
      assert evs == [evs[0]] + evs[1..];
    }
  }

  /** A fresh stub (state 0) becomes connected exactly when some
      connect_to_ep returned OK and remote_connected was called, in any
      order; once connected it stays connected. */
  lemma ConnectedIff(evs: seq<StateEvent>, more: seq<StateEvent>)
    ensures IsConnectedState(RunEvents(0, evs)) <==> LocalConnect(Ok) in evs && RemoteConnect in evs
    ensures IsConnectedState(RunEvents(0, evs)) ==> IsConnectedState(RunEvents(RunEvents(0, evs), more))
  {
    var s := RunEvents(0, evs);
    EventsSetFlagsIff(0, evs);
    assert IsConnectedState(s) <==> s & LocalConnected != 0 && s & RemoteConnectedBit != 0;
    EventsSetFlagsIff(s, more);
  }

  /** ucp_stub_ep_get_wireup_msg_ep: the endpoint wire-up messages go to. */
  function WireupMsgTarget(s: bv32, aux: Option<EpId>, next: Option<EpId>): (r: Option<EpId>)
    ensures r == (if s & LocalConnected != 0 && s & RemoteConnectedBit != 0 then next else aux)
  {
    if IsConnectedState(s) then next else aux
  }

  /** Wire-up messages go to aux_ep until the stub is connected and to
      next_ep from then on, whatever happens to the state afterwards. */
  lemma WireupTargetSticks(evs: seq<StateEvent>, more: seq<StateEvent>, aux: Option<EpId>, next: Option<EpId>)
    ensures WireupMsgTarget(RunEvents(0, evs), aux, next) == (if LocalConnect(Ok) in evs && RemoteConnect in evs then next else aux)
    ensures WireupMsgTarget(RunEvents(0, evs), aux, next) == next ==>
      WireupMsgTarget(RunEvents(RunEvents(0, evs), more), aux, next) == next
  {
    ConnectedIff(evs, more);
  }
}
