/**
 * The wire-up stub endpoint of src/ucp/wireup/stub_ep.c. A stub stands in
 * for the transport endpoint of one operation category of an owning
 * endpoint while the connection is negotiated: it holds back send
 * requests in a FIFO queue, forwards wire-up traffic to an auxiliary
 * endpoint (or, once connected, to the endpoint being wired up), and when
 * both sides are connected its progress callback installs the new
 * endpoint in the owner's dispatch table, destroys the temporaries and
 * replays the held-back requests on the new endpoint.
 *
 * Calls into the transport layer are oracles: the status a single call
 * returns is a parameter, and a retry loop consumes a sequence of
 * statuses, one per call.
 */
module StubEp {
  import opened Wrappers
  import opened Ucs
  import opened UcpEp
  import opened StubState

  /** UCP_EP_OP_AM, the active-message category (declared in ucp_ep.h,
      which is not part of this model). */
  const OpAm: nat := 0
  /** UCP_AM_ID_WIREUP (declared in wireup.h, not part of this model). */
  const AmIdWireup: nat := 1

  /** pending_count is a 32-bit unsigned counter. */
  const Word: int := 0x1_0000_0000

  // ---------------------------------------------------------------------
  // The switchover, as functions of the state it reads
  // ---------------------------------------------------------------------

  /** The dispatch table after the switchover: next goes into the stub's
      own slot and into every slot whose transport duplicates the stub's
      category; every other slot keeps what it held. */
  function Switched(table: seq<Option<EpId>>, dups: seq<int>, optype: nat, next: Option<EpId>): (r: seq<Option<EpId>>)
    requires |dups| == |table|
    ensures |r| == |table|
  {
    seq(|table|, o requires 0 <= o < |table| => if o == optype || dups[o] == optype then next else table[o])
  }

  /** After the switchover no slot of the table refers to the stub any
      more, provided every slot that held the stub was the stub's own
      slot or one duplicating it, and next is not the stub; and the slots
      that did not hold the stub and are not aliased keep their contents. */
  lemma SwitchedDropsStub(table: seq<Option<EpId>>, dups: seq<int>, optype: nat, next: Option<EpId>, stub: EpId)
    requires |dups| == |table|
    requires forall o :: 0 <= o < |table| && table[o] == Some(stub) ==> o == optype || dups[o] == optype
    requires next != Some(stub)
    ensures Some(stub) !in Switched(table, dups, optype, next)
    ensures forall o :: 0 <= o < |table| && o != optype && dups[o] != optype ==> Switched(table, dups, optype, next)[o] == table[o]
    ensures optype < |table| ==> Switched(table, dups, optype, next)[optype] == next
  {
    var r := Switched(table, dups, optype, next);
    forall o | 0 <= o < |r|
      ensures r[o] != Some(stub)
    {
      if o == optype || dups[o] == optype {
        assert r[o] == next;
      } else {
        assert r[o] == table[o];
      }
    }
  }

  /** The number of OK statuses in a script of call results. */
  function OkCount(script: seq<Status>): nat
    decreases |script|
  {
    if script == [] then 0
    else OkCount(script[..|script| - 1]) + (if script[|script| - 1] == Ok then 1 else 0)
  }

  lemma OkCountStep(script: seq<Status>, p: nat)
    requires p < |script|
    ensures OkCount(script[..p + 1]) == OkCount(script[..p]) + (if script[p] == Ok then 1 else 0)
  {
    assert script[..p + 1][..p] == script[..p];
  }

  /** A prefix of a script holds no more OKs than the script. */
  lemma {:induction false} OkCountPrefix(script: seq<Status>, p: nat)
    requires p <= |script|
    ensures OkCount(script[..p]) <= OkCount(script)
    decreases |script| - p
  {
    if p == |script| {
      assert script[..p] == script;
    } else {
      OkCountStep(script, p);
      OkCountPrefix(script, p + 1);
    }
  }

  /** The number of held-back requests the replay loop resubmits: each
      request is retried until a call returns OK, so the k-th OK of the
      script completes the k-th request; the loop stops when every
      request is done or the script runs out. */
  function ReplayCount(queued: seq<PendingReq>, script: seq<Status>): (n: nat)
    ensures n <= |queued| && n <= OkCount(script)
    ensures n == |queued| || n == OkCount(script)
  {
    if |queued| <= OkCount(script) then |queued| else OkCount(script)
  }

  /** A script with at least one OK per held-back request replays all of
      them; a script with no OK replays none. */
  lemma ReplayCompletes(queued: seq<PendingReq>, script: seq<Status>)
    ensures OkCount(script) >= |queued| ==> ReplayCount(queued, script) == |queued|
    ensures Ok !in script ==> ReplayCount(queued, script) == 0
  {
    if Ok !in script {
      NoOkCountsZero(script);
    }
  }

  lemma {:induction false} NoOkCountsZero(script: seq<Status>)
    requires Ok !in script
    ensures OkCount(script) == 0
    decreases |script|
  {
    if script != [] {
      assert script[..|script| - 1] <= script;
      NoOkCountsZero(script[..|script| - 1]);
    }
  }

  /** The uct_ep_destroy calls of the switchover as written: aux_ep
      (NULL for a category other than active messages), then the stub,
      whose cleanup destroys aux_ep once more when it is set, and then
      next_ep. */
  function SwitchoverDestroysAsWritten(aux: Option<EpId>, stub: EpId, next: Option<EpId>): seq<Option<EpId>> {
    [aux, Some(stub)] + (if aux.Some? then [aux] else []) + [next]
  }

  /** The switchover as written destroys the endpoint it has just
      installed in the dispatch table, destroys aux_ep twice when there is
      one, and destroys NULL when there is none. */
  lemma SwitchoverAsWrittenDestroysPromoted(aux: Option<EpId>, stub: EpId, next: Option<EpId>)
    ensures next in SwitchoverDestroysAsWritten(aux, stub, next)
    ensures aux.Some? ==> multiset(SwitchoverDestroysAsWritten(aux, stub, next))[aux] >= 2
    ensures aux.None? ==> None in SwitchoverDestroysAsWritten(aux, stub, next)
  {
    var d := SwitchoverDestroysAsWritten(aux, stub, next);
    if aux.Some? {
      assert d == [aux] + [Some(stub)] + [aux] + [next];
    }
  }

  /** The uct_ep_destroy calls of the corrected switchover: aux_ep once,
      when there is one. The stub's memory is then released without its
      cleanup, so next_ep, which now belongs to the dispatch table, is not
      destroyed. */
  function SwitchoverDestroys(aux: Option<EpId>): seq<Option<EpId>> {
    if aux.Some? then [aux] else []
  }

  /** The corrected switchover never destroys NULL, destroys each endpoint
      at most once, and does not destroy the promoted endpoint unless it
      is the auxiliary one. */
  lemma SwitchoverKeepsPromoted(aux: Option<EpId>, next: Option<EpId>)
    ensures None !in SwitchoverDestroys(aux)
    ensures forall e :: multiset(SwitchoverDestroys(aux))[e] <= 1
    ensures next != aux ==> next !in SwitchoverDestroys(aux)
  {
  }

  // ---------------------------------------------------------------------
  // The stub endpoint
  // ---------------------------------------------------------------------

  /** The transport operations the stub implements by running its
      progress callback and returning UCS_ERR_NO_RESOURCE. */
  datatype SendOp =
    | PutShort | PutBcopy | PutZcopy | GetBcopy | GetZcopy | AmShort | AmZcopy
    | AtomicAdd64 | AtomicFadd64 | AtomicSwap64 | AtomicCswap64
    | AtomicAdd32 | AtomicFadd32 | AtomicSwap32 | AtomicCswap32

  /** What ucp_select_transport reports for the auxiliary transport: a
      status, the chosen resource index and the chosen address index. */
  datatype Selection = Selection(status: Status, rscIndex: nat, addrIndex: nat)

  /** A stub endpoint (ucp_stub_ep_t). */
  class StubEndpoint {
    /** The stub's own transport-endpoint handle. */
    const id: EpId
    /** The owning endpoint. */
    const ep: Ep
    /** The operation category the stub stands in for. */
    const optype: nat
    var pendingQ: seq<PendingReq>
    var auxEp: Option<EpId>
    var nextEp: Option<EpId>
    var auxRscIndex: int
    /** pending_count, a 32-bit counter. */
    var pendingCount: int
    var state: bv32
    /** Progress registrations this stub holds. */
    ghost var registered: int
    /** False once the stub has been released. */
    ghost var alive: bool

    /** The allocation and field defaults of the class initialiser. */
    constructor Alloc(ep: Ep, optype: nat, id: EpId)
      ensures this.ep == ep && this.optype == optype && this.id == id
      ensures pendingQ == [] && pendingCount == 0 && state == 0 && registered == 0 && alive
      ensures auxEp == None && nextEp == None && auxRscIndex == Unset
    {
      this.ep := ep;
      this.optype := optype;
      this.id := id;
      pendingQ := [];
      auxEp := None;
      nextEp := None;
      auxRscIndex := Unset;
      pendingCount := 0;
      state := 0;
      registered := 0;
      alive := true;
    }

    /** pending_count counts the queue (modulo 2^32, since it is never
        decreased), every queued request holds one progress registration,
        only the two state flags are ever set, and the category indexes
        the owner's dispatch table. */
    ghost predicate Valid()
      reads this
    {
      && pendingCount == |pendingQ| % Word
      && registered == |pendingQ|
      && state & !Connected == 0
      && optype < OpLast
      && ep.uctEps.Length == OpLast
    }

    predicate IsConnected()
      reads this
    {
      IsConnectedState(state)
    }

    /** The guard of the progress callback. */
    predicate ReadyToSwitch()
      reads this
      ensures ReadyToSwitch() <==>
        state & LocalConnected != 0 && state & RemoteConnectedBit != 0 && pendingCount == 0
      ensures ReadyToSwitch() ==> WireupMsgEp() == nextEp
    {
      IsConnected() && pendingCount == 0
    }

    /** ucp_stub_ep_get_wireup_msg_ep. */
    function WireupMsgEp(): (r: Option<EpId>)
      reads this
      ensures r == nextEp || r == auxEp
      ensures r == (if state & LocalConnected != 0 && state & RemoteConnectedBit != 0 then nextEp else auxEp)
    {
      WireupMsgTarget(state, auxEp, nextEp)
    }

    /** The class initialiser: create next_ep on the transport the owner's
        configuration names for this category (unless the owner has no
        configuration yet) and, for active messages only, select and
        connect an auxiliary endpoint; when that fails, destroy next_ep
        again. `createEp` and `createConnected` are uct_ep_create and
        uct_ep_create_connected on a given resource. */
    static method Create(ep: Ep, optype: nat, id: EpId, createEp: nat -> (Status, EpId),
                         select: Selection, createConnected: (nat, nat) -> (Status, EpId))
      returns (st: Status, stub: StubEndpoint?)
      requires optype < OpLast && ep.uctEps.Length == OpLast
      requires ep.cfgIndex != Unset ==> ep.Configured() && |ep.Config().rscs| == OpLast
      modifies ep.worker`destroyed
      ensures st == Ok <==> stub != null
      ensures stub != null ==>
        && fresh(stub) && stub.ep == ep && stub.optype == optype && stub.id == id
        && stub.pendingQ == [] && stub.state == 0 && stub.Valid() && stub.alive
      ensures ep.cfgIndex == Unset ==>
        st == Ok && stub.nextEp == None && stub.auxEp == None && stub.auxRscIndex == Unset
        && ep.worker.destroyed == old(ep.worker.destroyed)
      ensures ep.cfgIndex != Unset ==>
        var (nextSt, next) := createEp(ep.Config().rscs[optype]);
        var (auxSt, aux) := createConnected(select.rscIndex, select.addrIndex);
        && (nextSt != Ok ==> st == nextSt && ep.worker.destroyed == old(ep.worker.destroyed))
        && (nextSt == Ok && optype != OpAm ==>
              st == Ok && stub.nextEp == Some(next) && stub.auxEp == None && stub.auxRscIndex == Unset
              && ep.worker.destroyed == old(ep.worker.destroyed))
        && (nextSt == Ok && optype == OpAm && select.status != Ok ==>
              st == select.status && ep.worker.destroyed == old(ep.worker.destroyed) + [Some(next)])
        && (nextSt == Ok && optype == OpAm && select.status == Ok && auxSt != Ok ==>
              st == auxSt && ep.worker.destroyed == old(ep.worker.destroyed) + [Some(next)])
        && (nextSt == Ok && optype == OpAm && select.status == Ok && auxSt == Ok ==>
              st == Ok && stub.nextEp == Some(next) && stub.auxEp == Some(aux)
              && stub.auxRscIndex == select.rscIndex
              && ep.worker.destroyed == old(ep.worker.destroyed))
    {
      var self := new StubEndpoint.Alloc(ep, optype, id);
      if ep.cfgIndex != Unset {
        var (nextSt, next) := createEp(ep.Config().rscs[optype]);
        if nextSt != Ok {
          return nextSt, null;
        }
        self.nextEp := Some(next);
        if optype == OpAm {
          // ucp_stub_ep_connect_aux
          if select.status != Ok {
            ep.worker.destroyed := ep.worker.destroyed + [self.nextEp];
            return select.status, null;
          }
          self.auxRscIndex := select.rscIndex;
          var (auxSt, aux) := createConnected(select.rscIndex, select.addrIndex);
          if auxSt != Ok {
            ep.worker.destroyed := ep.worker.destroyed + [self.nextEp];
            return auxSt, null;
          }
          self.auxEp := Some(aux);
        }
      }
      return Ok, self;
    }

    /** ucp_stub_ep_get_address: forwarded to next_ep; `forwarded` is what
        uct_ep_get_address returns there. */
    method GetAddress(forwarded: Status) returns (st: Status, target: Option<EpId>)
      ensures st == forwarded && target == nextEp
    {
      return forwarded, nextEp;
    }

    /** ucp_stub_ep_connect_to_ep: connect next_ep to the remote endpoint
        (`connected` is what uct_ep_connect_to_ep returns) and record
        LOCAL_CONNECTED when that succeeds. */
    method ConnectToEp(connected: Status) returns (st: Status, target: Option<EpId>)
      requires Valid()
      modifies this`state
      ensures st == connected && target == nextEp
      ensures state == StepState(old(state), LocalConnect(connected))
      ensures state & LocalConnected != 0 <==> old(state) & LocalConnected != 0 || connected == Ok
      ensures state & old(state) == old(state) && Valid()
    {
      state := StepState(state, LocalConnect(connected));
      return connected, nextEp;
    }

    /** ucp_stub_ep_remote_connected, called by wire-up once the remote
        side has connected to next_ep. */
    method RemoteConnected()
      requires Valid()
      modifies this`state
      ensures state == StepState(old(state), RemoteConnect)
      ensures state & RemoteConnectedBit != 0 && state & old(state) == old(state) && Valid()
    {
      state := state | RemoteConnectedBit;
    }

    /** ucp_stub_pending_add: a wire-up message request is handed to the
        wire-up message endpoint (`delegated` is what uct_ep_pending_add
        returns there) and the stub is left as it was; any other request
        is queued at the tail, counted in pending_count and in the
        worker's stub_pend_count, and registers the stub's progress
        callback once. */
    method PendingAdd(req: PendingReq, delegated: Status) returns (st: Status, target: Option<EpId>)
      requires alive && Valid()
      requires req.func == WireupMsgProgress ==> WireupMsgEp().Some?
      modifies this`pendingQ, this`pendingCount, this`registered, ep.worker`stubPendCount, ep.worker`progressRegs
      ensures Valid()
      ensures req.func == WireupMsgProgress ==>
        st == delegated && target == old(WireupMsgEp())
        && pendingQ == old(pendingQ) && pendingCount == old(pendingCount) && registered == old(registered)
        && ep.worker.stubPendCount == old(ep.worker.stubPendCount)
        && ep.worker.progressRegs == old(ep.worker.progressRegs)
      ensures req.func != WireupMsgProgress ==>
        st == Ok && target == None
        && pendingQ == old(pendingQ) + [req]
        && pendingCount == (old(pendingCount) + 1) % Word
        && registered == old(registered) + 1
        && ep.worker.stubPendCount == old(ep.worker.stubPendCount) + 1
        && ep.worker.progressRegs == old(ep.worker.progressRegs) + 1
    {
      if req.func == WireupMsgProgress {
        return delegated, WireupMsgEp();
      }
      pendingQ := pendingQ + [req];
      pendingCount := (pendingCount + 1) % Word;
      ep.worker.stubPendCount := ep.worker.stubPendCount + 1;
      registered := registered + 1;
      ep.worker.progressRegs := ep.worker.progressRegs + 1;
      return Ok, None;
    }

    /** ucp_stub_ep_flush (ucs_empty_function_return_inprogress): a stub
        never finishes flushing. */
    method Flush() returns (st: Status)
      ensures st == InProgress
    {
      return InProgress;
    }

    /** ucp_stub_pending_purge: a stub must have nothing queued when it is
        purged. Like every pending_purge it leaves the queue empty and hands
        each request it removes to the callback, which here is none. */
    method PendingPurge() returns (removed: seq<PendingReq>)
      requires pendingQ == []
      ensures removed == [] && pendingQ == []
    {
      return [];
    }

    /** The stub's ep_destroy operation (the class delete function): its
        cleanup requires an empty queue, destroys aux_ep when there is
        one and destroys next_ep, and the stub is released. */
    method Destroy()
      requires alive && pendingQ == []
      modifies this`alive, ep.worker`destroyed
      ensures !alive
      ensures ep.worker.destroyed == old(ep.worker.destroyed) + [Some(id)]
        + (if auxEp.Some? then [auxEp] else []) + [nextEp]
    {
      ep.worker.destroyed := ep.worker.destroyed + [Some(id)];
      if auxEp.Some? {
        ep.worker.destroyed := ep.worker.destroyed + [auxEp];
      }
      ep.worker.destroyed := ep.worker.destroyed + [nextEp];
      alive := false;
    }

    /** The first step of the switchover: move the queue, in order, to a
        temporary queue, dropping one progress registration per request. */
    method DrainPending() returns (moved: seq<PendingReq>)
      modifies this`pendingQ, this`registered, ep.worker`progressRegs
      ensures moved == old(pendingQ) && pendingQ == []
      ensures registered == old(registered) - |moved|
      ensures ep.worker.progressRegs == old(ep.worker.progressRegs) - |moved|
    {
      moved := [];
      while pendingQ != []
        invariant moved + pendingQ == old(pendingQ)
        invariant registered == old(registered) - |moved|
        invariant ep.worker.progressRegs == old(ep.worker.progressRegs) - |moved|
        decreases |pendingQ|
      {
        var req := pendingQ[0];
        assert moved + [req] + pendingQ[1..] == moved + pendingQ;
        pendingQ := pendingQ[1..];
        ep.worker.progressRegs := ep.worker.progressRegs - 1;
        registered := registered - 1;
        moved := moved + [req];
      }
    }

    /** The second step of the switchover: install `next` in the stub's
        own slot of the dispatch table and in every slot that duplicates
        it. */
    method InstallNext(next: Option<EpId>, dups: seq<int>)
      requires optype < OpLast && ep.uctEps.Length == OpLast && |dups| == OpLast
      modifies ep.uctEps
      ensures ep.uctEps[..] == Switched(old(ep.uctEps[..]), dups, optype, next)
    {
      var table := ep.uctEps;
      table[optype] := next;
      for o := 0 to OpLast
        invariant forall k :: 0 <= k < OpLast ==>
          table[k] == (if k == optype || (k < o && dups[k] == optype) then next else old(table[k]))
      {
        if dups[o] == optype {
          table[o] := next;
        }
      }
      assert table[..] == Switched(old(table[..]), dups, optype, next);
    }

    /** The last step of the switchover: resubmit each moved request, in
        order, on the new endpoint until a call returns OK, and decrease
        stub_pend_count once per request. `script` is what successive
        ucp_ep_add_pending_uct calls return. */
    method Replay(moved: seq<PendingReq>, script: seq<Status>) returns (n: nat)
      modifies ep.worker`replayed, ep.worker`stubPendCount
      ensures n == ReplayCount(moved, script)
      ensures ep.worker.replayed == old(ep.worker.replayed) + moved[..n]
      ensures ep.worker.stubPendCount == old(ep.worker.stubPendCount) - n
    {
      var worker := ep.worker;
      var pos := 0;
      n := 0;
      while n < |moved| && pos < |script|
        invariant pos <= |script| && n <= |moved|
        invariant n == OkCount(script[..pos])
        invariant worker.replayed == old(worker.replayed) + moved[..n]
        invariant worker.stubPendCount == old(worker.stubPendCount) - n
      {
        var status := script[pos];
        OkCountStep(script, pos);
        pos := pos + 1;
        while status != Ok && pos < |script|
          invariant 0 < pos <= |script| && status == script[pos - 1]
          invariant OkCount(script[..pos - 1]) == n
          invariant OkCount(script[..pos]) == n + (if status == Ok then 1 else 0)
          invariant worker.replayed == old(worker.replayed) + moved[..n]
          invariant worker.stubPendCount == old(worker.stubPendCount) - n
        {
          status := script[pos];
          OkCountStep(script, pos);
          pos := pos + 1;
        }
        if status == Ok {
          assert moved[..n + 1] == moved[..n] + [moved[n]];
          worker.replayed := worker.replayed + [moved[n]];
          worker.stubPendCount := worker.stubPendCount - 1;
          n := n + 1;
        }
      }
      OkCountPrefix(script, pos);
      if pos == |script| {
        assert script[..pos] == script;
      }
    }

    /** The effect of the progress callback: nothing at all unless the
        stub is connected and pending_count is 0; otherwise the queue is
        moved out and replayed, the dispatch table switched to next_ep,
        `destroys` are the endpoints destroyed, the stub is released and
        the async block is balanced. */
    twostate predicate SwitchoverEffect(script: seq<Status>, destroys: seq<Option<EpId>>)
      reads this, ep.uctEps, ep.worker
    {
      if !old(ReadyToSwitch()) then
        unchanged(this) && unchanged(ep.uctEps) && unchanged(ep.worker)
      else
        var n := ReplayCount(old(pendingQ), script);
        && old(ep.Configured()) && |old(ep.Config().dups)| == ep.uctEps.Length
        && !alive && pendingQ == [] && registered == old(registered) - old(|pendingQ|)
        && ep.uctEps[..] == Switched(old(ep.uctEps[..]), old(ep.Config().dups), optype, old(nextEp))
        && ep.worker.destroyed == old(ep.worker.destroyed) + destroys
        && ep.worker.progressRegs == old(ep.worker.progressRegs) - old(|pendingQ|)
        && ep.worker.asyncDepth == old(ep.worker.asyncDepth)
        && ep.worker.replayed == old(ep.worker.replayed) + old(pendingQ)[..n]
        && ep.worker.stubPendCount == old(ep.worker.stubPendCount) - n
    }

    /** ucp_stub_ep_progress with the destruction of the temporaries
        corrected: aux_ep is destroyed once when there is one, and the
        stub is released without destroying next_ep, which the dispatch
        table now holds. `script` is what the replay's
        ucp_ep_add_pending_uct calls return. */
    method Progress(script: seq<Status>)
      requires alive && Valid()
      requires ReadyToSwitch() ==> ep.Configured() && |ep.Config().dups| == OpLast
      modifies this`pendingQ, this`registered, this`alive, ep.uctEps
      modifies ep.worker`progressRegs, ep.worker`asyncDepth, ep.worker`destroyed
      modifies ep.worker`replayed, ep.worker`stubPendCount
      ensures SwitchoverEffect(script, SwitchoverDestroys(auxEp))
    {
      if !ReadyToSwitch() {
        return;
      }
      var worker := ep.worker;
      worker.asyncDepth := worker.asyncDepth + 1;
      var next := nextEp;
      var moved := DrainPending();
      InstallNext(next, ep.Config().dups);
      if auxEp.Some? {
        worker.destroyed := worker.destroyed + [auxEp];
      }
      alive := false;
      worker.asyncDepth := worker.asyncDepth - 1;
      var n := Replay(moved, script);
    }

    /** ucp_stub_ep_progress as written: after switching, it destroys
        aux_ep (NULL outside active messages) and then the stub itself,
        whose cleanup destroys aux_ep again and the promoted next_ep. */
    method ProgressAsWritten(script: seq<Status>)
      requires alive && Valid()
      requires ReadyToSwitch() ==> ep.Configured() && |ep.Config().dups| == OpLast
      modifies this`pendingQ, this`registered, this`alive, ep.uctEps
      modifies ep.worker`progressRegs, ep.worker`asyncDepth, ep.worker`destroyed
      modifies ep.worker`replayed, ep.worker`stubPendCount
      ensures SwitchoverEffect(script, SwitchoverDestroysAsWritten(auxEp, id, nextEp))
    {
      if !ReadyToSwitch() {
        return;
      }
      var worker := ep.worker;
      worker.asyncDepth := worker.asyncDepth + 1;
      var next := nextEp;
      var moved := DrainPending();
      InstallNext(next, ep.Config().dups);
      worker.destroyed := worker.destroyed + [auxEp];
      Destroy();
      worker.asyncDepth := worker.asyncDepth - 1;
      var n := Replay(moved, script);
    }

    /** The send operations of the stub other than am_bcopy: run the
        progress callback, as written, and report UCS_ERR_NO_RESOURCE. */
    method Send(op: SendOp, script: seq<Status>) returns (st: Status)
      requires alive && Valid()
      requires ReadyToSwitch() ==> ep.Configured() && |ep.Config().dups| == OpLast
      modifies this`pendingQ, this`registered, this`alive, ep.uctEps
      modifies ep.worker`progressRegs, ep.worker`asyncDepth, ep.worker`destroyed
      modifies ep.worker`replayed, ep.worker`stubPendCount
      ensures st == ErrNoResource
      ensures SwitchoverEffect(script, SwitchoverDestroysAsWritten(auxEp, id, nextEp))
    {
      ProgressAsWritten(script);
      return ErrNoResource;
    }

    /** ucp_stub_ep_am_bcopy: a wire-up message is sent on the wire-up
        message endpoint (`forwarded` is what uct_ep_am_bcopy returns
        there) and nothing else happens; any other message runs the
        progress callback, as written, and reports UCS_ERR_NO_RESOURCE. */
    method AmBcopy(amId: nat, forwarded: BcopyResult, script: seq<Status>)
      returns (r: BcopyResult, target: Option<EpId>)
      requires alive && Valid()
      requires amId == AmIdWireup ==> WireupMsgEp().Some?
      requires ReadyToSwitch() ==> ep.Configured() && |ep.Config().dups| == OpLast
      modifies this`pendingQ, this`registered, this`alive, ep.uctEps
      modifies ep.worker`progressRegs, ep.worker`asyncDepth, ep.worker`destroyed
      modifies ep.worker`replayed, ep.worker`stubPendCount
      ensures amId == AmIdWireup ==>
        r == forwarded && target == old(WireupMsgEp())
        && unchanged(this) && unchanged(ep.uctEps) && unchanged(ep.worker)
      ensures amId != AmIdWireup ==>
        r == BcopyFailed(ErrNoResource) && target == None
        && SwitchoverEffect(script, SwitchoverDestroysAsWritten(auxEp, id, nextEp))
    {
      if amId == AmIdWireup {
        return forwarded, WireupMsgEp();
      }
      ProgressAsWritten(script);
      return BcopyFailed(ErrNoResource), None;
    }
  }

  /** The stub's switchover guard holds with pending_count 0, and
      pending_count follows the queue length modulo 2^32: unless 2^32
      requests are queued, the guard implies the queue is empty, so the
      drain of the switchover moves nothing. */
  lemma GuardMeansEmptyQueue(s: StubEndpoint)
    requires s.Valid() && s.ReadyToSwitch() && |s.pendingQ| < Word
    ensures s.pendingQ == []
  {
  }

  /** While requests are queued on a stub (fewer than 2^32 of them), its
      progress callback does nothing: pending_count never goes down. */
  lemma QueuedStubNeverSwitches(s: StubEndpoint)
    requires s.Valid() && 0 < |s.pendingQ| < Word
    ensures !s.ReadyToSwitch()
  {
  }

  // ---------------------------------------------------------------------
  // Handles
  // ---------------------------------------------------------------------

  /** A uct_ep_h, which is either a stub (its interface is the stub
      interface) or an endpoint of a real transport. */
  datatype UctHandle = Stub(stub: StubEndpoint) | Transport(handle: EpId)

  /** ucp_stub_ep_get_aux_rsc_index: UCP_NULL_RESOURCE for an endpoint
      that is not a stub, otherwise the stub's auxiliary resource, which
      the source asserts exists. */
  function GetAuxRscIndex(h: UctHandle): (r: int)
    reads if h.Stub? then {h.stub} else {}
    requires h.Stub? ==> h.stub.auxEp.Some?
    ensures !h.Stub? ==> r == Unset
    ensures h.Stub? ==> r == h.stub.auxRscIndex
  {
    if !h.Stub? then Unset else h.stub.auxRscIndex
  }

  /** The assertion of ucp_stub_ep_remote_connected as written: the
      handle is not a stub. */
  predicate RemoteConnectedAssertAsWritten(h: UctHandle) {
    !h.Stub?
  }

  /** As written, in a build that checks assertions, every
      remote_connected call on a stub stops at the assertion before it sets
      REMOTE_CONNECTED. The events that reach a fresh stub are then connect
      results only (`evs` holds a RemoteConnect only where the written
      assertion passes), so the stub is never connected: its switchover
      guard never holds and its wire-up messages go to aux_ep for ever. */
  lemma {:induction false} RemoteConnectedAssertInverted(s: StubEndpoint, evs: seq<StateEvent>)
    requires forall k :: 0 <= k < |evs| && evs[k] == RemoteConnect ==> RemoteConnectedAssertAsWritten(Stub(s))
    ensures RemoteConnect !in evs
    ensures !IsConnectedState(RunEvents(0, evs))
    ensures WireupMsgTarget(RunEvents(0, evs), s.auxEp, s.nextEp) == s.auxEp
    ensures s.state == RunEvents(0, evs) ==> !s.ReadyToSwitch() && s.WireupMsgEp() == s.auxEp
  {
    assert !RemoteConnectedAssertAsWritten(Stub(s));
    EventsSetFlagsIff(0, evs);
  }

  /** The assertion as intended: the handle is a stub. */
  predicate RemoteConnectedAssert(h: UctHandle) {
    h.Stub?
  }

  /** ucp_stub_ep_remote_connected on a handle, with the intended
      assertion as its precondition. */
  method RemoteConnectedOn(h: UctHandle)
    requires RemoteConnectedAssert(h) && h.stub.Valid()
    modifies h.stub`state
    ensures h.stub.state == StepState(old(h.stub.state), RemoteConnect)
    ensures h.stub.state & RemoteConnectedBit != 0 && h.stub.Valid()
  {
    h.stub.RemoteConnected();
  }

  /** ucp_ep_destroy_uct_ep_safe on a stub: the pending purge finds the
      queue empty, as the stub asserts, and every flush returns
      IN_PROGRESS, so after any number `n` of flush calls the stub has been
      purged but not destroyed; the source's loop never ends. */
  method DestroyStubSafe(s: StubEndpoint, n: nat) returns (destroyed: bool)
    requires s.pendingQ == []
    modifies s.ep.worker`purged, s.ep.worker`destroyed
    ensures !destroyed
    ensures s.ep.worker.destroyed == old(s.ep.worker.destroyed)
    ensures s.ep.worker.purged == old(s.ep.worker.purged) + [s.id]
  {
    var removed := s.PendingPurge();
    var flushes: seq<Status> := [];
    while |flushes| < n
      invariant |flushes| <= n
      invariant forall k :: 0 <= k < |flushes| ==> flushes[k] == InProgress
      invariant s.ep.worker.destroyed == old(s.ep.worker.destroyed)
      invariant s.ep.worker.purged == old(s.ep.worker.purged)
    {
      var st := s.Flush();
      flushes := flushes + [st];
    }
    destroyed := s.ep.DestroyUctEpSafe(Some(s.id), flushes);
  }

  // ---------------------------------------------------------------------
  // Qualification of the auxiliary transport
  // ---------------------------------------------------------------------

  /** Interface capability flags (UCT_IFACE_FLAG_*). */
  datatype IfaceFlag =
    | CapConnectToIface | CapConnectToEp | CapAmShort | CapAmBcopy | CapAmZcopy
    | CapPutShort | CapPutBcopy | CapPutZcopy | CapGetBcopy | CapGetZcopy
    | CapAtomicAdd32 | CapAtomicAdd64 | CapAtomicFadd32 | CapAtomicFadd64
    | CapAtomicSwap32 | CapAtomicSwap64 | CapAtomicCswap32 | CapAtomicCswap64
    | CapPending | CapAmCbSync

  /** Whether ucp_wireup_aux_score_func gives a transport a positive score,
      or the reason it gives for a zero score. */
  datatype AuxVerdict = Qualified | Rejected(reason: string)

  /** The qualification checks of ucp_wireup_aux_score_func as written:
      the third and fourth checks test CONNECT_TO_IFACE again. */
  function AuxQualificationAsWritten(flags: set<IfaceFlag>): (r: AuxVerdict)
    ensures r == Qualified <==> CapAmBcopy in flags && CapConnectToIface in flags
    ensures r == Rejected("am_bcopy for wireup") <==> CapAmBcopy !in flags
    ensures r == Rejected("connecting to iface") <==> CapAmBcopy in flags && CapConnectToIface !in flags
  {
    if CapAmBcopy !in flags then Rejected("am_bcopy for wireup")
    else if CapConnectToIface !in flags then Rejected("connecting to iface")
    else if CapConnectToIface !in flags then Rejected("async am callback")
    else if CapConnectToIface !in flags then Rejected("pending")
    else Qualified
  }

  /** The reasons "async am callback" and "pending" are never given, and a
      transport without synchronous active-message callbacks and pending
      queues qualifies. */
  lemma AuxChecksDead(flags: set<IfaceFlag>)
    ensures AuxQualificationAsWritten(flags) != Rejected("async am callback")
    ensures AuxQualificationAsWritten(flags) != Rejected("pending")
    ensures AuxQualificationAsWritten({CapAmBcopy, CapConnectToIface}) == Qualified
  {
  }

  /** The checks as evidently intended, named by their reasons: active
      message bcopy, connecting to an interface, a callback flag, pending
      queues. Which flag "async am callback" was meant to test is not
      visible; the model takes UCT_IFACE_FLAG_AM_CB_SYNC, the only
      active-message callback flag in sight (self_iface.c:46). */
  function AuxQualification(flags: set<IfaceFlag>): (r: AuxVerdict)
    ensures r == Qualified <==> {CapAmBcopy, CapConnectToIface, CapAmCbSync, CapPending} <= flags
    ensures r == Rejected("async am callback") <==> CapAmBcopy in flags && CapConnectToIface in flags && CapAmCbSync !in flags
    ensures r == Rejected("pending") <==> {CapAmBcopy, CapConnectToIface, CapAmCbSync} <= flags && CapPending !in flags
  {
    if CapAmBcopy !in flags then Rejected("am_bcopy for wireup")
    else if CapConnectToIface !in flags then Rejected("connecting to iface")
    else if CapAmCbSync !in flags then Rejected("async am callback")
    else if CapPending !in flags then Rejected("pending")
    else Qualified
  }

  /** The intended checks reject exactly what the written ones accept
      without synchronous callbacks or pending support, and agree with
      them everywhere else. */
  lemma AuxQualificationRefines(flags: set<IfaceFlag>)
    ensures AuxQualification(flags) == Qualified ==> AuxQualificationAsWritten(flags) == Qualified
    ensures AuxQualificationAsWritten(flags) != Qualified ==> AuxQualification(flags) == AuxQualificationAsWritten(flags)
    ensures AuxQualificationAsWritten(flags) == Qualified && AuxQualification(flags) != Qualified <==>
      CapAmBcopy in flags && CapConnectToIface in flags && (CapAmCbSync !in flags || CapPending !in flags)
  {
  }

  /** The capability flags of the loopback (self) transport. */
  const SelfIfaceFlags: set<IfaceFlag> := {
    CapConnectToIface, CapAmShort, CapAmBcopy, CapPutShort, CapPutBcopy, CapGetBcopy,
    CapAtomicAdd32, CapAtomicAdd64, CapAtomicFadd64, CapAtomicFadd32,
    CapAtomicSwap64, CapAtomicSwap32, CapAtomicCswap64, CapAtomicCswap32,
    CapPending, CapAmCbSync
  }

  /** The loopback transport qualifies as auxiliary under both versions;
      under the intended one this rests on the AM_CB_SYNC reading of the
      third check, since the loopback sets no asynchronous-callback flag. */
  lemma SelfIfaceQualifies()
    ensures AuxQualificationAsWritten(SelfIfaceFlags) == Qualified
    ensures AuxQualification(SelfIfaceFlags) == Qualified
  {
  }
}
