/**
 * The owning endpoint of src/ucp/core/ucp_ep.c and the worker it belongs
 * to: creating an endpoint and registering it in the worker's endpoint
 * hash, find-or-create by the peer's uuid, the retry loop that hands a
 * request to a transport endpoint's pending queue, and the flush loop that
 * tears a transport endpoint down. Transport calls (uct_ep_pending_add,
 * uct_ep_flush, ...) are oracles: a loop that calls one is given the
 * sequence of statuses the calls return.
 */
module UcpEp {
  import opened Wrappers
  import opened Ucs

  /** A peer's 64-bit uuid. */
  type Uuid = nat

  /** SIZE_MAX on a 64-bit target. */
  const SizeMax: int := 0xFFFF_FFFF_FFFF_FFFF

  /** UCP_EP_OP_LAST, the number of operation categories of an endpoint.
      The enumeration is declared in ucp_ep.h, which is not part of this
      model; no proof depends on its value. */
  const OpLast: nat := 4

  /** (uint8_t)-1, the "no configuration" value of cfg_index, which is also
      UCP_NULL_RESOURCE, the "no resource" value of a resource index. */
  const Unset: int := 255

  /** One entry of the worker's endpoint configurations: the resource used
      for each operation category, and for each category the category it
      duplicates (a category that shares another one's transport). */
  datatype EpConfig = EpConfig(rscs: seq<nat>, dups: seq<int>)

  /** The worker (ucp_worker_t): its endpoint hash, the stub-pending counter
      and, as ghost state, the effects of calls into code this model does
      not contain. */
  class Worker {
    /** ep_hash, keyed by dest_uuid. */
    var epHash: map<Uuid, Ep>
    var epConfigs: seq<EpConfig>
    /** stub_pend_count. */
    var stubPendCount: int
    /** Progress callbacks registered with uct_worker_progress_register and
        not yet unregistered. */
    ghost var progressRegs: int
    /** Nesting depth of UCS_ASYNC_BLOCK. */
    ghost var asyncDepth: int
    /** The argument of every uct_ep_destroy call, in order (None is NULL). */
    ghost var destroyed: seq<Option<EpId>>
    /** The argument of every uct_ep_pending_purge call, in order. */
    ghost var purged: seq<EpId>
    /** Endpoints released with ucs_free. */
    ghost var freed: set<Ep>
    /** Requests resubmitted after a stub's switchover, in order. */
    ghost var replayed: seq<PendingReq>

    constructor (configs: seq<EpConfig>)
      ensures epHash == map[] && epConfigs == configs && stubPendCount == 0
      ensures progressRegs == 0 && asyncDepth == 0
      ensures destroyed == [] && purged == [] && freed == {} && replayed == []
    {
      epHash, epConfigs, stubPendCount := map[], configs, 0;
      progressRegs, asyncDepth := 0, 0;
      destroyed, purged, freed, replayed := [], [], {}, [];
    }

    /** Every configuration has an entry per operation category. */
    ghost predicate ConfigsWellFormed()
      reads this
    {
      forall i :: 0 <= i < |epConfigs| ==> |epConfigs[i].rscs| == OpLast && |epConfigs[i].dups| == OpLast
    }

    /** The hash finds every endpoint under its own dest_uuid. */
    ghost predicate HashKeyed()
      reads this
    {
      forall u :: u in epHash ==> epHash[u].destUuid == u && epHash[u].worker == this
    }

    /** No hash entry refers to a released endpoint. */
    ghost predicate NoDanglingEntries()
      reads this
    {
      forall u :: u in epHash ==> epHash[u] !in freed
    }

    /** ucp_ep_new: allocate an endpoint with its default fields and add it
        to the endpoint hash; `allocOk` is whether ucs_calloc succeeded. */
    method EpNew(destUuid: Uuid, allocOk: bool) returns (st: Status, ep: Ep?)
      modifies this`epHash
      ensures allocOk <==> st == Ok
      ensures st == Ok ==>
        ep != null && fresh(ep) && fresh(ep.uctEps) && ep.Defaults()
        && ep.worker == this && ep.destUuid == destUuid
        && epHash == old(epHash)[destUuid := ep]
      ensures st != Ok ==> st == ErrNoMemory && ep == null && epHash == old(epHash)
    {
      if !allocOk {
        return ErrNoMemory, null;
      }
      ep := new Ep(this, destUuid);
      epHash := epHash[destUuid := ep];
      st := Ok;
    }

    /** ucp_ep_create as written: return the endpoint already connected to
        the peer, or create one and start wire-up on it. When wire-up fails
        to start, the new endpoint is released while the hash still holds
        it. `allocOk` and `wireupStatus` are what ucs_calloc and
        ucp_wireup_start give. */
    method EpCreateAsWritten(destUuid: Uuid, allocOk: bool, wireupStatus: Status)
      returns (st: Status, ep: Ep?)
      requires HashKeyed()
      modifies this`epHash, this`asyncDepth, this`freed
      ensures HashKeyed() && asyncDepth == old(asyncDepth)
      ensures destUuid in old(epHash) ==>
        st == Ok && ep == old(epHash)[destUuid] && epHash == old(epHash) && freed == old(freed)
      ensures destUuid !in old(epHash) && !allocOk ==>
        st == ErrNoMemory && ep == null && epHash == old(epHash) && freed == old(freed)
      ensures destUuid !in old(epHash) && allocOk && wireupStatus == Ok ==>
        st == Ok && ep != null && fresh(ep) && ep.Defaults() && ep.destUuid == destUuid
        && epHash == old(epHash)[destUuid := ep] && freed == old(freed)
      ensures destUuid !in old(epHash) && allocOk && wireupStatus != Ok ==>
        st == wireupStatus && ep == null
        && destUuid in epHash && epHash[destUuid] in freed && !NoDanglingEntries()
    {
      asyncDepth := asyncDepth + 1;  // UCS_ASYNC_BLOCK
      if destUuid in epHash {
        ep := epHash[destUuid];
        asyncDepth := asyncDepth - 1;  // UCS_ASYNC_UNBLOCK
        return Ok, ep;
      }
      var created: Ep?;
      st, created := EpNew(destUuid, allocOk);
      if st != Ok {
        asyncDepth := asyncDepth - 1;
        return st, null;
      }
      if wireupStatus != Ok {
        freed := freed + {created};  // ucs_free(ep), still in epHash
        asyncDepth := asyncDepth - 1;
        return wireupStatus, null;
      }
      asyncDepth := asyncDepth - 1;
      return Ok, created;
    }

    /** ucp_ep_create with the failure path corrected: an endpoint whose
        wire-up failed to start is taken out of the hash before it is
        released, so the hash keeps no released endpoint. */
    method EpCreate(destUuid: Uuid, allocOk: bool, wireupStatus: Status)
      returns (st: Status, ep: Ep?)
      requires HashKeyed()
      modifies this`epHash, this`asyncDepth, this`freed
      ensures HashKeyed() && asyncDepth == old(asyncDepth)
      ensures old(NoDanglingEntries()) ==> NoDanglingEntries()
      ensures destUuid in old(epHash) ==>
        st == Ok && ep == old(epHash)[destUuid] && epHash == old(epHash) && freed == old(freed)
      ensures destUuid !in old(epHash) && !allocOk ==>
        st == ErrNoMemory && ep == null && epHash == old(epHash) && freed == old(freed)
      ensures destUuid !in old(epHash) && allocOk && wireupStatus == Ok ==>
        st == Ok && ep != null && fresh(ep) && ep.Defaults() && ep.destUuid == destUuid
        && epHash == old(epHash)[destUuid := ep] && freed == old(freed)
      ensures destUuid !in old(epHash) && allocOk && wireupStatus != Ok ==>
        st == wireupStatus && ep == null && epHash == old(epHash)
    {
      asyncDepth := asyncDepth + 1;
      if destUuid in epHash {
        ep := epHash[destUuid];
        asyncDepth := asyncDepth - 1;
        return Ok, ep;
      }
      var created: Ep?;
      st, created := EpNew(destUuid, allocOk);
      if st != Ok {
        asyncDepth := asyncDepth - 1;
        return st, null;
      }
      if wireupStatus != Ok {
        epHash := epHash - {destUuid};
        assert epHash == old(epHash);
        freed := freed + {created};
        asyncDepth := asyncDepth - 1;
        return wireupStatus, null;
      }
      asyncDepth := asyncDepth - 1;
      return Ok, created;
    }
  }

  /** What one pass of ucp_ep_add_pending's loop sees: the status of
      uct_ep_pending_add and, when that is BUSY, the status of the forced
      progress call req->func. */
  datatype Round = Round(added: Status, progressed: Status)

  /** A pass after which the loop goes round again. */
  predicate Retries(r: Round) {
    r.added == ErrBusy && r.progressed != Ok
  }

  /** How ucp_ep_add_pending ends: the request was queued on the transport
      endpoint, or forced progress completed it; Unfinished means that the
      rounds supplied ran out (the source would keep looping). */
  datatype AddOutcome = Queued | Completed | Unfinished

  /** A send request (ucp_request_t): the endpoint it is sent on and its
      embedded transport pending request. */
  class Request {
    var sendEp: Ep?
    const uct: PendingReq

    constructor (uct: PendingReq)
      ensures sendEp == null && this.uct == uct
    {
      sendEp := null;
      this.uct := uct;
    }
  }

  /** The owning endpoint (ucp_ep_t). */
  class Ep {
    const worker: Worker
    const destUuid: Uuid
    /** uct_eps[]: the transport endpoint installed per operation category. */
    const uctEps: array<Option<EpId>>
    var uctEp: Option<EpId>
    var maxShortEgr: int
    var maxBcopyEgr: int
    var maxShortPut: int
    var maxBcopyPut: int
    var maxBcopyGet: int
    var rscIndex: int
    var dstPdIndex: int
    var state: int
    var wireupAuxEp: Option<EpId>
    var wireupNextEp: Option<EpId>
    var cfgIndex: int

    /** The fields as ucp_ep_new leaves them. The allocation is zero-filled,
        so cfg_index and every uct_eps[] slot start at 0 / NULL. */
    ghost predicate Defaults()
      reads this, uctEps
    {
      && uctEp == None
      && maxShortEgr == SizeMax && maxBcopyEgr == SizeMax && maxShortPut == SizeMax
      && maxBcopyPut == SizeMax && maxBcopyGet == SizeMax
      && rscIndex == -1 && dstPdIndex == -1 && state == 0
      && wireupAuxEp == None && wireupNextEp == None
      && cfgIndex == 0
      && uctEps.Length == OpLast && forall i :: 0 <= i < OpLast ==> uctEps[i] == None
    }

    constructor (worker: Worker, destUuid: Uuid)
      ensures this.worker == worker && this.destUuid == destUuid
      ensures fresh(uctEps) && Defaults()
    {
      this.worker := worker;
      this.destUuid := destUuid;
      uctEps := new Option<EpId>[OpLast](_ => None);
      uctEp := None;
      maxShortEgr, maxBcopyEgr, maxShortPut := SizeMax, SizeMax, SizeMax;
      maxBcopyPut, maxBcopyGet := SizeMax, SizeMax;
      rscIndex, dstPdIndex, state := -1, -1, 0;
      wireupAuxEp, wireupNextEp := None, None;
      cfgIndex := 0;
    }

    /** cfg_index names one of the worker's endpoint configurations. */
    ghost predicate Configured()
      reads this, worker
    {
      0 <= cfgIndex < |worker.epConfigs|
    }

    /** ucp_ep_config(ep). */
    function Config(): EpConfig
      reads this, worker
      requires Configured()
    {
      worker.epConfigs[cfgIndex]
    }

    /** ucp_ep_add_pending: point the request at this endpoint, then offer it
        to the transport endpoint's pending queue, forcing progress on it
        whenever the queue is BUSY, until it is queued or completes. The
        source asserts that a status other than BUSY is OK. */
    method AddPending(uctEp: EpId, req: Request, rounds: seq<Round>)
      returns (outcome: AddOutcome, used: nat)
      requires forall k :: 0 <= k < |rounds| ==> rounds[k].added == Ok || rounds[k].added == ErrBusy
      modifies req
      ensures req.sendEp == this
      ensures used <= |rounds|
      ensures outcome == Unfinished <==> used == |rounds| && forall k :: 0 <= k < |rounds| ==> Retries(rounds[k])
      ensures outcome != Unfinished ==> used > 0 && forall k :: 0 <= k < used - 1 ==> Retries(rounds[k])
      ensures outcome == Queued ==> rounds[used - 1].added == Ok
      ensures outcome == Completed ==> rounds[used - 1] == Round(ErrBusy, Ok)
    {
      req.sendEp := this;
      used := 0;
      while used < |rounds|
        invariant used <= |rounds|
        invariant forall k :: 0 <= k < used ==> Retries(rounds[k])
      {
        var round := rounds[used];
        used := used + 1;
        if round.added != ErrBusy {
          return Queued, used;  // added to pending
        }
        if round.progressed == Ok {
          return Completed, used;  // completed the operation
        }
      }
      outcome := Unfinished;
    }

    /** ucp_ep_destroy_uct_ep_safe: purge the transport endpoint's pending
        queue, flush it until a flush returns OK, then destroy it. `flushes`
        are the statuses successive uct_ep_flush calls return; when no OK is
        among them the endpoint is never destroyed (the source keeps
        flushing). */
    method DestroyUctEpSafe(uctEp: Option<EpId>, flushes: seq<Status>) returns (destroyed: bool)
      requires uctEp.Some?
      modifies worker`purged, worker`destroyed
      ensures worker.purged == old(worker.purged) + [uctEp.value]
      ensures destroyed <==> Ok in flushes
      ensures worker.destroyed == old(worker.destroyed) + (if destroyed then [uctEp] else [])
    {
      worker.purged := worker.purged + [uctEp.value];
      var calls := 0;
      while calls < |flushes| && flushes[calls] != Ok
        invariant calls <= |flushes|
        invariant forall k :: 0 <= k < calls ==> flushes[k] != Ok
      {
        // uct_worker_progress and ucs_async_check_miss are not modelled
        calls := calls + 1;
      }
      destroyed := calls < |flushes|;
      if destroyed {
        worker.destroyed := worker.destroyed + [uctEp];
      }
    }

    /** ucp_ep_destroy: stop wire-up (ucp_wireup_stop is not part of this
        model), destroy the transport endpoint safely and release the
        endpoint. The endpoint stays in the worker's hash. */
    method Destroy(flushes: seq<Status>)
      requires uctEp.Some?
      modifies worker`purged, worker`destroyed, worker`freed
      ensures worker.purged == old(worker.purged) + [old(uctEp).value]
      ensures Ok in flushes ==>
        worker.destroyed == old(worker.destroyed) + [old(uctEp)] && worker.freed == old(worker.freed) + {this}
      ensures Ok !in flushes ==> worker.destroyed == old(worker.destroyed) && worker.freed == old(worker.freed)
    {
      var done := DestroyUctEpSafe(uctEp, flushes);
      if done {
        worker.freed := worker.freed + {this};
      }
    }
  }
}
