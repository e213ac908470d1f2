/**
 * Values shared by the transport layer (uct) and the protocol layer (ucp):
 * status codes, transport endpoint handles and pending requests.
 */
module Ucs {

  /** The ucs_status_t values the model tells apart; every other error code
      is Err(code). */
  datatype Status = Ok | InProgress | ErrNoResource | ErrNoMemory | ErrBusy | Err(code: int)

  /** The identity of a transport endpoint (a uct_ep_h that is not NULL). */
  type EpId = nat

  /** The progress function a pending request carries: the wire-up message
      sender ucp_wireup_msg_progress, or some other operation. */
  datatype PendingFunc = WireupMsgProgress | OtherProgress(fn: nat)

  /** A uct_pending_req_t, by identity and function. */
  datatype PendingReq = PendingReq(id: nat, func: PendingFunc)

  /** What an ssize_t-returning bcopy send gives back: the packed length, or
      a (negative) status. */
  datatype BcopyResult = Packed(length: nat) | BcopyFailed(status: Status)
}
