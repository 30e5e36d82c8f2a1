/** Vocabulary shared by every module, and the protocol constants of eamrp.h. */
module Basics {

  /** A node address (`nsaddr_t`). */
  type Addr = int

  datatype Option<+T> = None | Some(value: T)

  function Max(a: nat, b: nat): nat {
    if a >= b then a else b
  }

  function MaxReal(a: real, b: real): real {
    if a >= b then a else b
  }

  const INFINITY2: nat := 255

  const MY_ROUTE_TIMEOUT: real := 10.0
  const ACTIVE_ROUTE_TIMEOUT: real := 10.0
  const REV_ROUTE_LIFE: real := 6.0
  const BCAST_ID_SAVE: real := 6.0

  const RREQ_RETRIES: nat := 3
  const MAX_RREQ_TIMEOUT: real := 1.0
  const TTL_START: nat := 5
  const TTL_INCREMENT: nat := 2
  const TTL_THRESHOLD: nat := 7
  const NETWORK_DIAMETER: nat := 30
  const NODE_TRAVERSAL_TIME: real := 0.03

  const HELLO_INTERVAL: real := 1.0
  const ALLOWED_HELLO_LOSS: real := 3.0

  const MAX_SALVAGE_COUNT: nat := 10

  const RTQ_MAX_LEN: nat := 64
  const RTQ_TIMEOUT: real := 30.0
}
