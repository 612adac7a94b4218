/** What every kernel object knows of a thread: its identity and its error code. */
module Ids {

  type Tid = nat

  datatype Error = EOK | ERROR | ETIMEOUT | EFULL
}
