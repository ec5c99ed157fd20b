/** What both connection registries share. */
module Channels {

  /** An open channel, known only by its identity. */
  type ConnId = nat
}
