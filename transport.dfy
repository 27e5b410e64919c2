/** The rate-observing transport, reduced to what the balancer reads: the
    registry it keeps up to date from the responses it sees. */
module Transports {
  import Registry

  class Transport {
    /** Its most recent rate-limit information (`Transport.Limits`). */
    const limits: Registry.Limits

    /** `NewTransport`: a transport with an empty registry; `notify` says
        whether a notify callback was configured. */
    constructor (notify: bool)
      ensures fresh(limits)
      ensures limits.m == map[] && limits.notify == notify && limits.notified == []
    {
      limits := new Registry.Limits(notify);
    }
  }
}
