/** Trading modes (config.py). */
module Modes {
  datatype Mode = Paper | Shadow | Canary | Live

  predicate RealMoney(m: Mode) { m == Canary || m == Live }
}
