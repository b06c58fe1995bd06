/** Running totals of bytes per address. */
module Ledgers {
  function Total(m: map<nat, nat>, address: nat): nat { if address in m then m[address] else 0 }

  function Plus(m: map<nat, nat>, address: nat, n: nat): map<nat, nat> { m[address := Total(m, address) + n] }
}
