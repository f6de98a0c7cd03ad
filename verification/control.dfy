/** The instruction-pointer arithmetic both interpreters share. */
module Control {

  /** Machine::advance_ip(diff) for the instruction at index ip of a program
      of n instructions: the iterator moves by diff - 1 when ip + diff - 1 lies
      in [begin, end] and by 1 otherwise; the fetch loop then adds 1 more. */
  function AdvanceIp(ip: int, diff: int, n: nat): (r: int)
    requires 0 <= ip < n
    ensures 0 <= r <= n
    ensures r == ip + diff - 1 || r == ip + 1
  {
    if 0 <= ip + diff - 1 <= n then ip + diff - 1 else ip + 1
  }
}
