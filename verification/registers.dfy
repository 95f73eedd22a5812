// The register-access abstraction shared by both drivers: instead of storing
// through a volatile pointer, a driver appends what it stores to a log.

module Registers {

  /** One byte stored into the controller's register at `offset` (CSR, DPR, CMDR). */
  datatype RegWrite = RegWrite(offset: bv8, value: bv8)

}
