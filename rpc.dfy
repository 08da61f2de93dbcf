/**
 * The chain as both tasks see it: a read-only state answering the two
 * JSON-RPC reads `eth_getCode` and `eth_getStorageAt`. The transport is not
 * part of this model; a request is kept as a value so that the tasks can
 * be specified by the requests they issue.
 */
module Rpc {

  /** One JSON-RPC read, with the parameters the tasks pass to it. */
  datatype Request =
    | GetCode(address: string, blockTag: string)
    | GetStorageAt(address: string, slot: string, blockTag: string)

  /** The chain state at the block read: bytecode per address, word per address and slot. */
  datatype Chain = Chain(code: string -> string, storage: (string, string) -> string)

  /** The answer the chain gives to a request. */
  function Send(chain: Chain, r: Request): string {
    match r
    case GetCode(a, _) => chain.code(a)
    case GetStorageAt(a, slot, _) => chain.storage(a, slot)
  }
}
