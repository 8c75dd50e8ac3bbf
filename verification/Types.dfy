/** Identifiers shared by the models. They are compared for equality only. */
module Types {

  type NodeId = nat
  type ChannelId = nat
  type ContractId = nat
  type PaymentHash = nat

  /** The number of values of an unsigned 64-bit integer. */
  const U64_SIZE: nat := 0x1_0000_0000_0000_0000

  type u64 = n: nat | n < U64_SIZE
}
