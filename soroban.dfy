/** The vocabulary shared by the Soroban contracts: account and contract
    addresses, the fixed-width integers the contracts store, optional
    storage entries and the outcome of one contract invocation.

    A contract invocation either completes or panics; a panic reverts every
    storage write the invocation made, so an aborted call leaves the state
    exactly as it was. Each contract method below returns an `Outcome` or a
    `Result` and promises that an `Abort`/`Err` changes nothing. */
module Soroban {

  /** A Stellar account or contract address (a strkey such as "G…" or "C…"). */
  type Address = string

  const I128_MIN: int := -0x8000_0000_0000_0000_0000_0000_0000_0000
  const I128_MAX: int := 0x7fff_ffff_ffff_ffff_ffff_ffff_ffff_ffff
  const U32_MAX: int := 0xffff_ffff
  const U64_MAX: int := 0xffff_ffff_ffff_ffff

  /** Rust's `i128`, the token amount type. */
  type i128 = x: int | I128_MIN <= x <= I128_MAX

  /** Rust's `u32`, used for ids, counters, offsets and limits. */
  type u32 = x: int | 0 <= x <= U32_MAX

  /** Rust's `u64`, the ledger timestamp type. */
  type u64 = x: int | 0 <= x <= U64_MAX

  /** A storage entry that may be unset, like `Option<T>` in Rust. */
  datatype Option<T> = None | Some(value: T) {
    /** `unwrap_or(default)` */
    function UnwrapOr(default: T): T {
      if Some? then value else default
    }
  }

  /** The outcome of an entry point that returns nothing: it completes or it
      panics with an error. */
  datatype Outcome<E> = Done | Abort(error: E)

  /** The outcome of an entry point that returns a value. */
  datatype Result<T, E> = Ok(value: T) | Err(error: E)
}
