/** What every part of the model uses. */
module Basics {

  datatype Option<+T> = None | Some(value: T)

  /** An output of a transaction (COutPoint). */
  datatype Outpoint = Outpoint(txid: nat, n: nat)

  function Min(a: int, b: int): int { if a < b then a else b }

  function Max(a: int, b: int): int { if a < b then b else a }
}
