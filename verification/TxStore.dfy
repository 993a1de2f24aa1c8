/**
 The rows the transaction manager keeps (evm.txes, evm.tx_attempts, evm.receipts) and the store
 operations that change them. Each operation is one SQL transaction, so it is one function here:
 it happens as a whole or, when the store fails, not at all.
 */
module TxStore {
  import opened Options

  type Id = int

  type Address = int

  datatype TxState = Unstarted | InProgress | FatalError | Unconfirmed | Confirmed | ConfirmedMissingReceipt

  datatype AttemptState = AttemptInProgress | AttemptInsufficientFunds | AttemptBroadcast

  datatype Receipt = Receipt(blockNumber: int, blockHash: int)

  /** `dynamicFee` marks an EIP-1559 attempt (transaction type 2). */
  datatype Attempt = Attempt(id: Id, fee: int, dynamicFee: bool, state: AttemptState, receipts: seq<Receipt>)

  /** Attempts are loaded highest price first. */
  datatype Tx = Tx(id: Id, from: Address, state: TxState, sequence: Option<int>, attempts: seq<Attempt>)

  type Rows = map<Id, Tx>

  /** How the client classifies a node's answer; `Other` stands for a value outside the enumeration. */
  datatype Code =
    | Successful | Fatal | Retryable | Underpriced | Unknown | Unsupported
    | TransactionAlreadyKnown | InsufficientFunds | ExceedsMaxFee | FeeOutOfValidRange | Other

  /** The table's check constraint: a row has a sequence exactly while it is in flight or confirmed. */
  predicate HasSequence(state: TxState) {
    state != Unstarted && state != FatalError
  }

  predicate WellFormed(rows: Rows) {
    forall id | id in rows :: rows[id].id == id && (HasSequence(rows[id].state) <==> rows[id].sequence.Some?)
  }

  function MarkInProgress(rows: Rows, tx: Tx, sequence: int, attempt: Attempt): Rows {
    rows[tx.id := tx.(state := InProgress, sequence := Some(sequence), attempts := [attempt])]
  }

  function MarkBroadcast(rows: Rows, tx: Tx, attempt: Attempt): Rows {
    rows[tx.id := tx.(state := Unconfirmed, attempts := [attempt.(state := AttemptBroadcast)])]
  }

  /** The one attempt of a transaction in progress is replaced. */
  function MarkReplaced(rows: Rows, tx: Tx, attempt: Attempt): Rows {
    rows[tx.id := tx.(attempts := [attempt])]
  }

  function MarkFatal(rows: Rows, tx: Tx): Rows {
    rows[tx.id := tx.(state := FatalError, sequence := None, attempts := [])]
  }
}
