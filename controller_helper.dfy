/** `WithDBTx` (biz/controller/helper.go): a controller operation runs on a
    transaction begun with `Store.Begin`, and `EndTx` ends it. */
module ControllerHelper {
  import opened Wrappers
  import opened Response
  import opened Database

  /** How a controller call ends: it returns its results, or it panics (a
      nil dereference in the source). What the server's recovery middleware
      then answers is not part of this model. */
  datatype Outcome<T> = Returned(value: T) | Panicked

  /** The end of `WithDBTx`: an operation that failed is rolled back to the
      snapshot its transaction began with and its error is returned as is;
      otherwise the transaction is committed and nil is returned. */
  method EndTx(db: Store, tx: Snapshot, opErr: Option<SError>) returns (err: Option<SError>)
    requires db.Valid() && SnapshotValid(tx)
    modifies db.Tables()
    ensures db.Valid()
    ensures err == opErr
    ensures opErr.Some? ==> db.State() == tx
    ensures opErr.None? ==> db.State() == old(db.State())
  {
    if opErr.Some? {
      db.Rollback(tx);
    }
    err := opErr;
  }
}
