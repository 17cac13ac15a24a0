/** Password recovery, as far as the notification outbox is concerned. */
module Recovery {
  import opened EventKeys
  import opened Tables
  import opened Orders

  predicate OnlyRecoveryDiffers(before: Db, after: Db) {
    after == before.(resetTokens := after.resetTokens, outbox := after.outbox)
  }

  /** A customer's new reset token replaces the old ones; the mail with its link is queued under its hash. */
  function QueuePasswordReset(db: Db, user: nat, tokenHash: string): (result: (Db, Reply))
    ensures OnlyRecoveryDiffers(db, result.0)
  {
    if !db.notify then (db, Rejected(RecoveryUnavailable))
    else
      var others := map h | h in db.resetTokens && db.resetTokens[h] != user :: db.resetTokens[h];
      if tokenHash in others then (db, Rejected(DatabaseError))
      else (Enqueue(db.(resetTokens := others[tokenHash := user]), PasswordReset(tokenHash)), Done)
  }

  /** Maintenance drops the used and the expired tokens. */
  function PurgeResetTokens(db: Db, gone: set<string>): (result: (Db, Reply))
    ensures OnlyRecoveryDiffers(db, result.0)
  {
    (db.(resetTokens := db.resetTokens - gone), Done)
  }
}
