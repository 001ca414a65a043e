/** The history screen: which committed transactions a user may see. */
module TransactionHistory {
  import opened Types
  import opened Seqs

  /** The test a transaction passes when it was made by the given user. */
  function MadeBy(userId: int): Transaction -> bool {
    (t: Transaction) => t.userId == userId
  }

  /** An administrator sees the whole log; anyone else sees only their own
      transactions, in log (newest-first) order. */
  function VisibleTransactions(transactions: seq<Transaction>, user: User): (r: seq<Transaction>)
    ensures user.role == Admin ==> r == transactions
    ensures user.role != Admin ==> forall t :: t in r <==> t in transactions && t.userId == user.id
    ensures user.role != Admin ==> forall t :: t in transactions ==>
              multiset(r)[t] == if t.userId == user.id then multiset(transactions)[t] else 0
    ensures IsSubsequence(r, transactions)
    ensures |r| <= |transactions|
  {
    if user.role == Admin then
      SubsequenceReflexive(transactions);
      transactions
    else
      FilterCount(transactions, MadeBy(user.id));
      FilterSubsequence(transactions, MadeBy(user.id));
      Filter(transactions, MadeBy(user.id))
  }

  /** Applying the role filter to its own result changes nothing. */
  lemma VisibleIdempotent(transactions: seq<Transaction>, user: User)
    ensures VisibleTransactions(VisibleTransactions(transactions, user), user) == VisibleTransactions(transactions, user)
  {
    if user.role != Admin {
      FilterIdempotent(transactions, MadeBy(user.id));
    }
  }
}
