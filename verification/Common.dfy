/** Types every component shares. */
module Common {

  datatype Option<T> = None | Some(value: T)

  /** How a database statement ends for its caller: acknowledged, applied with the reply lost, or not applied. */
  datatype Reply = Acked | LostReply | NoEffect

  /** How many statements are acknowledged before the first that is not, of at most n. */
  function Acks(db: nat -> Reply, n: nat): (k: nat)
    ensures k <= n && (forall i: nat | i < k :: db(i).Acked?) && (k < n ==> !db(k).Acked?)
  {
    if n == 0 then 0
    else
      var k := Acks(db, n - 1);
      if k == n - 1 && db(k).Acked? then n else k
  }

  lemma AcksGoOn(db: nat -> Reply, n: nat)
    requires Acks(db, n) == n && db(n).Acked?
    ensures Acks(db, n + 1) == n + 1
  {}

  lemma {:induction false} AcksStopAt(db: nat -> Reply, i: nat, n: nat)
    requires Acks(db, i) == i < n && !db(i).Acked?
    ensures Acks(db, n) == i
  {
    if i + 1 < n { AcksStopAt(db, i, n - 1); }
  }

  lemma {:induction false} AcksBelow(db: nat -> Reply, n: nat, m: nat)
    requires Acks(db, n) < n <= m
    ensures Acks(db, m) < m
  {
    if n < m { AcksBelow(db, n, m - 1); }
  }
}
