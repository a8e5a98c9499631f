// Waiting for a submitted transaction: one look at once, then up to twenty more.

module Polling {

  datatype TxStatus = NOT_FOUND | SUCCESS | FAILED

  const MAX_ATTEMPTS := 20

  /** The first settled status, among the looks the backend takes, is a success. */
  predicate Confirmed(look: nat -> TxStatus) {
    exists k: nat | k <= MAX_ATTEMPTS :: SettlesAt(look, k) && look(k) == SUCCESS
  }

  predicate SettlesAt(look: nat -> TxStatus, k: nat) {
    look(k) != NOT_FOUND && forall j: nat | j < k :: look(j) == NOT_FOUND
  }

  /** `look(k)` is what the network answers when asked for the (k+1)-th time. */
  method AwaitTransaction(look: nat -> TxStatus) returns (confirmed: bool)
    ensures confirmed <==> Confirmed(look)
  {
    var getResult, attempts := look(0), 0;
    while getResult == NOT_FOUND && attempts < MAX_ATTEMPTS
      invariant 0 <= attempts <= MAX_ATTEMPTS && getResult == look(attempts)
      invariant forall j: nat | j < attempts :: look(j) == NOT_FOUND
    {
      getResult, attempts := look(attempts + 1), attempts + 1;
    }
    confirmed := getResult == SUCCESS;
    if confirmed {
      assert SettlesAt(look, attempts);
    } else {
      NotConfirmed(look, attempts);
    }
  }

  /** The last look decides: those before it found nothing. */
  lemma NotConfirmed(look: nat -> TxStatus, last: nat)
    requires last <= MAX_ATTEMPTS && look(last) != SUCCESS
    requires forall j: nat | j < last :: look(j) == NOT_FOUND
    requires look(last) == NOT_FOUND ==> last == MAX_ATTEMPTS
    ensures !Confirmed(look)
  {
  }

  /** A transaction that takes effect is reported as failed exactly when it needs more than twenty-one looks. */
  lemma LateMeansLost(look: nat -> TxStatus, lands: nat)
    requires forall k: nat :: look(k) == if k < lands then NOT_FOUND else SUCCESS
    ensures Confirmed(look) <==> lands <= 20
  {
    if lands <= MAX_ATTEMPTS {
      assert SettlesAt(look, lands);
    }
    forall k: nat | k <= MAX_ATTEMPTS && SettlesAt(look, k) && look(k) == SUCCESS ensures lands <= k {
    }
  }
}
