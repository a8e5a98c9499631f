// The token an escrow holds, as a well-behaved SEP-41 ledger: balances and
// allowances, with transfers that fail on a shortage and on nothing else.

module TokenLedger {
  import opened Sums

  type Address = string

  /** What a movement of `amount` from `from` to `to` adds to the balance of `who`. */
  function Flow(from: Address, to: Address, amount: int, who: Address): int {
    (if who == to then amount else 0) - (if who == from then amount else 0)
  }

  datatype Ledger = Ledger(
    balances: map<(Address, Address), nat>,
    allowances: map<(Address, Address, Address), nat>)
  {
    function Balance(token: Address, who: Address): nat {
      if (token, who) in balances then balances[(token, who)] else 0
    }

    function Allowance(token: Address, owner: Address, spender: Address): nat {
      if (token, owner, spender) in allowances then allowances[(token, owner, spender)] else 0
    }

    /** SEP-41 `transfer`. */
    function Transfer(token: Address, from: Address, to: Address, amount: int): (r: Option<Ledger>)
      ensures r.Some? <==> 0 <= amount <= Balance(token, from)
    {
      if 0 <= amount <= Balance(token, from) then
        var debited := this.(balances := balances[(token, from) := Balance(token, from) - amount]);
        Some(debited.(balances := debited.balances[(token, to) := debited.Balance(token, to) + amount]))
      else
        None
    }

    /** SEP-41 `transfer_from`: spends the allowance, then moves the balance. */
    function TransferFrom(token: Address, spender: Address, from: Address, to: Address, amount: int)
      : (r: Option<Ledger>)
      ensures r.Some? <==> 0 <= amount <= Balance(token, from) && amount <= Allowance(token, from, spender)
    {
      if 0 <= amount <= Allowance(token, from, spender) then
        var left := Allowance(token, from, spender) - amount;
        var spent := this.(allowances := allowances[(token, from, spender) := left]);
        assert spent.Balance(token, from) == Balance(token, from);
        spent.Transfer(token, from, to, amount)
      else
        None
    }

    function Approve(token: Address, owner: Address, spender: Address, amount: nat): Ledger {
      this.(allowances := allowances[(token, owner, spender) := amount])
    }

    function Mint(token: Address, to: Address, amount: nat): Ledger {
      this.(balances := balances[(token, to) := Balance(token, to) + amount])
    }
  }

  /** `after` is `before` with `amount` of `token` moved, and nothing else. */
  ghost predicate Moved(before: Ledger, after: Ledger, token: Address, from: Address, to: Address, amount: int) {
    forall t, who ::
      after.Balance(t, who) == before.Balance(t, who) + if t == token then Flow(from, to, amount, who) else 0
  }

  lemma TransferMoves(l: Ledger, token: Address, from: Address, to: Address, amount: int)
    requires l.Transfer(token, from, to, amount).Some?
    ensures var after := l.Transfer(token, from, to, amount).value;
            Moved(l, after, token, from, to, amount) && after.allowances == l.allowances
  {
  }

  lemma TransferFromMoves(l: Ledger, token: Address, spender: Address, from: Address, to: Address, amount: int)
    requires l.TransferFrom(token, spender, from, to, amount).Some?
    ensures var after := l.TransferFrom(token, spender, from, to, amount).value;
            && Moved(l, after, token, from, to, amount)
            && forall t, o, sp ::
                after.Allowance(t, o, sp)
                == l.Allowance(t, o, sp) - if (t, o, sp) == (token, from, spender) then amount else 0
  {
    var spent := l.(allowances :=
                      l.allowances[(token, from, spender) := l.Allowance(token, from, spender) - amount]);
    assert forall t, who :: spent.Balance(t, who) == l.Balance(t, who);
    TransferMoves(spent, token, from, to, amount);
  }

  /** What the rest of the network can do to a ledger. Burning is a transfer to a sink address. */
  datatype TokenOp =
    | Transfer(token: Address, from: Address, to: Address, amount: int)
    | TransferFrom(token: Address, spender: Address, from: Address, to: Address, amount: int)
    | Approve(token: Address, owner: Address, spender: Address, limit: nat)
    | Mint(token: Address, to: Address, minted: nat)

  /** Whose signature the token contract asks for; minting needs the issuer, who is nobody here. */
  function Signer(op: TokenOp): Option<Address> {
    match op
    case Transfer(_, from, _, _) => Some(from)
    case TransferFrom(_, spender, _, _, _) => Some(spender)
    case Approve(_, owner, _, _) => Some(owner)
    case Mint(_, _, _) => None
  }

  /** A failed operation is rolled back by the host. */
  function Perform(l: Ledger, op: TokenOp): Ledger {
    match op
    case Transfer(t, from, to, n) =>
      var r := l.Transfer(t, from, to, n);
      if r.Some? then r.value else l
    case TransferFrom(t, sp, from, to, n) =>
      var r := l.TransferFrom(t, sp, from, to, n);
      if r.Some? then r.value else l
    case Approve(t, o, sp, n) => l.Approve(t, o, sp, n)
    case Mint(t, to, n) => l.Mint(t, to, n)
  }

  /** An address that signs nothing and has approved nobody loses nothing. */
  lemma UnsignedNeverLoses(l: Ledger, op: TokenOp, who: Address)
    requires Signer(op) != Some(who)
    requires forall t, sp :: l.Allowance(t, who, sp) == 0
    ensures forall t :: Perform(l, op).Balance(t, who) >= l.Balance(t, who)
    ensures forall t, sp :: Perform(l, op).Allowance(t, who, sp) == 0
  {
    match op {
      case Transfer(token, from, to, n) =>
        if l.Transfer(token, from, to, n).Some? { TransferMoves(l, token, from, to, n); }
      case TransferFrom(token, spender, from, to, n) =>
        if l.TransferFrom(token, spender, from, to, n).Some? { TransferFromMoves(l, token, spender, from, to, n); }
        assert l.Allowance(token, who, spender) == 0;
      case _ =>
    }
    forall t, sp ensures Perform(l, op).Allowance(t, who, sp) == 0 {
      assert l.Allowance(t, who, sp) == 0;
    }
  }

  function Recipient(op: TokenOp): Option<Address> {
    match op
    case Transfer(_, _, to, _) => Some(to)
    case TransferFrom(_, _, _, to, _) => Some(to)
    case Approve(_, _, _, _) => None
    case Mint(_, to, _) => Some(to)
  }

  /** An address that is not paid gains nothing. */
  lemma UnpaidNeverGains(l: Ledger, op: TokenOp, who: Address)
    requires Recipient(op) != Some(who)
    ensures forall t :: Perform(l, op).Balance(t, who) <= l.Balance(t, who)
  {
    match op
    case Transfer(token, from, to, n) =>
      if l.Transfer(token, from, to, n).Some? { TransferMoves(l, token, from, to, n); }
    case TransferFrom(token, spender, from, to, n) =>
      if l.TransferFrom(token, spender, from, to, n).Some? { TransferFromMoves(l, token, spender, from, to, n); }
    case _ =>
  }
}
