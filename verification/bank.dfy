/**
  The part of the bank keeper the registry uses: crediting "RegistryCoin" to
  an address. Balances are a ledger from address to amount; an address that
  was never credited holds zero.
 */
module Bank {
  import opened Types

  type Ledger = map<Address, int>

  function Balance(l: Ledger, a: Address): int
  {
    if a in l then l[a] else 0
  }

  /** `AddCoins(a, amount)`. */
  function Credit(l: Ledger, a: Address, amount: int): Ledger
  {
    l[a := Balance(l, a) + amount]
  }

  /** Crediting moves only `a`'s balance, and by exactly `amount`. */
  lemma CreditMovesOnlyTarget(l: Ledger, a: Address, amount: int)
    ensures Balance(Credit(l, a, amount), a) == Balance(l, a) + amount
    ensures forall b :: b != a ==> Balance(Credit(l, a, amount), b) == Balance(l, b)
    ensures Credit(l, a, amount).Keys == l.Keys + {a}
  {
  }

  /** Credits every address in `pay` with its amount, once each. */
  function CreditAll(l: Ledger, pay: map<Address, int>): (r: Ledger)
    ensures forall a :: Balance(r, a) == Balance(l, a) + (if a in pay then pay[a] else 0)
    ensures r.Keys == l.Keys + pay.Keys
  {
    map a | a in l.Keys + pay.Keys :: Balance(l, a) + (if a in pay then pay[a] else 0)
  }

  /** Crediting one more address on top of a batch is the batch extended by that address. */
  lemma CreditAllStep(l: Ledger, pay: map<Address, int>, a: Address, amount: int)
    requires a !in pay
    ensures CreditAll(l, pay[a := amount]) == Credit(CreditAll(l, pay), a, amount)
  {
    var lhs := CreditAll(l, pay[a := amount]);
    var rhs := Credit(CreditAll(l, pay), a, amount);
    assert lhs.Keys == rhs.Keys;
    forall b | b in lhs.Keys
      ensures lhs[b] == rhs[b]
    {
      assert lhs[b] == Balance(lhs, b);
      assert rhs[b] == Balance(rhs, b);
    }
  }

  /** Crediting an empty batch changes nothing. */
  lemma CreditAllEmpty(l: Ledger)
    ensures CreditAll(l, map[]) == l
  {
    var r := CreditAll(l, map[]);
    assert r.Keys == l.Keys;
    forall b | b in r.Keys
      ensures r[b] == l[b]
    {
      assert r[b] == Balance(r, b);
    }
  }
}
