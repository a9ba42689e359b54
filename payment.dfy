/**
 * The payment currency group: Usdc, Osmo, Atom and Nls are its declared
 * members; `resolve` also matches four test currencies when the `testing`
 * feature is on, without their being declared members. `resolve` matches a symbol
 * against the members in that order and hands the first match to a visitor.
 * The members' symbol constants live outside this model, so the symbol of
 * each currency is a parameter, `symbolOf`.
 */
module Payment {
  import opened Wrappers
  import FinanceError

  type Symbol = string

  datatype Currency =
    | Usdc | Osmo | Atom | Nls
    | TestCurrencyA | TestCurrencyB | TestCurrencyC | TestCurrencyD

  const DESCR: string := "payment"

  /**
   * The currencies `resolve` accepts: the four declared members, and with the
   * `testing` feature also the four test currencies.
   */
  function Members(testing: bool): (m: set<Currency>)
    ensures Usdc in m && Osmo in m && Atom in m && Nls in m
    ensures !testing ==> |m| == 4
    ensures testing ==> |m| == 8
  {
    var production := {Usdc, Osmo, Atom, Nls};
    if testing then production + {TestCurrencyA, TestCurrencyB, TestCurrencyC, TestCurrencyD}
    else production
  }

  predicate Injective(symbolOf: Currency -> Symbol) {
    forall c1, c2 :: symbolOf(c1) == symbolOf(c2) ==> c1 == c2
  }

  /**
   * `PaymentGroup::resolve`: the visitor's answer for the first member whose
   * symbol matches, or NotInCurrencyGroup(symbol, "payment") converted into
   * the visitor's error type.
   */
  function Resolve<O, E>(symbol: Symbol, testing: bool, symbolOf: Currency -> Symbol,
                         visit: Currency -> Result<O, E>, into: FinanceError.Error -> E): (r: Result<O, E>)
    ensures (exists c :: c in Members(testing) && symbolOf(c) == symbol && r == visit(c))
      || ((forall c :: c in Members(testing) ==> symbolOf(c) != symbol)
          && r == Failure(into(FinanceError.NotInCurrencyGroup(symbol, DESCR))))
  {
    if symbol == symbolOf(Usdc) then visit(Usdc)
    else if symbol == symbolOf(Osmo) then visit(Osmo)
    else if symbol == symbolOf(Atom) then visit(Atom)
    else if symbol == symbolOf(Nls) then visit(Nls)
    else if testing && symbol == symbolOf(TestCurrencyA) then visit(TestCurrencyA)
    else if testing && symbol == symbolOf(TestCurrencyB) then visit(TestCurrencyB)
    else if testing && symbol == symbolOf(TestCurrencyC) then visit(TestCurrencyC)
    else if testing && symbol == symbolOf(TestCurrencyD) then visit(TestCurrencyD)
    else Failure(into(FinanceError.NotInCurrencyGroup(symbol, DESCR)))
  }

  /** With distinct symbols, a member's symbol resolves to that member and to no other. */
  lemma {:induction false} ResolveMember<O, E>(c: Currency, testing: bool, symbolOf: Currency -> Symbol,
                                             visit: Currency -> Result<O, E>, into: FinanceError.Error -> E)
    requires Injective(symbolOf) && c in Members(testing)
    ensures Resolve(symbolOf(c), testing, symbolOf, visit, into) == visit(c)
  {
  }

  /** Without the `testing` feature, a test currency's symbol is not in the group. */
  lemma {:induction false} TestCurrencyNeedsFeature<O, E>(c: Currency, symbolOf: Currency -> Symbol,
                                                        visit: Currency -> Result<O, E>, into: FinanceError.Error -> E)
    requires Injective(symbolOf) && c !in Members(false)
    ensures Resolve(symbolOf(c), false, symbolOf, visit, into)
         == Failure(into(FinanceError.NotInCurrencyGroup(symbolOf(c), DESCR)))
  {
    forall m | m in Members(false) ensures symbolOf(m) != symbolOf(c) {
      assert m != c;
    }
  }
}
