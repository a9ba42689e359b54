/** The finance package's error values that the modelled code produces. */
module FinanceError {

  datatype Error =
    | BrokenInvariant(typeName: string)
    | UnexpectedCurrency(found: string, expected: string)
    | NotInCurrencyGroup(symbol: string, group: string)
}
