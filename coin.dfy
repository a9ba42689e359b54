/**
 * The currency-checked conversion between `Coin<C>`, an amount whose
 * currency is fixed by its type, and `CoinDTO`, the untyped amount-and-symbol
 * form used in messages. The type parameter C is modelled by its symbol,
 * passed explicitly as `currency`.
 */
module Coin {
  import opened Wrappers
  import opened Percentable
  import FinanceError

  type Symbol = string

  /** `Coin<C>`: an amount of the currency C. */
  datatype Coin = Coin(amount: Amount)

  datatype CoinDTO = CoinDTO(amount: Amount, symbol: Symbol)

  /** `TryFrom<CoinDTO> for Coin<C>`: accepted only when the symbol is C's. */
  function TryFromDto(dto: CoinDTO, currency: Symbol): (r: Result<Coin, FinanceError.Error>)
    ensures r.Success? <==> dto.symbol == currency
    ensures r.Success? ==> r.value.amount == dto.amount
    ensures r.Failure? ==> r.error == FinanceError.UnexpectedCurrency(dto.symbol, currency)
  {
    if currency == dto.symbol then Success(Coin(dto.amount))
    else Failure(FinanceError.UnexpectedCurrency(dto.symbol, currency))
  }

  /** `From<Coin<C>> for CoinDTO`: the amount tagged with C's symbol. */
  function ToDto(coin: Coin, currency: Symbol): (dto: CoinDTO)
    ensures TryFromDto(dto, currency) == Success(coin)
  {
    CoinDTO(coin.amount, currency)
  }

  /** `funds::<C>(amount)`: the message form of `Coin::<C>::new(amount)`. */
  function Funds(currency: Symbol, amount: Amount): (dto: CoinDTO)
    ensures dto.amount == amount && dto.symbol == currency
    ensures TryFromDto(dto, currency) == Success(Coin(amount))
  {
    ToDto(Coin(amount), currency)
  }

  /** A DTO that converts to a coin of C is exactly that coin's DTO. */
  lemma DtoRoundTrip(dto: CoinDTO, currency: Symbol, coin: Coin)
    requires TryFromDto(dto, currency) == Success(coin)
    ensures ToDto(coin, currency) == dto
  {
  }

  /** A DTO of one currency is refused as a coin of any other. */
  lemma ForeignDtoRefused(coin: Coin, currency: Symbol, other: Symbol)
    requires currency != other
    ensures TryFromDto(ToDto(coin, currency), other) == Failure(FinanceError.UnexpectedCurrency(currency, other))
  {
  }
}
