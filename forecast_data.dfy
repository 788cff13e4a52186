/**
 * The records the forecast pipeline works on, and two shared integer helpers.
 *
 * A `Sample` is one entry of the weather API's 3-hour forecast list. Only the
 * fields the pipeline reads or writes are kept: the epoch timestamp `dt`, its
 * text form `dt_txt`, the temperature `main.temp`, and the icon code and
 * description of `weather[0]`.
 *
 * `Min` and `Max` are the integer helpers both passes use for lengths.
 */
module ForecastData {

  /** One 3-hour forecast entry. `dt` is in whole seconds since the epoch. */
  datatype Sample = Sample(
    dt: int,
    dtTxt: string,
    temp: real,
    icon: string,
    description: string)

  /** One card of the forecast view: a calendar date and its aggregates. */
  datatype DailySummary = DailySummary(
    date: string,
    temp: int,
    icon: string,
    description: string)

  function Min(a: int, b: int): int {
    if a < b then a else b
  }

  function Max(a: int, b: int): int {
    if a < b then b else a
  }
}
