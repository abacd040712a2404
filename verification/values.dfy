/**
 * The library value types the entities carry. No date or decimal arithmetic
 * happens anywhere in the service layer, so each is kept as plain data.
 */
module Values {

  /** java.time.LocalDate */
  datatype LocalDate = LocalDate(year: int, month: int, day: int)

  /** java.time.LocalDateTime */
  datatype LocalDateTime = LocalDateTime(date: LocalDate, hour: int, minute: int, second: int, nano: int)

  /** java.math.BigDecimal: the number unscaled * 10^(-scale) */
  datatype BigDecimal = BigDecimal(unscaled: int, scale: int)
}
