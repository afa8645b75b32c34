/**
 * The externally visible account value (the JSON data class `Account`)
 * and the JVM integer widths its fields carry.
 */
module AccountModel {

  const MaxLong: int := 0x7FFF_FFFF_FFFF_FFFF

  /** Kotlin `Long`: a signed 64-bit integer. */
  type Long = x: int | -0x8000_0000_0000_0000 <= x <= 0x7FFF_FFFF_FFFF_FFFF

  /** Kotlin `Int`: a signed 32-bit integer. */
  type Int = x: int | -0x8000_0000 <= x <= 0x7FFF_FFFF

  /** An account as the HTTP layer sees it. */
  datatype Account = Account(id: Long, alias: string, balance: Int)
}
