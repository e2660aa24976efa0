/** The value objects an Address is built from. Each one is kept at its
    boundary: only what the Address entity does with it is modelled. */
module Values {

  /** Why building an Address failed. PHP raises a TypeError when an
      argument does not match a typed constructor parameter; `argument`
      names the parameter (and the array key it came from). */
  datatype Error = TypeError(argument: string)

  datatype Result<T> = Ok(value: T) | Err(error: Error)

  /** Identifier of the owning wallet: an opaque value compared by value. */
  datatype WalletId = WalletId(id: string)

  /** An entity creation time. A PHP `clone` of a \DateTime is a second
      object with the same value, so in this value model a clone is the
      value itself. */
  datatype DateTime = DateTime(instant: int)

  /** One value stored under a key of an entity's array form. */
  datatype Entry =
    | Str(s: string)
    | Time(t: DateTime)
      /** a WalletId object, the only thing a typed WalletId parameter accepts */
    | WalletIdObject(w: WalletId)
      /** the array that WalletId's own toArray produces for `arrayOf`; its
          layout belongs to WalletId, and it is NOT a WalletId object */
    | WalletIdArray(arrayOf: WalletId)
}
