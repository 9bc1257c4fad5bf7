/** Identifiers, currencies and account codes as opaque names; amounts; optional values. */
module Names {
  datatype Name = Name(text: string)

  /** Decimal amounts, without context rounding. */
  type Money = real

  datatype Option<+T> = None | Some(value: T)
}
