/** The errors a manifest decode reports, from the scalar codecs up to the whole file. */
module DecodeErrors {
  /** Every way decoding a manifest can fail. */
  datatype DecodeError =
    | UnknownField(key: string)       // a key or section the record does not declare
    | DuplicateField(key: string)     // a key given twice
    | MissingField(key: string)       // a required key that never appeared
    | InvalidBoolean(text: string)    // neither `true` nor `false`
    | InvalidBundleType(text: string) // not one of the three variant names
}
