/** What the authentication core keeps in the store. Redis holds text; a
    token is kept as its compact text, which determines the token, so the
    model keeps the token itself and compares stored values as values. */
module StoredValues {
  import opened JwtCodec

  datatype Value = Str(text: string) | Tok(token: Token)

  /** The text a client of the store reads back. */
  function Text(v: Value): (text: string)
  {
    match v
    case Str(text) => text
    case Tok(token) => Compact(token)
  }
}
