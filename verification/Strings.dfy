/** What the text-handling modules share: the quote, and that joining strings associates. */
module Strings {
  const QUOTE: char := '"'

  lemma Assoc(a: string, b: string, c: string)
    ensures (a + b) + c == a + (b + c)
  {
  }
}
