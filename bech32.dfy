/**
 * The Bech32 data alphabet and separator (BIP 173, section "Bech32"), and
 * the notion of a valid vanity string built on them.
 */
module Bech32 {

  /** `BECH32_CHARSET`: the 32 data symbols, in value order 0..31. */
  const Charset: seq<char> :=
    ['q', 'p', 'z', 'r', 'y', '9', 'x', '8', 'g', 'f', '2', 't', 'v', 'd', 'w', '0',
     's', '3', 'j', 'n', '5', '4', 'k', 'h', 'c', 'e', '6', 'm', 'u', 'a', '7', 'l']

  /** `BECH32_SEPARATOR`: the character between the human-readable part and the data. */
  const Separator: char := '1'

  /** `BECH32_CHARSET.contains(&c)`. */
  predicate IsDataChar(c: char) {
    c in Charset
  }

  /** A vanity string the searcher accepts: every character is a data symbol. */
  predicate IsValidVanity(vanity: string) {
    forall i :: 0 <= i < |vanity| ==> IsDataChar(vanity[i])
  }

  /** The alphabet has 32 symbols, no two alike, so each is the digit of exactly one 5-bit value. */
  lemma CharsetIsAlphabet()
    ensures |Charset| == 32
    ensures forall i, j :: 0 <= i < j < |Charset| ==> Charset[i] != Charset[j]
  {
  }

  /** The separator is not a data symbol. */
  lemma SeparatorNotInCharset()
    ensures !IsDataChar(Separator)
  {
  }

  /** Hence a valid vanity string never contains the separator. */
  lemma ValidVanityHasNoSeparator(vanity: string)
    requires IsValidVanity(vanity)
    ensures Separator !in vanity
  {
    SeparatorNotInCharset();
  }
}
