/**
 * The birthday/height duality of a seed: a seed stores a creation timestamp and
 * a chain height, either of which may be 0 (unset); the accessors derive an unset
 * one from the other through the network estimators, without storing the result.
 */
module Seeds {
  import opened Common
  import opened SeedLanguages

  datatype Network = Main | Test | Stage

  /** The holder of one secret key that every seed owns. */
  datatype KeyStore = KeyStore(key: SecretKey)

  /** The stored state the accessors read. */
  datatype Seed = Seed(network: Network, birthday: uint64, height: uint64, store: KeyStore)

  /** `OTS::timestampFromHeight(height, network)`, supplied by the caller. */
  type TimestampFromHeight = (uint64, Network) -> uint64

  /** `OTS::heightFromTimestamp(timestamp, network)`, supplied by the caller. */
  type HeightFromTimestamp = (uint64, Network) -> uint64

  /** `birthday()`: the stored timestamp, or one estimated from the stored height. */
  function Birthday(s: Seed, timestampFromHeight: TimestampFromHeight): (r: uint64)
    ensures s.birthday != 0 ==> r == s.birthday
  {
    if s.birthday != 0 then s.birthday else timestampFromHeight(s.height, s.network)
  }

  /** `height()`: the stored height, or one estimated from a stored timestamp. */
  function Height(s: Seed, heightFromTimestamp: HeightFromTimestamp): (r: uint64)
    ensures s.height != 0 ==> r == s.height
  {
    if s.height == 0 && s.birthday != 0 then heightFromTimestamp(s.birthday, s.network) else s.height
  }

  /** When both coordinates are stored, both accessors return them. */
  lemma StoredCoordinatesWin(s: Seed, tfh: TimestampFromHeight, hft: HeightFromTimestamp)
    requires s.birthday != 0 && s.height != 0
    ensures Birthday(s, tfh) == s.birthday && Height(s, hft) == s.height
  {
  }

  /** An unset height is estimated from the birthday the seed reports. */
  lemma HeightFromBirthday(s: Seed, tfh: TimestampFromHeight, hft: HeightFromTimestamp)
    requires s.height == 0 && s.birthday != 0
    ensures Height(s, hft) == hft(Birthday(s, tfh), s.network)
  {
  }

  /** An unset birthday is estimated from the height the seed reports, which is the stored one. */
  lemma BirthdayFromHeight(s: Seed, tfh: TimestampFromHeight, hft: HeightFromTimestamp)
    requires s.birthday == 0
    ensures Height(s, hft) == s.height
    ensures Birthday(s, tfh) == tfh(Height(s, hft), s.network)
  {
  }

  /**
   * The derived birthday is not cached: with neither coordinate stored, `birthday()`
   * estimates from height 0 and `height()` still reports 0.
   */
  lemma NothingStoredNothingCached(s: Seed, tfh: TimestampFromHeight, hft: HeightFromTimestamp)
    requires s.birthday == 0 && s.height == 0
    ensures Birthday(s, tfh) == tfh(0, s.network)
    ensures Height(s, hft) == 0
  {
  }

  /** `languageSupported(lang)`: whether `lang` supports Monero seeds. */
  function LanguageSupported(s: Seed, cat: Catalogue, lang: SeedLanguage): (r: bool)
    ensures forall other :: r == Supported(cat, other, Monero)
  {
    Supported(cat, lang, Monero)
  }

  /** The answer depends neither on the seed nor on the language asked about. */
  lemma LanguageSupportedIsConstant(s1: Seed, s2: Seed, cat: Catalogue, a: SeedLanguage, b: SeedLanguage)
    ensures LanguageSupported(s1, cat, a) == LanguageSupported(s2, cat, b)
    ensures LanguageSupported(s1, cat, a) == Supported(cat, a, Monero)
  {
  }

  /**
   * The default constructor: network `Main` and a key store of its own. The
   * constructor does not initialise `m_birthday` or `m_height`; any initial
   * value comes from a class declaration that is not shown, so they are parameters.
   */
  function DefaultSeed(store: KeyStore, birthday: uint64, height: uint64): (s: Seed)
    ensures s.network == Main && s.store == store
    ensures s.birthday == birthday && s.height == height
  {
    Seed(Main, birthday, height, store)
  }
}
