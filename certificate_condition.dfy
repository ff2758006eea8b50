/**
 * `CertificateCondition`: a named condition of the rule document, holding
 * its JsonLogic text, its violation message, and a cache that the first
 * successful parse fills.
 */
module CertificateConditions {
  import opened Wrappers
  import opened Results

  /** A parsed JsonLogic rule. The JsonLogic library is not part of this model. */
  type JsonLogic

  class CertificateCondition {
    const logic: string
    const localizedViolationDescription: Option<LocalizedValue>
    var cache: Option<JsonLogic>

    constructor (logic: string, localizedViolationDescription: Option<LocalizedValue>)
      ensures this.logic == logic
      ensures this.localizedViolationDescription == localizedViolationDescription
      ensures cache.None?
    {
      this.logic := logic;
      this.localizedViolationDescription := localizedViolationDescription;
      cache := None;
    }

    /** The cache holds nothing but the parse of `logic`. */
    ghost predicate Valid(parse: string -> Option<JsonLogic>)
      reads this
    {
      cache.Some? ==> cache == parse(logic)
    }

    /**
     * `parsedJsonLogic()`: a filled cache is returned as it is; otherwise
     * `logic` is parsed, and a successful parse is stored. A failed parse
     * (`None`, where Swift throws) leaves the cache empty.
     */
    method ParsedJsonLogic(parse: string -> Option<JsonLogic>) returns (r: Option<JsonLogic>)
      modifies this`cache
      ensures old(cache).Some? ==> r == old(cache) && cache == old(cache)
      ensures old(cache).None? ==> r == parse(logic) && cache == r
      ensures old(Valid(parse)) ==> Valid(parse) && r == parse(logic)
    {
      if cache.Some? {
        return cache;
      }
      r := parse(logic);
      if r.Some? {
        cache := r;
      }
    }
  }
}
