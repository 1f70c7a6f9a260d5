/** The scraper-facing record every source produces. Times are whole seconds. */
module Schemas {
  import opened Wrappers

  datatype RawListing = RawListing(
    source: string,
    externalId: string,
    url: string,
    title: string,
    category: Option<string>,
    locationName: Option<string>,
    lat: Option<real>,
    lon: Option<real>,
    photoUrl: Option<string>,
    currency: string,
    priceValue: real,
    unitCount: Option<int>,
    weightKg: Option<real>,
    postedAt: Option<int>)

  /** The store's identity of a listing. */
  type ListingKey = (string, string)

  function KeyOf(raw: RawListing): ListingKey {
    (raw.source, raw.externalId)
  }

  /**
   * The record every scraper builds: no location, coordinates, unit count,
   * weight or posting time, and the currency EUR.
   */
  function ScrapedRaw(source: string, externalId: string, url: string, title: string,
                      category: Option<string>, photoUrl: Option<string>,
                      priceValue: real): (r: RawListing)
    ensures KeyOf(r) == (source, externalId) && r.title == title && r.url == url
    ensures r.currency == "EUR" && r.priceValue == priceValue
    ensures r.lat.None? && r.lon.None? && r.unitCount.None? && r.weightKg.None?
  {
    RawListing(source, externalId, url, title, category, None, None, None, photoUrl, "EUR",
               priceValue, None, None, None)
  }
}
