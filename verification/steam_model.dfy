/**
 * The records the crawler stores and the query layer reads.
 *
 * An app's details are the `data` object of the store API's `appdetails`
 * answer; only the keys the code reads are modelled. A key that may be
 * missing is an `Option`.
 */
module SteamModel {
  import opened Base
  import opened Dicts

  /** An element of `genres` or `categories`: `{'description': ...}`. */
  datatype Desc = Desc(description: Option<string>)

  /** `price_overview`; `initial` is the price in cents. */
  datatype PriceOverview = PriceOverview(initial: Option<int>)

  /** An app's details. `isFree` is false also when `is_free` is absent (both are falsy). */
  datatype App = App(
    name: Option<string>,
    appType: Option<string>,
    isFree: bool,
    priceOverview: Option<PriceOverview>,
    genres: Option<seq<Desc>>,
    categories: Option<seq<Desc>>,
    developers: Option<seq<string>>,
    publishers: Option<seq<string>>)

  /**
   * One entry of a store search listing. An absent `logo` reads as `""`, as
   * `item.get('logo', '')` does. `appid` is the key the crawler adds; `None`
   * stands for Python's `None` and for a missing key. Other keys of an entry
   * are carried along untouched and are not modelled.
   */
  datatype SearchItem = SearchItem(logo: string, appid: Option<int>)

  /** `if app_id:` / `if not aid:` — an id is truthy when present and non-zero. */
  predicate TruthyId(id: Option<int>) {
    id.Some? && id.value != 0
  }

  /** The apps ledger: app id to details, in insertion order. */
  type AppsDict = Dict<int, App>

  /** The contents of a checkpoint pickle: the apps dict, or a list of app ids. */
  datatype Blob = AppsBlob(apps: AppsDict) | IdsBlob(ids: seq<int>)
}
