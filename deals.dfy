/**
 * The records the pipeline passes around. Their Python definitions live in a
 * `deals.py` module that is not part of this model; only the fields the core
 * reads are kept.
 */
module Deals {

  /** A deal as the summarising service returns it: product_description, price, url. */
  datatype Deal = Deal(description: string, price: real, url: string)

  /** A deal paired with its estimated fair price and the resulting discount. */
  datatype Opportunity = Opportunity(deal: Deal, estimate: real, discount: real)

  /** The structured output of the summarising service: a list of deals. */
  datatype DealSelection = DealSelection(deals: seq<Deal>)

  /**
   * A raw listing from the RSS feeds. The core only reads its url and hands
   * the whole listing to an abstract `describe`; the rest of the listing is
   * kept as an opaque payload.
   */
  datatype ScrapedDeal = ScrapedDeal(url: string, payload: string)
}
