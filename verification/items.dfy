/** The scraped lead: the eight fields of `LeadScraperItem`. */
module Items {

  /** One lead, field for field: search term, state, city, neighbourhood,
      business name, address, phone, website. */
  datatype Item = Item(
    term: string,
    state: string,
    city: string,
    neighbourhood: string,
    name: string,
    address: string,
    phone: string,
    website: string)
}
