/** The product documents the recommender reads (the fields it uses). */
module Products {
  datatype Keynote = Keynote(name: string)

  /** One bottle size of a product and its price. */
  datatype CapacityEntry = CapacityEntry(volume: int, price: int)

  datatype Product = Product(
    name: string,
    description: string,
    keynotes: seq<Keynote>,
    capacityInML: seq<CapacityEntry>)
}
