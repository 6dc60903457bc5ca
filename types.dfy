/** The records of the application (types.ts). Numbers are `real`, strings
    are `seq<char>`; the string unions become enumerations. */
module Types {

  datatype CropListing = CropListing(
    id: string,
    name: string,
    farm: string,
    region: string,
    country: string,
    postedTime: string,
    price: real,
    priceUnit: string,
    priceChange: real,
    image: string,
    grade: string)

  datatype Seller = Seller(name: string, avatar: string, rating: real, reviews: real)

  datatype Specification = Specification(labelText: string, value: string)  // `label` is a Dafny keyword

  /** `CropDetails extends CropListing`: the listing part is kept as a field. */
  datatype CropDetails = CropDetails(
    listing: CropListing,
    origin: string,
    available: string,
    images: seq<string>,
    seller: Seller,
    specifications: seq<Specification>,
    description: string)
  {
    function Id(): string { listing.id }
  }

  datatype TransactionType = Deposit | Withdrawal | Purchase | Sale

  datatype Transaction = Transaction(
    id: string,
    kind: TransactionType,
    title: string,
    date: string,
    amount: real)

  datatype Farm = Farm(name: string, reg: string, crops: string)

  datatype UserProfile = UserProfile(
    name: string,
    title: string,
    avatar: string,
    email: string,
    phone: string,
    location: string,
    farm: Farm)

  datatype Condition = Above | Below

  datatype PriceAlert = PriceAlert(
    cropId: string,
    cropName: string,
    targetPrice: real,
    condition: Condition)
}
