/** The domain records of internal/models (pet_dto.go, order_dto.go). */
module Models {

  datatype Category = Category(id: int, name: string)

  datatype Tag = Tag(id: int, name: string)

  datatype Pet = Pet(
    id: int,
    category: Category,
    name: string,
    photoUrls: seq<string>,
    tags: seq<Tag>,
    status: string)

  /** Go's zero value `models.Pet{}` (nil slices are empty sequences). */
  const ZeroPet: Pet := Pet(0, Category(0, ""), "", [], [], "")

  /** The shipping date is a `time.Time`; the model keeps it as an opaque instant. */
  type Instant = int

  datatype Order = Order(
    id: int,
    petId: int,
    quantity: int,
    shipDate: Instant,
    status: string,
    complete: bool)

  /** Go's zero value `models.Order{}`. */
  const ZeroOrder: Order := Order(0, 0, 0, 0, "", false)
}
