/**
 * The order service (internal/modules/order/service/order.go): id parsing,
 * the positive-id guard, and the classification of storage errors into
 * numeric codes. The storage is a parameter, as in the pet service.
 */
module OrderService {
  import opened Wrappers
  import opened Errors
  import opened Models
  import opened Strconv

  datatype ResponseDeleteOrderByID = ResponseDeleteOrderByID(status: bool, errorCode: int)
  datatype ResponseFindOrderByID = ResponseFindOrderByID(status: bool, errorCode: int, order: Order)
  datatype ResponseCreateOrder = ResponseCreateOrder(status: bool, errorCode: int, id: int)
  datatype RequestCreateOrder = RequestCreateOrder(
    petId: int, quantity: int, shipDate: Instant, status: string, complete: bool)

  /** The text the order adapter gives a delete that matched no row (sql_order.go:68-70). */
  const OrderNotFoundText: string := "no order found with ID"

  /** The id a request text names when it is usable: it parses and is positive. */
  predicate UsableId(s: string)
  {
    Atoi(s).Some? && Atoi(s).value > 0
  }

  /**
   * DeleteOrderByID (order.go:23-58): the adapter's not-found error, told
   * apart by its text, is OrderServiceDeleteByIDNotFoundID; any other
   * storage error is internal.
   */
  function DeleteOrderByID(orderIDstr: string, storage: int -> Option<Error>): (out: ResponseDeleteOrderByID)
    ensures out.status <==> out.errorCode == NoError
    ensures out.errorCode == DeleteOrderByIDErrorDuringConversion <==> Atoi(orderIDstr).None?
    ensures out.errorCode == DeleteOrderByIDErrorIDLessZero <==> Atoi(orderIDstr).Some? && Atoi(orderIDstr).value <= 0
    ensures out.errorCode == OrderServiceDeleteByIDNotFoundID <==>
      UsableId(orderIDstr) && storage(Atoi(orderIDstr).value).Some?
      && Message(storage(Atoi(orderIDstr).value).value) == OrderNotFoundText
    ensures out.errorCode == OrderServiceDeleteByIDIternalErr <==>
      UsableId(orderIDstr) && storage(Atoi(orderIDstr).value).Some?
      && Message(storage(Atoi(orderIDstr).value).value) != OrderNotFoundText
    ensures out.status <==> UsableId(orderIDstr) && storage(Atoi(orderIDstr).value).None?
  {
    match Atoi(orderIDstr)
    case None => ResponseDeleteOrderByID(false, DeleteOrderByIDErrorDuringConversion)
    case Some(orderID) =>
      if orderID <= 0 then ResponseDeleteOrderByID(false, DeleteOrderByIDErrorIDLessZero)
      else match storage(orderID)
        case Some(e) =>
          if Message(e) == OrderNotFoundText then ResponseDeleteOrderByID(false, OrderServiceDeleteByIDNotFoundID)
          else ResponseDeleteOrderByID(false, OrderServiceDeleteByIDIternalErr)
        case None => ResponseDeleteOrderByID(true, NoError)
  }

  /**
   * FindOrderByID (order.go:60-96): sql.ErrNoRows, compared by identity, is
   * OrderServiceFindByIDNotFoundID; any other storage error is internal; a
   * found order is returned unchanged.
   */
  function FindOrderByID(orderIDstr: string, storage: int -> Result<Order, Error>): (out: ResponseFindOrderByID)
    ensures out.status <==> out.errorCode == NoError
    ensures out.errorCode == FindOrderByIDErrorDuringConversion <==> Atoi(orderIDstr).None?
    ensures out.errorCode == FindOrderByIDErrorIDLessZero <==> Atoi(orderIDstr).Some? && Atoi(orderIDstr).value <= 0
    ensures out.errorCode == OrderServiceFindByIDNotFoundID <==>
      UsableId(orderIDstr) && storage(Atoi(orderIDstr).value) == Err(NoRows)
    ensures out.errorCode == OrderServiceFindByIDIternalErr <==>
      UsableId(orderIDstr) && storage(Atoi(orderIDstr).value).Err? && storage(Atoi(orderIDstr).value) != Err(NoRows)
    ensures out.status <==> UsableId(orderIDstr) && storage(Atoi(orderIDstr).value).Ok?
    ensures out.status ==> out.order == storage(Atoi(orderIDstr).value).value
    ensures !out.status ==> out.order == ZeroOrder
  {
    match Atoi(orderIDstr)
    case None => ResponseFindOrderByID(false, FindOrderByIDErrorDuringConversion, ZeroOrder)
    case Some(orderID) =>
      if orderID <= 0 then ResponseFindOrderByID(false, FindOrderByIDErrorIDLessZero, ZeroOrder)
      else match storage(orderID)
        case Err(e) =>
          if e == NoRows then ResponseFindOrderByID(false, OrderServiceFindByIDNotFoundID, ZeroOrder)
          else ResponseFindOrderByID(false, OrderServiceFindByIDIternalErr, ZeroOrder)
        case Ok(order) => ResponseFindOrderByID(true, NoError, order)
  }

  /**
   * Neither lookup reaches the storage unless the id is usable; two
   * storages that agree on that id give the same outcome.
   */
  lemma OrderLookupsNeedUsableId(orderIDstr: string,
                                 d1: int -> Option<Error>, d2: int -> Option<Error>,
                                 f1: int -> Result<Order, Error>, f2: int -> Result<Order, Error>)
    requires UsableId(orderIDstr) ==> d1(Atoi(orderIDstr).value) == d2(Atoi(orderIDstr).value)
    requires UsableId(orderIDstr) ==> f1(Atoi(orderIDstr).value) == f2(Atoi(orderIDstr).value)
    ensures DeleteOrderByID(orderIDstr, d1) == DeleteOrderByID(orderIDstr, d2)
    ensures FindOrderByID(orderIDstr, f1) == FindOrderByID(orderIDstr, f2)
  {
  }

  /**
   * The two lookups tell "not found" apart differently: a wrapped error
   * that reads like the sentinel is not the sentinel, while the delete
   * path goes by the text alone.
   */
  lemma {:induction false} NotFoundClassification(orderIDstr: string)
    requires UsableId(orderIDstr)
    ensures FindOrderByID(orderIDstr, _ => Err(NoRows)).errorCode == OrderServiceFindByIDNotFoundID
    ensures FindOrderByID(orderIDstr, _ => Err(Failure(Message(NoRows)))).errorCode == OrderServiceFindByIDIternalErr
    ensures DeleteOrderByID(orderIDstr, _ => Some(Failure(OrderNotFoundText))).errorCode
      == OrderServiceDeleteByIDNotFoundID
    ensures DeleteOrderByID(orderIDstr, _ => Some(Failure("failed to get rows affected: " + OrderNotFoundText))).errorCode
      == OrderServiceDeleteByIDIternalErr
  {
    assert "failed to get rows affected: " + OrderNotFoundText != OrderNotFoundText by {
      assert |"failed to get rows affected: " + OrderNotFoundText| != |OrderNotFoundText|;
    }
  }

  /** Zero, negative and signed ids: "0" and "-7" fail the guard, "+7" is order 7. */
  lemma {:induction false} IdGuardExamples()
    ensures Atoi("0") == Some(0) && !UsableId("0")
    ensures Atoi("-7") == Some(-7) && !UsableId("-7")
    ensures Atoi("+7") == Some(7) && UsableId("+7")
    ensures Atoi("7a") == None && Atoi("") == None
  {
    AtoiFormatInt(0);
    assert FormatInt(0) == "0";
    AtoiFormatInt(-7);
    assert FormatInt(-7) == "-7";
    assert Atoi("+7") == Some(7) by {
      assert "+7"[1..] == "7";
    }
    AtoiRejectsNonDigit("7a", 1);
  }

  /** The order CreateOrder hands to the storage: the request's fields, no id yet. */
  function OrderModel(req: RequestCreateOrder): Order
  {
    Order(0, req.petId, req.quantity, req.shipDate, req.status, req.complete)
  }

  /**
   * CreateOrder (order.go:98-119): the request's fields go to the storage
   * unchanged; the storage's id comes back on success.
   */
  function CreateOrder(req: RequestCreateOrder, storage: Order -> Result<int, Error>): (out: ResponseCreateOrder)
    ensures out.status <==> out.errorCode == NoError
    ensures out.status <==> storage(OrderModel(req)).Ok?
    ensures out.status ==> out.id == storage(OrderModel(req)).value
    ensures !out.status ==> out.errorCode == OrderServiceCreateOrderErr && out.id == 0
  {
    match storage(OrderModel(req))
    case Err(_) => ResponseCreateOrder(false, OrderServiceCreateOrderErr, 0)
    case Ok(id) => ResponseCreateOrder(true, NoError, id)
  }
}
