/**
 * The error values and numeric error codes of the pet store
 * (internal/infrastructure/errors and the driver's sql.ErrNoRows).
 */
module Errors {

  /**
   * A Go `error` as far as the code under study can tell errors apart:
   * by identity with a sentinel (`==`) or by its `Error()` text.
   * Wrapping an error with fmt.Errorf produces a `Failure` with a new text,
   * so it no longer equals a sentinel.
   */
  datatype Error =
    | PetNotFound            // errors.ErrPetNotFound
    | NoRows                 // sql.ErrNoRows
    | Failure(msg: string)   // any other error, known only by its text

  /** The `Error()` text of an error. */
  function Message(e: Error): string
  {
    match e
    case PetNotFound => "no pet found with the provided id"
    case NoRows => "sql: no rows in result set"
    case Failure(msg) => msg
  }

  // Numeric codes (numeric.go). The first block starts at iota 0, the
  // service block at iota + 2000; the values below are those iota yields.
  const NoError: int := 0
  const InternalError: int := 1
  const GeneralError: int := 2

  const AddPetErr: int := 2014
  const PetServiceUpdateErr: int := 2015
  const PetServiceFindPetbyStatus: int := 2016
  const FindPetbyIDErrorDuringConversion: int := 2017
  const PetServiceFindPetbyID: int := 2018
  const PetServiceErrPetNotFound: int := 2019
  const UpdatePetFormErrorDuringConversion: int := 2020
  const PetServiceUpdatePetFormBadReuest: int := 2021
  const UpdatePetFormError: int := 2022
  const OrderServiceCreateOrderErr: int := 2023
  const FindOrderByIDErrorDuringConversion: int := 2024
  const FindOrderByIDErrorIDLessZero: int := 2025
  const OrderServiceFindByIDNotFoundID: int := 2026
  const OrderServiceFindByIDIternalErr: int := 2027
  const DeleteOrderByIDErrorDuringConversion: int := 2028
  const DeleteOrderByIDErrorIDLessZero: int := 2029
  const OrderServiceDeleteByIDNotFoundID: int := 2030
  const OrderServiceDeleteByIDIternalErr: int := 2031
}
