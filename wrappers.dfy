/** Option and result types shared by every module of the model, and the
    exception kinds the system raises. */
module Wrappers {

  datatype Option<T> = None | Some(value: T)

  /** The exceptions raised by the services, validators and the store. */
  datatype Error =
    | ValidationError(message: string)   // django.core.exceptions.ValidationError
    | DoesNotExist                       // Model.objects.get found no row
    | IntegrityError                     // a unique constraint of the store was violated
    | ProtectedError                     // delete of a row still referenced through on_delete=PROTECT
    | ValueError(message: string)
    | Exception(message: string)         // a plain `raise Exception(...)`

  /** A call that returns a value or raises. */
  datatype Result<T> = Success(value: T) | Failure(error: Error)

  /** A call that returns nothing or raises (the `clean()` validators). */
  datatype Outcome = Pass | Fail(error: Error)
}
