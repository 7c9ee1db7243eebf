/** Failure-carrying values shared by the whole model: an optional value, and
    the outcome of a Python call that either returns or raises. */
module Wrappers {

  datatype Option<+T> = None | Some(value: T) {
    predicate IsFailure() {
      None?
    }

    function PropagateFailure<U>(): Option<U>
      requires None?
    {
      None
    }

    function Extract(): T
      requires Some?
    {
      value
    }

    function GetOr(default: T): T {
      match this
      case Some(v) => v
      case None => default
    }
  }

  /** The exception classes the crawler's code can raise or catch. */
  datatype Exception =
    | IndexError              // `string[-1]` on '', or no free driver slot
    | ValueError              // int()/float()/strptime rejections, pd.concat([]), array_split(_, 0)
    | TypeError               // `'likes' in None`, `str + None`, len() of a 0-d array
    | ZeroDivisionError       // `len(array) // 0` with an empty driver pool
    | AttributeError          // `logger.WARNING(...)`
    | NoSuchElementException  // a page element that is not there
    | TimeoutException        // WebDriverWait gave up
    | ElementClickInterceptedException
    | WebDriverException      // any other driver failure, never caught

  /** A Python call: it returns a value or raises an exception. */
  datatype Result<+T> = Ok(value: T) | Err(error: Exception) {
    predicate IsFailure() {
      Err?
    }

    function PropagateFailure<U>(): Result<U>
      requires Err?
    {
      Err(error)
    }

    function Extract(): T
      requires Ok?
    {
      value
    }
  }
}
