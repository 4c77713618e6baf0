/**
 * Python-level values and errors shared by the multicall model.
 *
 * The library passes loosely typed Python objects around (call arguments,
 * decoded ABI values, the arguments of the aggregate call).  PyValue is the
 * small fragment of Python values that these code paths distinguish, and
 * Error names the exceptions they raise or store.
 */
module PyValues {

  newtype byte = x: int | 0 <= x < 256

  type Bytes = seq<byte>

  /** An Ethereum address as the text the caller supplied. */
  type Address = string

  /** An opaque handle on one upstream node connection (a `Web3` object). */
  datatype Web3 = Web3(endpoint: nat)

  /** An ABI type descriptor such as `uint256` or `(address,bytes)[]`. */
  type TypeStr = string

  datatype Option<+T> = None | Some(value: T)

  datatype Result<+T, +E> = Success(value: T) | Failure(error: E)

  datatype PyValue =
    | PyNone
    | PyBool(b: bool)
    | PyInt(i: int)
    | PyStr(s: string)
    | PyBytes(bs: Bytes)
    | PyList(items: seq<PyValue>)
    | PyTuple(items: seq<PyValue>)

  /** Python truthiness of the values the library tests with `if inputs`. */
  predicate Truthy(v: PyValue)
  {
    match v
    case PyNone => false
    case PyBool(b) => b
    case PyInt(i) => i != 0
    case PyStr(s) => s != []
    case PyBytes(bs) => bs != []
    case PyList(items) => items != []
    case PyTuple(items) => items != []
  }

  /** The exceptions raised or stored by the modelled code. */
  datatype Error =
    | IndexError                 // a Python list index or pop out of range
    | TypeError                  // subscripting or iterating a value that does not support it
    | NoWeb3Instance             // "No Web3 instance found": the endpoint pool is empty
    | ResultsUnavailable         // "Results not available or invalid key"
    | MissingLogger              // `None.debug(...)`: the pool has no logger on its blocking path
    | Transport(code: int)       // raised by the node's `eth_call`, opaque to this library
    | Encoding(code: int)        // raised by the ABI encoder for values that do not fit their types
}
