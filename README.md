# w3multicall in Dafny

This project models the core of w3multicall, a Python library that batches
many read-only contract calls into one Multicall3 `aggregate` request and
spreads those requests over a pool of rate-limited node connections. It also
proves properties of the model. Three parts are modelled:

- **Building a batch and decoding its answer** (`multicall.py`):
  - a call's signature such as `balanceOf(address)(uint256)` is split into a
    function text, input types and output types;
  - each call's payload is its selector followed by its encoded arguments;
  - the aggregate request carries every call's `[address, data]` pair;
  - the node's answer is decoded into one result per call.
- **The batching executor** (`threading/w3multicall_executor.py`):
  - submitted calls collect in one pending task under keys 0, 1, 2, …;
  - the task is handed to the worker pool once it is a tick old or full;
  - executing a task stores one result per key, or the exception;
  - each future answers for its own key.
- **The endpoint pool** (`web3/web3.py`):
  - an endpoint may be used once per delay;
  - the pool hands out the first endpoint that is usable now;
  - otherwise, when blocking, it waits for the endpoint with the shortest wait.

Files:

| file | module | contents |
|---|---|---|
| `values.dfy` | `PyValues` | Python values (`None`, bool, int, str, bytes, list, tuple), truthiness, the exceptions raised, `Option`/`Result` |
| `signature.dfy` | `SignatureParsing` | `_parse_signature` and `_parse_type_string` as loop methods, proved equal to definitions stated over positions in the text |
| `signature_format.dfy` | `SignatureFormat` | the inverse direction: a signature written from well-formed types parses back to its pieces; concrete signatures |
| `multicall.dfy` | `Multicall` | payload encoding, aggregate arguments, output decoding, `W3Multicall.Call`, the `W3Multicall` class |
| `executor.dfy` | `Executor` | `Task`, `Future` and `W3MulticallExecutor` without threads |
| `web3.dfy` | `Web3Pool` | `W3` and `W3Pool` |

Where the code and its docstring disagree, the model follows the code:

- **The function text of a parsed signature.** The docstring of
  `_parse_signature` says that `func(address)(uint256)` gives `func`. The code
  returns `func(address)`, the name together with its input group
  (`SignatureFormat.DocCommentExample`).

Notes on behaviour the model keeps as the code has it:

- **The blocking path of `W3Pool.use`.** It waits once for the chosen
  endpoint and uses that same endpoint. It does not scan the pool again after
  sleeping.
- **`usable_in`.** It is not clamped at zero; a negative value means the
  endpoint became usable that long ago.
- **No lock in the pool.** `W3Pool.use` takes no lock, so selection and
  marking an endpoint used are not atomic (concurrency is not modelled anyway).

## Model

| member | source | states |
|---|---|---|
| SignatureParsing.ParseSignature | src/w3multicall/multicall.py:14-35 | The result is exactly `SignatureSpec`. A `)` with nothing to close, or fewer than two outermost groups, raises IndexError. Otherwise the result is the text up to the end of the first outermost group, then the type lists of that group and of the text up to the end of the second group. |
| SignatureParsing.JoinParts | src/w3multicall/multicall.py:32-35 | Once the whole signature is read: fewer than three parts raise IndexError; otherwise `''.join(parts[:2])` and the type lists of `parts[1]` and `parts[2]` give `SignatureSpec`. |
| SignatureParsing.ScanOpenFirst | src/w3multicall/multicall.py:22-26 | The first `(` makes the text before it the first part, and the next part starts at that `(`. |
| SignatureParsing.ScanClose | src/w3multicall/multicall.py:27-31 | A `)` that brings the depth back to zero appends the outermost group just closed, together with any text since the previous group, and moves `start` past it. |
| SignatureParsing.ScanOther | src/w3multicall/multicall.py:21-31 | Every other character leaves `parts` and `start` unchanged. |
| SignatureParsing.UnderflowFails | src/w3multicall/multicall.py:27-28 | If some prefix closes more parentheses than it opens, `stack.pop()` fails and the whole parse raises IndexError. |
| SignatureParsing.PartsFinal | src/w3multicall/multicall.py:32-34 | For a text that never underflows: `parts[0]` is the text before the first `(`, and `parts[1]`, `parts[2]` are the first two outermost groups. |
| SignatureParsing.FirstGroupShape | src/w3multicall/multicall.py:21-31 | The first outermost group starts at the first `(` and no parenthesis comes before it. It ends at the first `)` that returns the depth to zero, and the depth stays positive inside it, so nested tuples never end it early. |
| SignatureParsing.SignatureNameIsFirstGroup | src/w3multicall/multicall.py:32 | The function text is the signature up to the end of the first group: the name with its input group, not the bare name. |
| SignatureParsing.SignatureIgnoresTail | src/w3multicall/multicall.py:21-35 | Text after the second group (more groups, anything else) does not change the result, as long as it does not close an unopened parenthesis. |
| SignatureParsing.ClosePointsMember | src/w3multicall/multicall.py:27-31 | A position ends an outermost group exactly when its character is a `)` that brings the depth back to zero. |
| SignatureParsing.ParseTypeString | src/w3multicall/multicall.py:38-55 | The result is `TypeList`: `[]` for `()`; otherwise the fields of `typestring[1:-1]` between its commas at depth zero. |
| SignatureParsing.TopCommasMember | src/w3multicall/multicall.py:45-52 | A comma separates two parts exactly when the text before it has as many `(` as `)`. |
| SignatureParsing.FieldsStepComma | src/w3multicall/multicall.py:49-52 | A comma at depth zero closes the current part and starts an empty one. |
| SignatureParsing.FieldsStepOther | src/w3multicall/multicall.py:45-53 | Every other character, parentheses and nested commas included, is appended to the current part. |
| SignatureParsing.TypeListJoin | src/w3multicall/multicall.py:38-55 | Round trip: for every input, `','.join(_parse_type_string(t))` equals `t[1:-1]`, so no character is lost or moved. |
| SignatureParsing.TypeListCount | src/w3multicall/multicall.py:44-54 | Except for `()`, the number of types is the number of commas at depth zero plus one. |
| SignatureFormat.TypeListOfGroup | src/w3multicall/multicall.py:38-55 | Inverse: if each `ti` is non-empty, balanced and has commas only inside parentheses, then `_parse_type_string` of `(t1,...,tn)` gives back `[t1, ..., tn]`, and `()` gives `[]`. |
| SignatureFormat.JoinAtoms | src/w3multicall/multicall.py:44-54 | Joining such types with commas gives balanced text whose depth-zero commas are exactly the joining ones. |
| SignatureFormat.TupleAtom | src/w3multicall/multicall.py:45-48 | A tuple type with a plain suffix, such as `(address,bytes)[]`, is kept as one type. |
| SignatureFormat.PlainAtom | src/w3multicall/multicall.py:49-53 | A type without parentheses or commas, such as `uint256`, is kept as one type. |
| SignatureFormat.FormatParses | src/w3multicall/multicall.py:14-35 | Inverse: `name(ins)(outs)`, with no parenthesis in `name` and well-formed types, parses to `(name(ins), ins, outs)`. |
| SignatureFormat.DocCommentExample | src/w3multicall/multicall.py:14-17 | `func(address)(uint256)` parses to `('func(address)', ['address'], ['uint256'])`. |
| SignatureFormat.NoInputsExample | src/w3multicall/multicall.py:39-40 | `totalSupply()(uint256)` parses to `('totalSupply()', [], ['uint256'])`. |
| Multicall.AggregateSignatureParses | src/w3multicall/multicall.py:106 | The aggregator's signature parses to the name `aggregate((address,bytes)[])`, inputs `['(address,bytes)[]']` and outputs `['uint256', 'bytes[]']`. |
| Multicall.EncodeData | src/w3multicall/multicall.py:58-59 | Falsy arguments give the selector alone. Otherwise the encoder is called: its error is raised, and on success the payload is the selector followed by the encoded arguments. It fails exactly when the arguments are truthy and the encoder raises. |
| Multicall.GetArgs | src/w3multicall/multicall.py:66-69 | `[pairs]` when `require_success is True`, else `[require_success, pairs]`; the last argument is always the list of `[address, data]` pairs. |
| Multicall.GetArgsRoundTrip | src/w3multicall/multicall.py:66-69 | Whatever `require_success` is, reading the pairs back from the arguments gives every call's address and data, in order. |
| Multicall.PairsOfCallPairs | src/w3multicall/multicall.py:68-69 | The list comprehension of pairs reads back as the calls' targets and payloads, one per call, in order. |
| Multicall.DecodeOutputByArity | src/w3multicall/multicall.py:72-98 | With a decoder that yields one value per type, `_decode_output` raises IndexError exactly for a call with no output types, unwraps one declared output and returns several as a tuple. |
| Multicall.DecodeOutput | src/w3multicall/multicall.py:72-98 | `success` false, or a decode that raises, gives None. One decoded value is unwrapped and several become a tuple. IndexError is raised exactly when decoding yields no value. |
| Multicall.ReturnData | src/w3multicall/multicall.py:139-140 | Every unpacked output has the success flag None. An answer the decoder rejects becomes None, so `aggregated[1]` raises TypeError. An empty decode raises IndexError. A two-value decode yields the items of its second value, in order, or TypeError when it cannot be iterated. |
| Multicall.UnpackAggregateOutputs | src/w3multicall/multicall.py:101-102 | One `(None, output)` pair per output, in order. |
| Multicall.RemoveSpaces | src/w3multicall/multicall.py:112 | No space remains, every other character is kept as often as it occurs, the length drops by the number of spaces, and text without spaces is unchanged. |
| Multicall.RemoveSpacesConcat | src/w3multicall/multicall.py:112 | Removal works piece by piece, so the kept characters stay in their order. |
| Multicall.NormaliseArgs | src/w3multicall/multicall.py:114-117 | `None`, lists and tuples are kept; any other single argument becomes a 1-tuple. |
| Multicall.NewCall | src/w3multicall/multicall.py:109-120 | A signature that fails to parse raises its error. A parsed signature whose arguments the encoder rejects raises the encoder's error, and nothing else fails. Otherwise the spaces are removed from the stored signature, the arguments are normalised, the parsed pieces are stored, the selector is taken from the function text, and the payload is that selector with the encoded arguments. |
| Multicall.W3Multicall.constructor | src/w3multicall/multicall.py:122-126 | The calls are a copy of the list given, or empty; `require_success` starts true. |
| Multicall.W3Multicall.Add | src/w3multicall/multicall.py:128-129 | Appends one call at the end and changes nothing else. |
| Multicall.W3Multicall.Call | src/w3multicall/multicall.py:131-145 | The result is `CallSpec`. An encoder failure on the aggregate arguments, a failure from the node and a failure decoding the aggregate answer are raised, in that order. Otherwise the i-th output is decoded against the i-th call's output types, stopping at the shorter list as `zip` does. IndexError is raised if some call yields no value. |
| Multicall.CallSpecIndexError | src/w3multicall/multicall.py:141-145 | With a decoder that yields one value per type, once the request succeeds and the answer unpacks, `call()` raises exactly when some call within the `zip` cut-off declares no output types and its output decodes, and the error is IndexError. |
| Executor.InOrder | src/w3multicall/threading/w3multicall_executor.py:90-91 | Iterating a task's keys visits its calls in submission order, one per key. |
| Executor.InOrderSnoc | src/w3multicall/threading/w3multicall_executor.py:118-119 | Adding a call under the next key `len(calls)` keeps the keys dense and puts the call last in key order. |
| Executor.Task.constructor | src/w3multicall/threading/w3multicall_executor.py:18-23 | A new task is stamped with the current time and has no calls, no results and no exception. |
| Executor.Task.Get | src/w3multicall/threading/w3multicall_executor.py:28-36 | On a resolved task, `get` raises the stored exception if there is one, even when results exist. Otherwise it returns the result under the key, or raises "Results not available or invalid key" exactly when the key has no result. |
| Executor.Task.StoreResults | src/w3multicall/threading/w3multicall_executor.py:99-103 | Stores `results[k]` under each key k in order. If there are fewer results than calls, IndexError is stored as the exception, and the results stored so far stay. |
| Executor.Future.constructor | src/w3multicall/threading/w3multicall_executor.py:39-41 | A future is bound to its task and key. |
| Executor.Future.Get | src/w3multicall/threading/w3multicall_executor.py:43-44 | A future answers with its task's outcome for its own key. |
| Executor.W3MulticallExecutor.constructor | src/w3multicall/threading/w3multicall_executor.py:46-63 | A new executor has no pending task and nothing dispatched. |
| Executor.W3MulticallExecutor.CheckPendingTask | src/w3multicall/threading/w3multicall_executor.py:77-84 | The pending task is detached and handed to the workers exactly when it is at least one tick old or holds `batch_max_size` calls; otherwise nothing changes. |
| Executor.W3MulticallExecutor.Submit | src/w3multicall/threading/w3multicall_executor.py:109-122 | The call goes into the pending task, which is newly stamped if there was none, under the next key `len(calls)`. Keys stay 0..n-1. The future names that task and key. The task is dispatched in the same call exactly when the flush rule holds. |
| Executor.W3MulticallExecutor.CancelPending | src/w3multicall/threading/w3multicall_executor.py:124-126 | The pending task is dropped without being dispatched or resolved, so its futures are orphaned. |
| Executor.W3MulticallExecutor.NewBatch | src/w3multicall/threading/w3multicall_executor.py:89-91 | The batch is built on the given connection and the executor's aggregator address, with the task's calls in key order. |
| Executor.W3MulticallExecutor.Execute | src/w3multicall/threading/w3multicall_executor.py:86-107 | The task is always resolved. A failed batch stores the exception and no results. A successful batch stores one result per key, or IndexError when the node returned fewer outputs than calls. |
| Executor.ExecutedTaskAnswers | src/w3multicall/threading/w3multicall_executor.py:28-36 | After a successful batch, key k answers with the k-th result and any other key raises "Results not available or invalid key". |
| Web3Pool.W3.constructor | src/w3multicall/web3/web3.py:9-14 | A new endpoint has never been used: `last_call_at` is 0. |
| Web3Pool.W3.Use | src/w3multicall/web3/web3.py:19-21 | Marks the endpoint used now and returns its connection; it is then usable again after one delay. |
| Web3Pool.W3.UsableAt | src/w3multicall/web3/web3.py:23-24 | The endpoint is usable again one delay after its last call, never before that call for a non-negative delay. |
| Web3Pool.W3.UsableIn | src/w3multicall/web3/web3.py:26-27 | The wait is zero or less exactly when `now` has reached `usable_at`. |
| Web3Pool.W3Pool.constructor | src/w3multicall/web3/web3.py:35-41 | The pool holds the endpoints given, in order. |
| Web3Pool.W3Pool.AddW3 | src/w3multicall/web3/web3.py:43-45 | Appends the endpoint at the end and returns the pool itself. |
| Web3Pool.W3Pool.Scan | src/w3multicall/web3/web3.py:53-62 | The scan stops at the first endpoint whose `usable_in` is at most 0. Otherwise the candidate is the earliest endpoint with the shortest wait, and there is no candidate only in an empty pool. |
| Web3Pool.FirstReadyIsFirst | src/w3multicall/web3/web3.py:55-60 | The index found is usable and none before it is; no index is found exactly when no endpoint is usable. |
| Web3Pool.EarliestMinIsEarliest | src/w3multicall/web3/web3.py:61-62 | The candidate's wait is the shortest, and every earlier endpoint waits strictly longer: the strict `<` makes the earliest index win a tie. |
| Web3Pool.W3Pool.Use | src/w3multicall/web3/web3.py:47-76 | A usable endpoint is handed out at once. An empty pool raises "No Web3 instance found". Without blocking the result is None and nothing changes. With blocking, the endpoint with the shortest wait is used once the wait is over, and its new last call is no earlier than its old `usable_at`. Only the endpoint handed out changes. Blocking without a logger raises. |
| Web3Pool.W3Pool.UseGuarded | src/w3multicall/web3/web3.py:67-74 | With the logger call guarded, blocking on a non-empty pool always hands out an endpoint; only an empty pool raises. |
| Web3Pool.LoggerlessBlockingUse | src/w3multicall/web3/web3.py:67-74 | A pool without a logger whose only endpoint must still wait raises when asked to block. |
| Web3Pool.GuardedBlockingUse | src/w3multicall/web3/web3.py:67-74 | The same request with the guarded call returns the endpoint, which is marked used when its delay is over. |

## Left out

- Threads, `threading.Condition`, the executor's lock, the worker pool and the
  background tick loop. Handing a task to the pool appends it to
  `dispatched`, and `Execute` is applied to a task by its caller.
- Executor.Task.Get: requires the task to be resolved. It does not model `get`
  waiting on the condition variable, including the single unlooped `wait()`.
- Executor.Future.Get: requires the task to be resolved, for the same reason.
- Executor.W3MulticallExecutor.Execute: takes the connection as a parameter
  instead of calling `w3_pool.use()`. An exception there is raised outside the
  `try`, so the task would never be resolved; the model does not capture that.
  It also leaves out the debug logging and the timing of the call.
- Wall-clock time is an integer `now` supplied by the caller:
  - `submit` and `__check_pending_task` read it once per call;
  - `W3Pool.use` reads it once per scan;
  - a blocking sleep is the requested wait plus a non-negative `overshoot`.
- Float delays and `limit_rate_per_seconds = 1 / delay`, including the
  ZeroDivisionError for a zero delay, are not modelled. `__repr__`, labels
  and log messages are not modelled either. A missing logger matters on
  exactly one path and is modelled as `MissingLogger`.
- The ABI encoder and decoder, the 4-byte selector hash and the node's
  `eth_call` are parameters (`Codec`, `Node`). The model does not say what
  bytes they produce, nor which values the encoder rejects; it only carries
  the encoder's error through. The decoder is assumed to yield one value per
  type only where a lemma requires `DecodesByArity`.
- Multicall.DecodeOutput: models `_decode_output` without `returns` handlers,
  which is how every call site in `multicall.py` uses it. The handler
  dictionary is not modelled.
- Multicall.W3Multicall.Call: Python's `aggregated[1]` and iteration are
  modelled for the value kinds in `PyValue` only.
- Web3Pool.W3Pool.constructor: the pool keeps its own sequence of endpoints.
  Python's `W3Pool` stores the caller's list itself, and `add_w3` appends
  to that same list, so the caller sees the new endpoint; that sharing is
  not modelled.
- Exception objects are not modelled by identity. A stored exception is
  re-raised as the same `Error` value to every `get`.
- The package's examples, tests and packaging are not part of this model.

## Findings

| source | as written | input that shows it | evidently intended | confidence | as-written member | corrected member |
|---|---|---|---|---|---|---|
| src/w3multicall/web3/web3.py:73 | `self.logger.debug(...)` runs without the `logger is not None` check that lines 58 and 70 make, so a pool built without a logger raises on every blocking `use` that has to wait | one endpoint with delay 10 last used at time 0, no logger, `use(block=True)` at time 5 | log only when a logger is given, and hand out the endpoint after the wait | high; not executed | Web3Pool.LoggerlessBlockingUse | Web3Pool.GuardedBlockingUse |
