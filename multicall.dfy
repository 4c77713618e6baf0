/**
 * Building one Multicall3 `aggregate` request out of many calls and
 * shaping its answer back into one result per call (multicall.py).
 *
 * The ABI codec and the selector hash are not modelled: a Codec value
 * carries them as functions; encoding returns the error the encoder
 * raises, and decoding returns None where the decoder would raise.  The node's `eth_call` is likewise a function from the
 * connection, target address and payload to the raw answer or an error.
 */
module Multicall {
  import opened PyValues
  import opened SignatureParsing
  import SignatureFormat

  /** The ABI codec and the 4-byte selector derivation this library calls into. */
  datatype Codec = Codec(
    encode: (seq<TypeStr>, PyValue) -> Result<Bytes, Error>,
    decode: (seq<TypeStr>, PyValue) -> Option<seq<PyValue>>,
    selector: string -> Bytes)

  /** `w3.eth.call({'to': address, 'data': data})` on a given connection. */
  type Node = (Web3, Address, Bytes) -> Result<Bytes, Error>

  /** The public Multicall3 deployment, the default target of every batch. */
  const MulticallAddress: Address := "0xcA11bde05977b3631167028862bE2a173976CA11"

  /** The aggregator's signature and what `_parse_signature` makes of it. */
  const AggregateName: string := "aggregate((address,bytes)[])"
  const AggregateSignature: string := AggregateName + "(uint256,bytes[])"
  const AggregateInputTypes: seq<TypeStr> := ["(address,bytes)[]"]
  const AggregateOutputTypes: seq<TypeStr> := ["uint256", "bytes[]"]

  /**
   * The class-level constants: parsing the aggregator's signature keeps
   * the tuple-array input as one type and splits the outputs at the
   * top-level comma only.
   */
  lemma AggregateSignatureParses()
    ensures SignatureSpec(AggregateSignature) == Success(ParsedSignature(AggregateName, AggregateInputTypes, AggregateOutputTypes))
  {
    SignatureFormat.AggregateAtoms();
    SignatureFormat.AggregateText();
    SignatureFormat.FormatParses("aggregate", AggregateInputTypes, AggregateOutputTypes);
  }

  /*** Payloads ***/

  /**
   * `_encode_data`: the selector, followed by the encoded arguments when
   * there are any (`if inputs` is Python truthiness); an encoder error
   * propagates.
   */
  function EncodeData(codec: Codec, selector: Bytes, inputTypes: seq<TypeStr>, inputs: PyValue): (r: Result<Bytes, Error>)
    ensures !Truthy(inputs) ==> r == Success(selector)
    ensures r.Failure? <==> Truthy(inputs) && codec.encode(inputTypes, inputs).Failure?
    ensures r.Failure? ==> r.error == codec.encode(inputTypes, inputs).error
    ensures r.Success? ==> |r.value| >= |selector| && r.value[..|selector|] == selector
    ensures r.Success? && Truthy(inputs) ==> r.value[|selector|..] == codec.encode(inputTypes, inputs).value
  {
    if !Truthy(inputs) then Success(selector)
    else
      match codec.encode(inputTypes, inputs)
      case Failure(e) => Failure(e)
      case Success(encoded) => Success(selector + encoded)
  }

  /** The `[address, data]` pair that stands for one call in the aggregate request. */
  function CallPair(address: Address, data: Bytes): PyValue
  {
    PyList([PyStr(address), PyBytes(data)])
  }

  /**
   * `get_args` / `_get_args`: the aggregate call's argument list, `[pairs]`
   * when `require_success is True`, else `[require_success, pairs]`.
   */
  function GetArgs(calls: seq<Call>, requireSuccess: PyValue): (args: PyValue)
    ensures args.PyList? && |args.items| == if requireSuccess == PyBool(true) then 1 else 2
    ensures requireSuccess != PyBool(true) ==> args.items[0] == requireSuccess
    ensures args.items[|args.items| - 1] == PyList(CallPairs(calls))
  {
    var pairs := PyList(CallPairs(calls));
    if requireSuccess == PyBool(true) then PyList([pairs]) else PyList([requireSuccess, pairs])
  }

  /** `[[call.address, call.data] for call in calls]`. */
  function CallPairs(calls: seq<Call>): (pairs: seq<PyValue>)
    ensures |pairs| == |calls|
  {
    seq(|calls|, i requires 0 <= i < |calls| => CallPair(calls[i].address, calls[i].data))
  }

  /** The target and payload of each call, in order. */
  function Targets(calls: seq<Call>): seq<(Address, Bytes)>
  {
    seq(|calls|, i requires 0 <= i < |calls| => (calls[i].address, calls[i].data))
  }

  /** Reads one `[address, data]` pair back. */
  function PairOf(v: PyValue): Option<(Address, Bytes)>
  {
    if v.PyList? && |v.items| == 2 && v.items[0].PyStr? && v.items[1].PyBytes?
    then Some((v.items[0].s, v.items[1].bs))
    else None
  }

  /** Reads the list of pairs back. */
  function PairsOf(vs: seq<PyValue>): (r: Option<seq<(Address, Bytes)>>)
    ensures r.Some? ==> |r.value| == |vs|
  {
    if vs == [] then Some([])
    else
      match (PairOf(vs[0]), PairsOf(vs[1..]))
      case (Some(p), Some(ps)) => Some([p] + ps)
      case _ => None
  }

  /** What the aggregator reads from its arguments: the last one, a list of `[address, data]` pairs. */
  function AggregatedCalls(args: PyValue): Option<seq<(Address, Bytes)>>
  {
    if args.PyList? && 0 < |args.items| && args.items[|args.items| - 1].PyList?
    then PairsOf(args.items[|args.items| - 1].items)
    else None
  }

  lemma {:induction false} PairsOfCallPairs(calls: seq<Call>)
    ensures PairsOf(CallPairs(calls)) == Some(Targets(calls))
  {
    if calls != [] {
      assert CallPairs(calls)[1..] == CallPairs(calls[1..]);
      assert PairOf(CallPairs(calls)[0]) == Some((calls[0].address, calls[0].data));
      PairsOfCallPairs(calls[1..]);
      var vs := CallPairs(calls);
      assert vs != [] && vs[1..] == CallPairs(calls[1..]);
      assert PairsOf(vs) == Some([(calls[0].address, calls[0].data)] + Targets(calls[1..]));
      assert Targets(calls) == [(calls[0].address, calls[0].data)] + Targets(calls[1..]);
    } else {
      assert CallPairs(calls) == [] && Targets(calls) == [];
    }
  }

  /**
   * Whatever `require_success` is, the aggregator receives every call's
   * address and data, in the order the calls were added.
   */
  lemma GetArgsRoundTrip(calls: seq<Call>, requireSuccess: PyValue)
    ensures AggregatedCalls(GetArgs(calls, requireSuccess)) == Some(Targets(calls))
  {
    PairsOfCallPairs(calls);
  }

  /*** Decoding ***/

  /** `decoded if len(decoded) > 1 else decoded[0]`: one value is unwrapped, none raises IndexError. */
  function Unwrap(decoded: seq<PyValue>): Result<PyValue, Error>
  {
    if |decoded| > 1 then Success(PyTuple(decoded))
    else if |decoded| == 1 then Success(decoded[0])
    else Failure(IndexError)
  }

  /**
   * `_decode_output` without named handlers (`returns` is None): decodes
   * when `success` is None or true; a failed decode, or `success` false,
   * gives None.
   */
  function DecodeOutput(codec: Codec, output: PyValue, outputTypes: seq<TypeStr>, success: Option<bool>): (r: Result<PyValue, Error>)
    ensures success == Some(false) ==> r == Success(PyNone)
    ensures success != Some(false) && codec.decode(outputTypes, output).None? ==> r == Success(PyNone)
    ensures success != Some(false) && codec.decode(outputTypes, output).Some? ==>
              var decoded := codec.decode(outputTypes, output).value;
              (|decoded| == 1 ==> r == Success(decoded[0])) &&
              (|decoded| > 1 ==> r == Success(PyTuple(decoded)))
    ensures r.Failure? <==> success != Some(false) && codec.decode(outputTypes, output) == Some([])
    ensures r.Failure? ==> r.error == IndexError
  {
    if success.None? || success.value then
      match codec.decode(outputTypes, output)
      case None => Unwrap([PyNone])
      case Some(decoded) => Unwrap(decoded)
    else Unwrap([PyNone])
  }

  /**
   * What the ABI decoder does when it succeeds: one value per type given.
   * The model's Codec is arbitrary, so the lemmas that rely on this say so.
   */
  ghost predicate DecodesByArity(codec: Codec)
  {
    forall ts, v :: codec.decode(ts, v).Some? ==> |codec.decode(ts, v).value| == |ts|
  }

  /**
   * With a decoder that decodes by arity, `_decode_output` raises exactly
   * for a call that declares no output types, unwraps a single declared
   * output and returns several as a tuple.
   */
  lemma DecodeOutputByArity(codec: Codec, output: PyValue, outputTypes: seq<TypeStr>, success: Option<bool>)
    requires DecodesByArity(codec)
    ensures DecodeOutput(codec, output, outputTypes, success).Failure? <==>
              success != Some(false) && outputTypes == [] && codec.decode(outputTypes, output).Some?
    ensures success != Some(false) && codec.decode(outputTypes, output).Some? && |outputTypes| == 1 ==>
              DecodeOutput(codec, output, outputTypes, success) == Success(codec.decode(outputTypes, output).value[0])
    ensures success != Some(false) && codec.decode(outputTypes, output).Some? && |outputTypes| > 1 ==>
              DecodeOutput(codec, output, outputTypes, success) == Success(PyTuple(codec.decode(outputTypes, output).value))
  {
    var d := codec.decode(outputTypes, output);
    if d.Some? {
      assert |d.value| == |outputTypes|;
    }
  }

  /** `_unpack_aggregate_outputs`: each returned output, paired with an unknown success flag. */
  function UnpackAggregateOutputs(outputs: seq<PyValue>): (r: seq<(Option<bool>, PyValue)>)
    ensures |r| == |outputs|
    ensures forall i :: 0 <= i < |r| ==> r[i].0 == None && r[i].1 == outputs[i]
  {
    seq(|outputs|, i requires 0 <= i < |outputs| => (None, outputs[i]))
  }

  /** Python's `v[1]` for the values an aggregate answer can decode to. */
  function Second(v: PyValue): Result<PyValue, Error>
  {
    match v
    case PyList(items) => if |items| > 1 then Success(items[1]) else Failure(IndexError)
    case PyTuple(items) => if |items| > 1 then Success(items[1]) else Failure(IndexError)
    case PyStr(s) => if |s| > 1 then Success(PyStr([s[1]])) else Failure(IndexError)
    case PyBytes(bs) => if |bs| > 1 then Success(PyInt(bs[1] as int)) else Failure(IndexError)
    case _ => Failure(TypeError)
  }

  /** The items Python's `for x in v` visits. */
  function Items(v: PyValue): Result<seq<PyValue>, Error>
  {
    match v
    case PyList(items) => Success(items)
    case PyTuple(items) => Success(items)
    case PyStr(s) => Success(seq(|s|, i requires 0 <= i < |s| => PyStr([s[i]])))
    case PyBytes(bs) => Success(seq(|bs|, i requires 0 <= i < |bs| => PyInt(bs[i] as int)))
    case _ => Failure(TypeError)
  }

  /**
   * The per-call outputs in the node's answer: `_decode_output` of the raw
   * answer against `(uint256,bytes[])`, its second element, unpacked.  An
   * answer the decoder rejects becomes None, and `None[1]` raises TypeError.
   */
  function ReturnData(codec: Codec, response: Bytes): (r: Result<seq<(Option<bool>, PyValue)>, Error>)
    ensures r.Success? ==> forall i :: 0 <= i < |r.value| ==> r.value[i].0 == None
    ensures codec.decode(AggregateOutputTypes, PyBytes(response)).None? ==> r == Failure(TypeError)
    ensures codec.decode(AggregateOutputTypes, PyBytes(response)) == Some([]) ==> r == Failure(IndexError)
    ensures codec.decode(AggregateOutputTypes, PyBytes(response)).Some? &&
            |codec.decode(AggregateOutputTypes, PyBytes(response)).value| == 2 ==>
              var returned := codec.decode(AggregateOutputTypes, PyBytes(response)).value[1];
              (r.Success? <==> Items(returned).Success?) &&
              (r.Success? ==> |r.value| == |Items(returned).value| &&
                              forall i :: 0 <= i < |r.value| ==> r.value[i].1 == Items(returned).value[i])
  {
    match DecodeOutput(codec, PyBytes(response), AggregateOutputTypes, None)
    case Failure(e) => Failure(e)
    case Success(aggregated) =>
      match Second(aggregated)
      case Failure(e) => Failure(e)
      case Success(returned) =>
        match Items(returned)
        case Failure(e) => Failure(e)
        case Success(outputs) => Success(UnpackAggregateOutputs(outputs))
  }

  function Min(a: nat, b: nat): nat
  {
    if a <= b then a else b
  }

  /** The request payload `call()` sends: the aggregate selector and the encoded `[address, data]` pairs. */
  function AggregatePayload(codec: Codec, calls: seq<Call>, requireSuccess: PyValue): Result<Bytes, Error>
  {
    EncodeData(codec, codec.selector(AggregateName), AggregateInputTypes, GetArgs(calls, requireSuccess))
  }

  /**
   * What `W3Multicall.call()` returns or raises: the encoder's error if the
   * arguments do not encode, the node's error if the request fails;
   * otherwise one decoded result per pair of call and returned output, in
   * order (Python's `zip` stops at the shorter), or IndexError when some
   * call's output decodes to no value at all (`CallSpecIndexError` shows
   * that, for a codec that decodes by arity, these are the calls that
   * declare no output types).
   */
  ghost function CallSpec(codec: Codec, node: Node, w3: Web3, address: Address, calls: seq<Call>, requireSuccess: PyValue)
    : Result<seq<PyValue>, Error>
  {
    match AggregatePayload(codec, calls, requireSuccess)
    case Failure(e) => Failure(e)
    case Success(payload) =>
    match node(w3, address, payload)
    case Failure(e) => Failure(e)
    case Success(response) =>
      match ReturnData(codec, response)
      case Failure(e) => Failure(e)
      case Success(unpacked) =>
        var n := Min(|calls|, |unpacked|);
        if exists i :: 0 <= i < n && DecodeOutput(codec, unpacked[i].1, calls[i].outputTypes, Some(true)).Failure?
        then Failure(IndexError)
        else Success(seq(n, i requires 0 <= i < n => DecodeOutput(codec, unpacked[i].1, calls[i].outputTypes, Some(true)).value))
  }

  /**
   * With a decoder that decodes by arity, once the request has gone
   * through and the answer has been unpacked, `call()` raises IndexError
   * exactly when some call within the `zip` cut-off declares no output
   * types and its output decodes.
   */
  lemma CallSpecIndexError(codec: Codec, node: Node, w3: Web3, address: Address, calls: seq<Call>,
                           requireSuccess: PyValue, response: Bytes)
    requires DecodesByArity(codec)
    requires AggregatePayload(codec, calls, requireSuccess).Success?
    requires node(w3, address, AggregatePayload(codec, calls, requireSuccess).value) == Success(response)
    requires ReturnData(codec, response).Success?
    ensures var unpacked := ReturnData(codec, response).value;
            var n := Min(|calls|, |unpacked|);
            (CallSpec(codec, node, w3, address, calls, requireSuccess).Failure? <==>
               exists i :: 0 <= i < n && calls[i].outputTypes == [] && codec.decode([], unpacked[i].1).Some?)
    ensures CallSpec(codec, node, w3, address, calls, requireSuccess).Failure? ==>
              CallSpec(codec, node, w3, address, calls, requireSuccess).error == IndexError
  {
    var unpacked := ReturnData(codec, response).value;
    var n := Min(|calls|, |unpacked|);
    forall i | 0 <= i < n
      ensures DecodeOutput(codec, unpacked[i].1, calls[i].outputTypes, Some(true)).Failure? <==>
                calls[i].outputTypes == [] && codec.decode([], unpacked[i].1).Some?
    {
      DecodeOutputByArity(codec, unpacked[i].1, calls[i].outputTypes, Some(true));
    }
  }

  /*** Calls ***/

  /** One remote read-call: `W3Multicall.Call`, immutable once built. */
  datatype Call = Call(
    address: Address,
    signature: string,
    args: PyValue,
    name: string,
    inputTypes: seq<TypeStr>,
    outputTypes: seq<TypeStr>,
    selector: Bytes,
    data: Bytes)

  /**
   * `signature.replace(" ", "")`: every space is dropped and every other
   * character kept as often as it occurs; `RemoveSpacesConcat` adds that
   * the kept characters stay in order.
   */
  function RemoveSpaces(s: string): (r: string)
    ensures ' ' !in r
    ensures multiset(r) == multiset(s)[' ' := 0]
    ensures |r| == |s| - multiset(s)[' ']
    ensures ' ' !in s ==> r == s
  {
    if s == [] then []
    else
      assert s == [s[0]] + s[1..];
      if s[0] == ' ' then RemoveSpaces(s[1..])
      else [s[0]] + RemoveSpaces(s[1..])
  }

  /**
   * Removing spaces works piece by piece, so the characters kept appear in
   * the order they had: with `RemoveSpaces([c])` being `[]` for a space and
   * `[c]` otherwise, this determines the result completely.
   */
  lemma {:induction false} RemoveSpacesConcat(a: string, b: string)
    ensures RemoveSpaces(a + b) == RemoveSpaces(a) + RemoveSpaces(b)
  {
    if a != [] {
      assert (a + b)[0] == a[0] && (a + b)[1..] == a[1..] + b;
      RemoveSpacesConcat(a[1..], b);
      if a[0] == ' ' {
        assert RemoveSpaces(a + b) == RemoveSpaces(a[1..] + b);
        assert RemoveSpaces(a) == RemoveSpaces(a[1..]);
      } else {
        assert RemoveSpaces(a + b) == [a[0]] + RemoveSpaces(a[1..] + b);
        assert RemoveSpaces(a) == [a[0]] + RemoveSpaces(a[1..]);
      }
    } else {
      assert a + b == b;
    }
  }

  /** A single argument that is not a list or a tuple becomes a 1-tuple; None, lists and tuples stay. */
  function NormaliseArgs(args: PyValue): (r: PyValue)
    ensures args.PyNone? || args.PyList? || args.PyTuple? ==> r == args
    ensures !(args.PyNone? || args.PyList? || args.PyTuple?) ==> r == PyTuple([args])
    ensures r.PyNone? || r.PyList? || r.PyTuple?
  {
    if args.PyNone? || args.PyList? || args.PyTuple? then args else PyTuple([args])
  }

  /**
   * `W3Multicall.Call.__init__`: the signature is stored without spaces,
   * but parsed as given; a signature that does not parse raises, and so
   * do arguments the encoder rejects for the parsed input types.
   */
  method NewCall(codec: Codec, address: Address, signature: string, args: PyValue) returns (r: Result<Call, Error>)
    ensures SignatureSpec(signature).Failure? ==> r == Failure(SignatureSpec(signature).error)
    ensures SignatureSpec(signature).Success? ==>
              var parsed := SignatureSpec(signature).value;
              var encoded := EncodeData(codec, codec.selector(parsed.name), parsed.inputTypes, NormaliseArgs(args));
              (r.Failure? <==> encoded.Failure?) &&
              (r.Failure? ==> r.error == encoded.error)
    ensures r.Success? ==>
              var c := r.value;
              var parsed := SignatureSpec(signature).value;
              c.address == address && c.signature == RemoveSpaces(signature) &&
              c.args == NormaliseArgs(args) &&
              c.name == parsed.name && c.inputTypes == parsed.inputTypes && c.outputTypes == parsed.outputTypes &&
              c.selector == codec.selector(parsed.name) &&
              EncodeData(codec, c.selector, c.inputTypes, c.args) == Success(c.data)
  {
    var stripped := RemoveSpaces(signature);
    var normalised := NormaliseArgs(args);
    var parsed := ParseSignature(signature);
    if parsed.Failure? {
      return Failure(parsed.error);
    }
    var selector := codec.selector(parsed.value.name);
    var data := EncodeData(codec, selector, parsed.value.inputTypes, normalised);
    if data.Failure? {
      return Failure(data.error);
    }
    r := Success(Call(address, stripped, normalised, parsed.value.name,
                      parsed.value.inputTypes, parsed.value.outputTypes, selector, data.value));
  }

  /*** W3Multicall ***/

  /** A batch of calls bound to one connection and one aggregator contract. */
  class W3Multicall {
    const w3: Web3
    const address: Address
    var calls: seq<Call>
    var requireSuccess: PyValue

    /** The list given is copied; without one the batch starts empty. */
    constructor (w3: Web3, address: Address, calls: Option<seq<Call>>)
      ensures this.w3 == w3 && this.address == address
      ensures this.calls == if calls.Some? then calls.value else []
      ensures requireSuccess == PyBool(true)
    {
      this.w3 := w3;
      this.address := address;
      this.calls := if calls.Some? then calls.value else [];
      requireSuccess := PyBool(true);
    }

    /** `add`: appends one call at the end. */
    method Add(call: Call)
      modifies this
      ensures calls == old(calls) + [call]
      ensures requireSuccess == old(requireSuccess)
    {
      calls := calls + [call];
    }

    /**
     * `call`: sends the aggregate request and decodes each returned output
     * against the output types of the call at the same position.
     */
    method Call(codec: Codec, node: Node) returns (r: Result<seq<PyValue>, Error>)
      ensures r == CallSpec(codec, node, w3, address, calls, requireSuccess)
    {
      var calls := this.calls;
      var args := GetArgs(calls, requireSuccess);
      var data := EncodeData(codec, codec.selector(AggregateName), AggregateInputTypes, args);
      if data.Failure? {
        return Failure(data.error);
      }
      var rpcResponse := node(w3, address, data.value);
      if rpcResponse.Failure? {
        return Failure(rpcResponse.error);
      }
      var unpacked := ReturnData(codec, rpcResponse.value);
      if unpacked.Failure? {
        return Failure(unpacked.error);
      }
      var n := Min(|calls|, |unpacked.value|);
      var outputs: seq<PyValue> := [];
      var i := 0;
      while i < n
        invariant 0 <= i <= n
        invariant |outputs| == i
        invariant forall j :: 0 <= j < i ==>
                    DecodeOutput(codec, unpacked.value[j].1, calls[j].outputTypes, Some(true)).Success? &&
                    outputs[j] == DecodeOutput(codec, unpacked.value[j].1, calls[j].outputTypes, Some(true)).value
      {
        var callOutput := DecodeOutput(codec, unpacked.value[i].1, calls[i].outputTypes, Some(true));
        if callOutput.Failure? {
          return Failure(callOutput.error);
        }
        outputs := outputs + [callOutput.value];
        i := i + 1;
      }
      assert outputs == seq(n, j requires 0 <= j < n => DecodeOutput(codec, unpacked.value[j].1, calls[j].outputTypes, Some(true)).value);
      return Success(outputs);
    }
  }
}
