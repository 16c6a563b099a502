/** The send command: build one OSC message from command-line words. The
    first word is the destination port, the second the address, and every
    further word becomes one argument whose type is inferred from its text:
    an integer if `strconv.Atoi` accepts it (narrowed to int32), else a float
    if the float parser accepts it, else the text itself.

    The float parser (`strconv.ParseFloat(token, 32)`) is a parameter: a
    total function from the token to the float's bits, or `None` where Go
    reports an error. Nothing about floating point is modelled. */
module Sender {
  import opened OscTypes
  import opened GoStrconv

  type FloatParser = string -> Option<Float32Bits>

  /** Why `doSend` sends nothing. `EmptyAddressPanic` is the empty address:
      `doSend` indexes the address at position 0 without a length check, so
      the Go program stops with an index-out-of-range panic there. */
  datatype SendError =
    | MissingArguments
    | BadPort
    | EmptyAddressPanic
    | AddressWithoutSlash

  /** The message `doSend` hands to the OSC client, and the port of
      127.0.0.1 it is sent to. */
  datatype Outgoing = Outgoing(port: Int64, msg: Message)

  /** The type inference of one token. */
  function InferArg(token: string, parseFloat: FloatParser): Arg {
    match Atoi(token)
    case Some(n) => Int32Arg(Wrap32(n))
    case None =>
      match parseFloat(token)
      case Some(f) => Float32Arg(f)
      case None => StrArg(token)
  }

  /** The inferred arguments, one per token, in token order. */
  function InferArgs(tokens: seq<string>, parseFloat: FloatParser): (r: seq<Arg>)
    ensures |r| == |tokens|
    ensures forall i :: 0 <= i < |tokens| ==> r[i] == InferArg(tokens[i], parseFloat)
  {
    if tokens == [] then [] else [InferArg(tokens[0], parseFloat)] + InferArgs(tokens[1..], parseFloat)
  }

  /** What `doSend` sends for the words `args`, stated without its loop: the
      reference the method is proved against. The checks come in
      `doSend`'s order: word count, port, then address. */
  function Compose(args: seq<string>, parseFloat: FloatParser): Result<Outgoing, SendError> {
    if |args| < 2 then Err(MissingArguments)
    else match Atoi(args[0])
      case None => Err(BadPort)
      case Some(port) =>
        if args[1] == [] then Err(EmptyAddressPanic)
        else if args[1][0] != '/' then Err(AddressWithoutSlash)
        else Ok(Outgoing(port, Message(args[1], InferArgs(args[2..], parseFloat))))
  }

  /** `doSend` up to `client.Send`: the message is built one argument at a
      time, trying the integer parse, then the float parse, then the text. */
  method DoSend(args: seq<string>, parseFloat: FloatParser) returns (r: Result<Outgoing, SendError>)
    ensures r == Compose(args, parseFloat)
  {
    if |args| < 2 {
      return Err(MissingArguments);
    }
    var oscport := Atoi(args[0]);
    if oscport.None? {
      return Err(BadPort);
    }
    if |args[1]| == 0 {
      return Err(EmptyAddressPanic);
    }
    if args[1][0] != '/' {
      return Err(AddressWithoutSlash);
    }
    var msgArgs: seq<Arg> := [];
    var n := 2;
    while n < |args|
      invariant 2 <= n <= |args|
      invariant |msgArgs| == n - 2
      invariant forall i :: 0 <= i < n - 2 ==> msgArgs[i] == InferArg(args[i + 2], parseFloat)
    {
      var num := Atoi(args[n]);
      if num.None? {
        var flt := parseFloat(args[n]);
        if flt.None? {
          msgArgs := msgArgs + [StrArg(args[n])];
        } else {
          msgArgs := msgArgs + [Float32Arg(flt.value)];
        }
      } else {
        msgArgs := msgArgs + [Int32Arg(Wrap32(num.value))];
      }
      n := n + 1;
    }
    assert msgArgs == InferArgs(args[2..], parseFloat);
    return Ok(Outgoing(oscport.value, Message(args[1], msgArgs)));
  }

  /** The cascade, case by case: an integer exactly when `Atoi` accepts the
      token, a float exactly when only the float parser does, and otherwise
      the token unchanged. Never an int64 or another type. */
  lemma InferArgCases(token: string, parseFloat: FloatParser)
    ensures InferArg(token, parseFloat).Int32Arg? <==> Atoi(token).Some?
    ensures Atoi(token).Some? ==> InferArg(token, parseFloat).i32 == Wrap32(Atoi(token).value)
    ensures InferArg(token, parseFloat).Float32Arg? <==> Atoi(token).None? && parseFloat(token).Some?
    ensures InferArg(token, parseFloat).StrArg? <==> Atoi(token).None? && parseFloat(token).None?
    ensures InferArg(token, parseFloat).StrArg? ==> InferArg(token, parseFloat).s == token
    ensures !InferArg(token, parseFloat).Int64Arg? && !InferArg(token, parseFloat).Other?
  {
  }

  /** An integer-looking token is an integer whatever the float parser
      would say of it: the decimal rendering of any int32 comes back as
      that same int32. */
  lemma InferIntegerRoundTrip(n: Int32, parseFloat: FloatParser)
    ensures InferArg(FormatInt(n), parseFloat) == Int32Arg(n)
  {
    AtoiFormatInt(n);
    Wrap32Identity(n);
  }

  /** Integers beyond int32 but within int64 are not floats: they wrap
      around modulo 2^32. */
  lemma InferWideInteger(n: Int64, parseFloat: FloatParser)
    ensures InferArg(FormatInt(n), parseFloat) == Int32Arg(Wrap32(n))
    ensures (InferArg(FormatInt(n), parseFloat).i32 - n) % 0x1_0000_0000 == 0
  {
    AtoiFormatInt(n);
  }

  /** The wrap-around made concrete: 3000000000 is accepted by `Atoi` and
      goes out as the int32 -1294967296, not as a float. */
  lemma WrapExample(parseFloat: FloatParser)
    ensures InferArg("3000000000", parseFloat) == Int32Arg(-1294967296)
  {
    AtoiWideToken();
  }

  /** A zero-padded integer token is still an integer, at its value. */
  lemma InferZeroPadded(parseFloat: FloatParser)
    ensures InferArg("08", parseFloat) == Int32Arg(8)
    ensures InferArg("-007", parseFloat) == Int32Arg(-7)
  {
    AtoiZeroPaddedExamples();
    Wrap32Identity(8);
    Wrap32Identity(-7);
  }

  /** A message is sent exactly when there are at least two words, the first
      is a valid integer port and the address is non-empty and starts with
      `/`. */
  lemma ComposeOkIff(args: seq<string>, parseFloat: FloatParser)
    ensures Compose(args, parseFloat).Ok? <==>
      |args| >= 2 && Atoi(args[0]).Some? && |args[1]| > 0 && args[1][0] == '/'
  {
  }

  /** A sent message has the given address and one argument per word after
      the address, in the same order. */
  lemma ComposeArguments(args: seq<string>, parseFloat: FloatParser, i: nat)
    requires Compose(args, parseFloat).Ok?
    requires i < |args| - 2
    ensures Compose(args, parseFloat).value.msg.address == args[1]
    ensures |Compose(args, parseFloat).value.msg.args| == |args| - 2
    ensures Compose(args, parseFloat).value.msg.args[i] == InferArg(args[i + 2], parseFloat)
  {
  }

  /** Inference on a few typical tokens. */
  lemma InferExamples(parseFloat: FloatParser)
    requires parseFloat("").None? && parseFloat("abc").None?
    ensures InferArg("42", parseFloat) == Int32Arg(42)
    ensures InferArg("-5", parseFloat) == Int32Arg(-5)
    ensures InferArg("", parseFloat) == StrArg("")
    ensures InferArg("abc", parseFloat) == StrArg("abc")
    ensures InferArg("3.14", parseFloat) ==
      if parseFloat("3.14").Some? then Float32Arg(parseFloat("3.14").value) else StrArg("3.14")
  {
    assert "42"[..1] == "4" && "4"[..0] == [];
    assert "-5"[1..] == "5" && "5"[..0] == [];
    Wrap32Identity(42);
    Wrap32Identity(-5);
    assert !IsDigit("abc"[0]);
    assert !IsDigit("3.14"[1]);
  }
}
