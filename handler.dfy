/** The inbound bridge: an OSC message is routed by its exact address, a
    `/midi` message with one to three integer arguments becomes one MIDI
    short message (status, data1, data2) with missing trailing bytes set to
    zero, and that message is written to the MIDI output. */
module Handler {
  import opened OscTypes

  /** The one address the bridge acts on. */
  const MidiAddress: string := "/midi"

  /** The most arguments a `/midi` message may carry: one per byte of a
      MIDI short message. */
  const MaxMidiArgs: nat := 3

  /** `argAsInt`'s error: the argument at `index` is not an integer. */
  datatype ArgError = NotAnInt(index: nat)

  /** One MIDI short message as handed to the output stream. The values are
      passed on as decoded, with no clamping to 0..255. */
  datatype ShortMessage = ShortMessage(status: Int64, data1: Int64, data2: Int64)

  /** What one call of the handler did; the variants other than `Sent` are
      the cases the handler logs and then drops the message. */
  datatype Outcome =
    | Unrecognized
    | NoArguments
    | TooManyArguments
    | BadArgument(err: ArgError)
    | Sent(msg: ShortMessage)

  predicate IsIntArg(a: Arg) { a.Int32Arg? || a.Int64Arg? }

  /** The integer an integer argument carries, widened to Go's `int`. */
  function IntValue(a: Arg): Int64
    requires IsIntArg(a)
  {
    if a.Int32Arg? then a.i32 else a.i64
  }

  /** `argAsInt`: the argument at `index` as an `int` if it is an int32 or
      an int64, and otherwise an error naming the index. */
  function ArgAsInt(msg: Message, index: nat): (r: Result<Int64, ArgError>)
    requires index < |msg.args|
    ensures r.Ok? <==> IsIntArg(msg.args[index])
    ensures r.Ok? ==> r.value == IntValue(msg.args[index])
    ensures r.Err? ==> r.error == NotAnInt(index)
  {
    match msg.args[index]
    case Int32Arg(v) => Ok(v)
    case Int64Arg(v) => Ok(v)
    case _ => Err(NotAnInt(index))
  }

  /** The position of the first argument that is not an integer, if any. */
  function FirstNonInt(args: seq<Arg>): (r: Option<nat>)
    ensures r.Some? ==> r.value < |args| && !IsIntArg(args[r.value])
    ensures r.Some? ==> forall j :: 0 <= j < r.value ==> IsIntArg(args[j])
    ensures r.None? ==> forall j :: 0 <= j < |args| ==> IsIntArg(args[j])
  {
    if args == [] then None
    else if !IsIntArg(args[0]) then Some(0)
    else match FirstNonInt(args[1..])
      case None => None
      case Some(i) => Some(i + 1)
  }

  /** Byte `k` of the payload: the `k`-th argument if there is one, else 0. */
  function Slot(args: seq<Arg>, k: nat): Int64
    requires forall j :: 0 <= j < |args| ==> IsIntArg(args[j])
  {
    if k < |args| then IntValue(args[k]) else 0
  }

  /** What the handler does with `msg`, stated without its loop: the
      reference the handler method is proved against. */
  function Route(msg: Message): Outcome {
    if msg.address != MidiAddress then Unrecognized
    else if |msg.args| == 0 then NoArguments
    else if |msg.args| > MaxMidiArgs then TooManyArguments
    else match FirstNonInt(msg.args)
      case Some(i) => BadArgument(NotAnInt(i))
      case None => Sent(ShortMessage(Slot(msg.args, 0), Slot(msg.args, 1), Slot(msg.args, 2)))
  }

  /** The short messages an outcome puts on the output: one or none. */
  function Emitted(o: Outcome): (w: seq<ShortMessage>)
    ensures |w| <= 1
    ensures w != [] <==> o.Sent?
    ensures o.Sent? ==> w == [o.msg]
  {
    if o.Sent? then [o.msg] else []
  }

  /** A message reaches the output exactly when its address is `/midi`, it
      has one to three arguments, and every one of them is an integer. */
  lemma SentIff(msg: Message)
    ensures Route(msg).Sent? <==>
      msg.address == MidiAddress && 1 <= |msg.args| <= MaxMidiArgs &&
      forall j :: 0 <= j < |msg.args| ==> IsIntArg(msg.args[j])
  {
  }

  /** Every address other than `/midi`, however close, is unrecognized and
      produces nothing, whatever the arguments. */
  lemma OtherAddressWritesNothing(msg: Message)
    requires msg.address != MidiAddress
    ensures Route(msg) == Unrecognized && Emitted(Route(msg)) == []
  {
  }

  /** The argument-count bounds: none or more than three arguments is
      dropped, before any argument is looked at. */
  lemma ArgumentCountBounds(msg: Message)
    requires msg.address == MidiAddress
    ensures |msg.args| == 0 ==> Route(msg) == NoArguments
    ensures |msg.args| > MaxMidiArgs ==> Route(msg) == TooManyArguments
    ensures Emitted(Route(msg)) != [] ==> 1 <= |msg.args| <= MaxMidiArgs
  {
  }

  /** The payload carries the decoded arguments in order, unchanged, with
      zero in every slot past the last argument. */
  lemma SentPayload(msg: Message)
    requires Route(msg).Sent?
    ensures 1 <= |msg.args| <= 3
    ensures var m := Route(msg).msg;
      m.status == IntValue(msg.args[0]) &&
      m.data1 == (if |msg.args| > 1 then IntValue(msg.args[1]) else 0) &&
      m.data2 == (if |msg.args| > 2 then IntValue(msg.args[2]) else 0)
  {
    SentIff(msg);
  }

  /** A non-integer among the arguments drops the whole message; the error
      names the first such argument. */
  lemma BadArgumentIsFirst(msg: Message, i: nat)
    requires msg.address == MidiAddress && 1 <= |msg.args| <= MaxMidiArgs
    requires i < |msg.args| && !IsIntArg(msg.args[i])
    requires forall j :: 0 <= j < i ==> IsIntArg(msg.args[j])
    ensures Route(msg) == BadArgument(NotAnInt(i))
    ensures Emitted(Route(msg)) == []
  {
  }

  /** Two payloads, `{64}` and `{144, 60, 100}`, two near misses of the
      address, and a float in the middle of the arguments. */
  lemma Examples()
    ensures Route(Message("/midi", [Int32Arg(64)])) == Sent(ShortMessage(64, 0, 0))
    ensures Route(Message("/midi", [Int32Arg(144), Int32Arg(60), Int64Arg(100)]))
      == Sent(ShortMessage(144, 60, 100))
    ensures Route(Message("/MIDI", [Int32Arg(64)])) == Unrecognized
    ensures Route(Message("/midi/", [Int32Arg(64)])) == Unrecognized
    ensures Route(Message("/midi", [Int32Arg(144), Float32Arg(0), Int32Arg(1)]))
      == BadArgument(NotAnInt(1))
  {
    assert "/MIDI"[1] != MidiAddress[1];
    assert |"/midi/"| != |MidiAddress|;
  }

  /** The opened MIDI output stream. Its only state is the sequence of short
      messages written to it so far. */
  class MidiSink {
    var written: seq<ShortMessage>

    constructor ()
      ensures written == []
    {
      written := [];
    }

    /** `WriteShort`: transmit one short message. */
    method WriteShort(status: Int64, data1: Int64, data2: Int64)
      modifies this
      ensures written == old(written) + [ShortMessage(status, data1, data2)]
    {
      written := written + [ShortMessage(status, data1, data2)];
    }

    /** `handleOSC`, with this sink as the output stream. Each call writes
        at most one short message, and only the one `Route` describes. */
    method HandleOsc(msg: Message) returns (outcome: Outcome)
      modifies this
      ensures outcome == Route(msg)
      ensures written == old(written) + Emitted(outcome)
    {
      if msg.address != MidiAddress {
        return Unrecognized;
      }
      var nargs := |msg.args|;
      if nargs == 0 {
        return NoArguments;
      } else if nargs > MaxMidiArgs {
        return TooManyArguments;
      }
      var b := new Int64[3] [0, 0, 0];
      var n := 0;
      while n < nargs
        invariant 0 <= n <= nargs
        invariant written == old(written)
        invariant forall k :: 0 <= k < n ==> IsIntArg(msg.args[k]) && b[k] == IntValue(msg.args[k])
        invariant forall k :: n <= k < 3 ==> b[k] == 0
      {
        var r := ArgAsInt(msg, n);
        if r.Err? {
          BadArgumentIsFirst(msg, n);
          return BadArgument(r.error);
        }
        b[n] := r.value;
        n := n + 1;
      }
      SentIff(msg);
      WriteShort(b[0], b[1], b[2]);
      return Sent(ShortMessage(b[0], b[1], b[2]));
    }
  }
}
