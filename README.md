# oscutil: the OSC-to-MIDI bridge, modelled in Dafny

`oscutil` bridges Open Sound Control (OSC) and MIDI. In its `servemidi` mode,
each received OSC message goes to `handleOSC`. A message addressed exactly
`/midi` with one to three integer arguments becomes one MIDI short message
(status, data1, data2). Missing trailing bytes are zero. The message is
written to the MIDI output stream opened at startup. That stream is the first
output-capable device whose name equals the requested name (`GetOutputStream`).
In its `send` mode (`doSend`), the program builds one OSC message from
command-line words. Each argument word gets an OSC type inferred from its
text, in a fixed order: an integer, then a float, then a string.

This project models that logic and proves what it promises.

- `osc.dfy`, module `OscTypes`: typed OSC arguments (int32, int64, float32
  bits, string, anything else), messages, and the `Option`/`Result` wrappers.
- `strconv.dfy`, module `GoStrconv`: Go's `strconv.Atoi` on a 64-bit
  platform (an optional sign, at least one decimal digit, a value in the
  int64 range) and the narrowing conversion `int32(x)`. It also has the
  decimal rendering `FormatInt` that `Atoi` inverts.
- `handler.dfy`, module `Handler`: `argAsInt`, the routing rule `Route`
  stated as a function, and the class `MidiSink`. The sink's only state is
  the sequence of short messages written to it. Its method `HandleOsc` is
  `handleOSC`: a loop fills a zero-initialised three-slot array, with early
  returns on errors. It is proved equal to `Route`, and it writes at most one
  message.
- `sender.dfy`, module `Sender`: the token inference `InferArg` (try
  `Atoi`, then the float parser, then keep the text; its cases are stated by
  the lemma `InferArgCases`) and the loop of `doSend`. The method is proved
  equal to the loop-free function `Compose`.
- `devices.dfy`, module `Devices`: the linear search of `GetOutputStream`,
  proved equal to the function `SelectOutput`.

Collaborators outside the model are parameters:

- The float parser `strconv.ParseFloat(token, 32)` is a function from a token
  to optional float bits.
- Whether portmidi can open a device is a predicate on device ids.
- The device list is a sequence of (name, input-capable, output-capable)
  records in enumeration order. A device's id is its position.

The handler's log lines are replaced by the returned `Outcome`. `doSend`'s log
lines are replaced by the `SendError` it returns.

Points where the code's behaviour is easy to misread:

- An unrecognized address is printed every time (oscutil.go:154); the
  `Verbose` flag does not gate that line.
- An empty address in `send` is not reported as an invalid address.
  oscutil.go:53 reads `args[1][0]` without a length check, so Go panics. The
  model returns `EmptyAddressPanic` for that case.
- An integer token is narrowed with Go's `int32(num)` (oscutil.go:70). Any
  value `Atoi` accepts outside the int32 range wraps modulo 2^32. For
  example, `3000000000` is sent as the int32 -1294967296, not as a float.
- The argument limit 3 is a literal in the code (oscutil.go:164). Here it is
  the constant `MaxMidiArgs`.

## Model

| member | source | states |
|---|---|---|
| `GoStrconv.Atoi` | oscutil.go:60 | an accepted token is non-empty, is decimal digits with at most one leading sign, and ends in a digit (so a lone sign is rejected); the value lies in the int64 range |
| `GoStrconv.AtoiFormatInt` | oscutil.go:60 | `Atoi` gives back every int64 from its decimal text and rejects the text of every integer outside int64 (Go's range error) |
| `GoStrconv.AtoiLeadingZero` | oscutil.go:60 | leading zeros, after a sign or without one, do not change what `Atoi` returns |
| `GoStrconv.AtoiUnsignedValue` | oscutil.go:60 | a non-empty digit string, bare or after `+`, is read as its decimal value when that fits in int64, and rejected (Go's range error) otherwise, leading zeros included |
| `GoStrconv.AtoiNegativeValue` | oscutil.go:60 | a non-empty digit string after `-` is read as the negated decimal value when that is at least -2^63 (so `"-0"` is 0), and rejected otherwise |
| `GoStrconv.AtoiZeroPaddedExamples` | oscutil.go:60 | `"-0"` reads as 0, `"007"` and `"-007"` as 7 and -7, `"08"` and `"-08"` as 8 and -8 |
| `GoStrconv.AtoiWideToken` | oscutil.go:60 | `"3000000000"`, beyond int32 but inside int64, is accepted at its value |
| `GoStrconv.AtoiPlusSign` | oscutil.go:60 | a leading `+` before a digit string does not change what `Atoi` returns |
| `GoStrconv.Wrap32` | oscutil.go:70 | `int32(x)` yields the one int32 that is congruent to `x` modulo 2^32 |
| `GoStrconv.Wrap32Identity` | oscutil.go:70 | narrowing leaves every value already in the int32 range unchanged |
| `Handler.ArgAsInt` | oscutil.go:193-204 | success exactly for an int32 or int64 argument, with its value unchanged; any other type fails with an error naming the argument index |
| `Handler.FirstNonInt` | oscutil.go:171-177 | finds the first non-integer argument, with every earlier one an integer; `None` means all arguments are integers |
| `Handler.Emitted` | oscutil.go:169-181 | one handler call yields at most one short message, and yields one exactly when it sends |
| `Handler.SentIff` | oscutil.go:152-181 | a message is written exactly when the address is `/midi`, it has 1 to 3 arguments, and all of them are integers |
| `Handler.OtherAddressWritesNothing` | oscutil.go:152-155 | any address other than exactly `/midi` is unrecognized and writes nothing |
| `Handler.ArgumentCountBounds` | oscutil.go:158-167 | a `/midi` message with 0 arguments or more than 3 is dropped before any argument is decoded; a written message had 1 to 3 arguments |
| `Handler.SentPayload` | oscutil.go:169-181 | the written triple holds the decoded arguments in order, unclamped, with 0 in each slot past the last argument |
| `Handler.BadArgumentIsFirst` | oscutil.go:171-176 | a non-integer argument drops the whole message (nothing is written); the error names the first such index |
| `Handler.Examples` | oscutil.go:151-182 | `{64}` gives (64,0,0) and `{144,60,100}` gives (144,60,100); `/MIDI` and `/midi/` are unrecognized; a float at index 1 is rejected with index 1 |
| `Handler.MidiSink.constructor` | oscutil.go:14 | a freshly opened output stream has nothing written |
| `Handler.MidiSink.WriteShort` | oscutil.go:181 | writing appends exactly one short message with the three given values |
| `Handler.MidiSink.HandleOsc` | oscutil.go:151-183 | the handler's outcome is `Route(msg)`, and the sink grows by that outcome's message or not at all |
| `Sender.InferArgs` | oscutil.go:58-72 | one argument per token, in token order, each the inference of its own token |
| `Sender.DoSend` | oscutil.go:42-74 | the loop builds exactly the message `Compose` describes, with the same error cases in the same order |
| `Sender.InferArgCases` | oscutil.go:58-72 | a token is an int32 exactly when `Atoi` accepts it (value narrowed), a float exactly when only the float parser accepts it, and otherwise the unchanged string; never an int64 or another type |
| `Sender.InferIntegerRoundTrip` | oscutil.go:60-70 | the decimal text of any int32 is sent as that same int32, whatever the float parser would say |
| `Sender.InferWideInteger` | oscutil.go:60-70 | the decimal text of an int64 outside int32 is still an integer, wrapped modulo 2^32 |
| `Sender.InferZeroPadded` | oscutil.go:60-70 | the zero-padded tokens `"08"` and `"-007"` are sent as the int32 values 8 and -7 |
| `Sender.WrapExample` | oscutil.go:70 | the token `3000000000` is sent as the int32 -1294967296 |
| `Sender.ComposeOkIff` | oscutil.go:43-56 | a message is produced exactly when there are at least two words, the port word parses as an integer, and the address is non-empty and starts with `/` |
| `Sender.ComposeArguments` | oscutil.go:57-72 | the produced message has the given address and one argument per word after it, in order |
| `Sender.InferExamples` | oscutil.go:58-72 | `"42"` gives int 42 and `"-5"` gives int -5; `""` and `"abc"` stay strings when the float parser rejects them; `"3.14"` is never an integer |
| `Devices.FirstQualifying` | oscutil.go:133-137 | finds the first device that can output and whose name is exactly the requested one, with no earlier device qualifying; `None` means none qualifies |
| `Devices.GetOutputStream` | oscutil.go:131-149 | the indexed search returns exactly what `SelectOutput` describes; if opening the first match fails, the search stops with that error |
| `Devices.SelectedIsFirstQualifying` | oscutil.go:134-145 | the chosen device is output-capable with exactly the requested name, and every earlier device is input-only, not an output, or named differently |
| `Devices.NotFoundIff` | oscutil.go:148 | "no MIDI output named" is returned exactly when no device qualifies |
| `Devices.EarliestDuplicateWins` | oscutil.go:134-137 | with two qualifying devices, the later one is never chosen; the result, success or open failure, concerns a device no later than the earlier one |

## Left out

- GoStrconv.Atoi: its own contract states only the shape of an accepted token (digits with an optional leading sign, ending in a digit) and its int64 range. The value of every accepted token is stated separately, in `AtoiUnsignedValue` and `AtoiNegativeValue`.
- Network transport is not modelled: `startOSC`, the `osc.Server` and its `ListenAndServe`, `osc.NewClient` and `client.Send`. These are socket I/O. `DoSend` ends with the message and port it would send.
- `doListen` is not modelled. It only prints each received message with a wall-clock timestamp.
- portmidi is not modelled: `Initialize`, `CountDevices`, `Info`, `NewOutputStream` and `WriteShort` are foreign calls. The device list is an input sequence. Opening a device is a predicate parameter. The stream is `MidiSink`, which records what is written.
- `doListMidi` is not modelled. It only prints the device list.
- `doServeMidi` and `main` are not modelled. They parse the command line, wire the handler and print usage. The `Verbose` flag and all log text are left out too: logging has no effect on the modelled state.
- The discarded `TypeTags` call in `handleOSC` is left out. It has no effect.
- `strconv.ParseFloat(…, 32)` and `float32(flt)` are left out. Floating-point parsing, precision and range are not modelled. The parser is an arbitrary function parameter, and a float argument carries opaque 32-bit contents.
- Concurrency is left out. The OSC dispatcher may call the handler concurrently, and the shared `Midiout` stream is unsynchronised. The model treats handler calls as sequential calls on one `MidiSink`.
- Go's `int` is taken to be 64 bits wide. On a 32-bit platform, `int(v)` for an int64 argument would truncate; that is not modelled.
- osc2midi.go is not part of this model. It is an alternate program that duplicates the device search and listing, and its handler only logs.
