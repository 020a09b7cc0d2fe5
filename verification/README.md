# http-parser (Ruby binding): callback adapters, settings and session flags

This project models the Ruby layer of the `http-parser` gem that sits on top
of the C `http_parser` engine. The engine does all HTTP tokenizing and is
not modelled. The layer itself does four things:

- It wraps user blocks into the engine's callback shape. `Callback` serves
  signal events and `DataCallback` serves data events. The wrapped block's
  outcome becomes a control code: a normal return gives `0`, and
  `throw :return, v` gives `v`. The two shipped parsers differ in one
  place. `HttpParser::Parser`'s adapters rescue a StandardError into `-1`.
  `Paceman::Parser`'s adapters let it escape.
- It keeps a settings table with one optional adapter for each of the eight
  event kinds. Each `on_*` method writes one slot. `Paceman::Parser` first
  requires a block, of arity 1 for signal kinds and 2 for data kinds.
- It builds a parser: empty settings, then the configuration block.
- It runs `parse`. This hands the engine the string's bytes together with
  `data.length`, and returns `!error?`. `String#length` counts characters,
  not bytes. So for multibyte text the engine is told a length shorter than
  the bytes it was given (see "## Findings").

The session (`Instance`) is modelled from what spec/instance_spec.rb states about it. Its type
sits in the low two bits of an 8-bit `type_flags` byte. `type=` rewrites only
those two bits. `reset!` re-initialises the session but keeps the type.
`stop!` and `error!` throw `:return` with `1` and `-1`. A session built over
an existing pointer is not re-initialised.

Modules, in dependency order:

- `Wrappers`: `Option` and `Result`.
- `Text`: strings as characters and their UTF-8 bytes.
- `Events`: the eight kinds, their shapes and their settings keys.
- `Control`: how a block finishes (`Outcome`), what reaches the engine
  (`Reply`), and Ruby exceptions.
- `Instances`: the session, its type flags, `reset!`, `stop!` and `error!`.
- `Callbacks`: the adapters of both flavours and the control-code contract.
- `Settings`: the slot table and the in-order application of registrations.
- `HttpParserParser` and `PacemanParser`: the two parser classes.

Modelling choices:

- A Ruby block is a `Block(arity, body)`. `body` is a function from the
  call's arguments to an `Outcome`. A block's side effects on the session
  happen inside the engine step and are not modelled separately.
- A configuration block (`Parser.new { |p| ... }`) is modelled by the
  sequence of `on_*` calls it makes, applied in order.
- The engine step `http_parser_execute` is a function parameter of `Parse`.
- The data passed to `parse` is a Ruby string, modelled as `seq<char>`. Its
  encoding is a parameter `encode: seq<char> -> seq<bv8>`. `Text.Utf8` is
  one such encoding, used to show the length discrepancy.
- The `TYPES` table is a parameter `types: map<TypeName, bv8>`. `ValidTypes`
  requires it to be total, with distinct codes that fit in two bits. The
  engine's numeric codes are not part of this model.
- The pointer passed to a data callback is modelled as the sequence of bytes
  that can be read through it. `get_bytes(0, length)` fails with an
  IndexError, which is a StandardError, when `length` lies outside that
  sequence.
- A registration in `HttpParser::Parser` without a block still stores an
  adapter. When that adapter runs, `yield` raises a LocalJumpError. The
  rescuing flavour turns this into `-1`. The propagating flavour never meets
  this case, because `assert_block` refuses a missing block.

Where the documentation and the code disagree, the model follows the code:

- `Paceman::Parser#parse` is documented to return an Integer byte count
  (lib/paceman/parser.rb:142-144). The code returns `!parser.error?`.
- `Paceman::Parser`'s data-event docs list a single yield parameter. The
  code demands arity 2, and the adapter yields the instance and the data.
- spec/error_spec.rb:9 and :14 expect `parse` to return true on an error and
  false on success. The code (lib/http-parser/parser.rb:163) does the
  opposite, and the model follows the code.

## Model

| member | source | states |
|---|---|---|
| Events.ExpectedArity | lib/paceman/parser.rb:21-42 | A signal kind demands a block of arity 1, and a data kind demands arity 2 (each direction holds). |
| Events.AllKindsIsCatalog | lib/http-parser/parser.rb:29-146 | There are exactly eight event kinds, each listed once. |
| Events.KeysDistinct | lib/http-parser/parser.rb:29-146 | Two kinds write the same settings key if and only if they are the same kind. |
| Events.ShapeCensus | lib/http-parser/parser.rb:29-146 | Four kinds are signal kinds (wrapped by `Callback`) and four are data kinds (wrapped by `DataCallback`). |
| Instances.TypeOf | spec/instance_spec.rb:37-47 | `type` gives a name exactly when the low two bits hold some name's code, and then that name's code is exactly those bits. |
| Instances.SetTypeFlags | spec/instance_spec.rb:50-64 | After `type = t`, reading `type` gives `t`, and the upper six flag bits are the ones there before. |
| Instances.SetType | spec/instance_spec.rb:50-55 | `type=` on a session changes only the type bits: the new type reads back, the upper bits, progress and error are kept. |
| Instances.Start | spec/instance_spec.rb:3-11 | Over an existing pointer the starting session is that session, untouched (no re-initialisation). Otherwise it is a fresh session of type `both`, with no progress and no error. |
| Instances.New | spec/instance_spec.rb:3-35 | Without a block, the result is the starting session. With a block, the block is yielded that starting session and its result is the instance. |
| Instances.Stop | spec/instance_spec.rb:67-71 | `stop!` throws `:return` with 1. |
| Instances.Abort | spec/instance_spec.rb:73-77 | `error!` throws `:return` with -1. |
| Instances.Reset | spec/instance_spec.rb:79-96 | `reset!` keeps the two type bits, clears the other flag bits and all progress, and leaves no error. |
| Instances.SetTypeLastWins | spec/instance_spec.rb:50-64 | Two type writes in a row equal the second write alone. |
| Instances.TypeIgnoresUpperBits | spec/instance_spec.rb:43-64 | With all upper bits set, `type` reads `response` from the response code. Setting `request` on `0xfc` gives `0xfc` joined with the request code. |
| Instances.NewDefaultsToBoth | spec/instance_spec.rb:23-35 | A new session is `both`, and a block that sets type `t` makes it `t`. |
| Instances.ResetKeepsOnlyType | spec/instance_spec.rb:89-96 | `reset!` preserves `type`. Two sessions reset to the same state if and only if their type bits agree. `reset!` is idempotent. |
| Callbacks.GetBytes | lib/http-parser/parser.rb:189 | The read succeeds if and only if `length` lies between 0 and the buffer size, and then yields exactly the first `length` bytes. A failure is a StandardError. |
| Callbacks.InvokeSignal | lib/http-parser/parser.rb:170-183 | The reply meets the control-code contract for the block's outcome. A normal return gives 0 whatever the value. A thrown code passes unchanged. A StandardError gives -1 under the rescuing flavour and escapes under the propagating one. A missing block raises LocalJumpError. |
| Callbacks.InvokeData | lib/http-parser/parser.rb:185-196 | The block receives exactly bytes `[0, length)` and the reply meets the control-code contract. A failed read gives -1 when rescuing and an escaping IndexError otherwise. |
| Callbacks.FlavoursDifferOnlyOnStandardError | lib/paceman/parser.rb:155-164 | For the same block, the two flavours' replies differ if and only if the block raised a StandardError. Then the rescuing flavour gives -1 and the propagating one lets it escape. |
| Callbacks.DataFlavoursDiffer | lib/paceman/parser.rb:166-173 | For the same block, the two data-adapter flavours differ if and only if the buffer read fails or the block raised a StandardError. |
| Callbacks.RescuingNeverLeaksStandardError | lib/http-parser/parser.rb:170-196 | Under the rescuing flavour, no StandardError reaches the engine from any adapter, for any block, buffer or length. |
| Callbacks.StopAndErrorCodes | spec/instance_spec.rb:67-77 | A block ending in `stop!` makes the adapter return 1, and `error!` makes it return -1, under either flavour. |
| Callbacks.DataSeesOnlyPrefix | lib/http-parser/parser.rb:187-190 | A data adapter's reply depends on the buffer only through its first `length` bytes. |
| Settings.Empty | lib/http-parser/parser.rb:15-16 | A new settings table has every slot empty. |
| Settings.AdapterFor | lib/http-parser/parser.rb:29-146 | Data kinds get a `DataCallback` and the others a `Callback`, wrapping the given block in the given flavour. |
| Settings.Store | lib/http-parser/parser.rb:30 | Writing a slot stores the adapter there, overwriting what was there, and leaves every other slot unchanged. It keeps slot shapes consistent. |
| Settings.ApplyLastWins | lib/http-parser/parser.rb:15-18 | After a sequence of registrations, a kind's slot holds the adapter from its last registration. |
| Settings.ApplyUntouched | lib/http-parser/parser.rb:15-18 | A kind that no registration names keeps its previous slot. |
| Settings.ApplyWellShaped | lib/http-parser/parser.rb:29-146 | Registrations never put an adapter of the wrong shape into a slot. |
| HttpParserParser.NewInstance | lib/http-parser/parser.rb:7-9 | `new_instance` without a block gives a fresh `both` session with no progress and no error. |
| HttpParserParser.On | lib/http-parser/parser.rb:29-146 | `on_*` writes its own slot with a rescuing adapter of the right shape. Every other slot is unchanged. |
| HttpParserParser.ConfigureIsApply | lib/http-parser/parser.rb:15-18 | Running a configuration block's registrations on the parser equals applying them in order to its settings. |
| HttpParserParser.NewSlotIsLastRegistration | lib/http-parser/parser.rb:15-18 | After `new`, a registered kind's slot holds a rescuing adapter for the block of its last registration. |
| HttpParserParser.NewSlotUnregistered | lib/http-parser/parser.rb:15-18 | After `new`, a kind the block never registered has an empty slot, and every slot has the right shape. |
| HttpParserParser.New | lib/http-parser/parser.rb:15-18 | `new` gives settings that are the block's registrations applied in order to empty settings, with every slot of the right shape. |
| HttpParserParser.ExecutionAsWritten | lib/http-parser/parser.rb:162 | As written, the engine is handed the string's bytes with the character count `data.length`. |
| HttpParserParser.ExecutionBytesize | lib/http-parser/parser.rb:162 | As intended, the length handed to the engine equals the number of bytes handed to it. |
| HttpParserParser.ExecutionsAgreeIffSingleByte | lib/http-parser/parser.rb:162 | The written and intended engine arguments coincide if and only if the string has as many bytes as characters. For UTF-8, that means if and only if it is ASCII. |
| HttpParserParser.MultibyteRequestIsCutShort | lib/http-parser/parser.rb:162 | For the UTF-8 request `GET /é HTTP/1.1` followed by an empty line, the engine receives 20 bytes but a length of 19, so the final line feed (byte 19) lies outside that length. |
| HttpParserParser.ParseAsWritten | lib/http-parser/parser.rb:161-164 | `parse` as written gives the engine the bytes and the character count. It returns true if and only if the session the engine leaves has no error. |
| HttpParserParser.Parse | lib/http-parser/parser.rb:161-164 | `parse` with the byte count gives the engine every byte of the string. It returns true if and only if the session the engine leaves has no error. |
| HttpParserParser.ParseFailsOnceErrored | lib/http-parser/parser.rb:161-164 | If the engine never clears an error, `parse` on a session that already has an error returns false, both as written and corrected. |
| HttpParserParser.ParsesAgreeOnSingleByteText | lib/http-parser/parser.rb:161-164 | When the data has one byte per character, the written and corrected `parse` give the same result. |
| PacemanParser.Refusal | lib/paceman/parser.rb:21-23 | A registration is refused if and only if the block is missing (MissingBlock, checked first) or its arity is not the kind's expected arity (WrongArity). |
| PacemanParser.On | lib/paceman/parser.rb:21-134 | A refused registration raises and leaves the parser unchanged. An accepted one writes only its own slot, with a propagating adapter. |
| PacemanParser.ConfigureSucceedsIffAllAccepted | lib/paceman/parser.rb:10-13 | `new` succeeds if and only if every registration in the block is accepted, and then the settings are those registrations applied in order. |
| PacemanParser.ConfigureFailsAtFirstRefusal | lib/paceman/parser.rb:10-13 | If registration `i` is the first refused one, `new` fails with that registration's refusal. |
| PacemanParser.New | lib/paceman/parser.rb:10-13 | `new` gives a parser if and only if every registration in the block is accepted. Its settings are then those registrations applied in order to empty settings. |
| PacemanParser.ParseAsWritten | lib/paceman/parser.rb:146-149 | `parse` as written gives the engine the bytes and the character count. It returns a Boolean that is true if and only if the session has no error afterwards. |
| PacemanParser.Parse | lib/paceman/parser.rb:146-149 | `parse` with the byte count gives the engine every byte. It returns a Boolean that is true if and only if the session has no error afterwards. |
| PacemanParser.ParsersAgree | lib/paceman/parser.rb:146-149 | Over the same settings, this parser's `parse` equals the rescuing parser's, both as written and corrected. |
| PacemanParser.SameSlotsAsRescuingParser | lib/paceman/parser.rb:21-134 | For an accepted block, both parsers fill the same slots with the same block. Only the adapter flavour differs. |

## Findings

| source | as written | input that shows it | evidently intended | confidence | as-written member | corrected member |
|---|---|---|---|---|---|---|
| lib/http-parser/parser.rb:162 | `http_parser_execute(inst, @settings, data, data.length)` passes the character count of a Ruby string as the byte length | the UTF-8 string `"GET /é HTTP/1.1\r\n\r\n"` has 19 characters and 20 bytes, so the engine is told 19 and never reads the final line feed | pass `data.bytesize`, so the length equals the number of bytes | medium, not executed | HttpParserParser.ParseAsWritten, HttpParserParser.MultibyteRequestIsCutShort | HttpParserParser.Parse, HttpParserParser.ExecutionBytesize |
| lib/paceman/parser.rb:147 | the same call with `data.length` | the same string | pass `data.bytesize` | medium, not executed | PacemanParser.ParseAsWritten, HttpParserParser.MultibyteRequestIsCutShort | PacemanParser.Parse, HttpParserParser.ExecutionBytesize |

For binary strings (`ASCII-8BIT`) and ASCII text the two lengths coincide
(HttpParserParser.ExecutionsAgreeIffSingleByte), which is why the usual
inputs behave.

## Left out

- The C engine (`http_parser_execute`, `http_parser_init`) is not modelled. Its effects are a function parameter of `Parse`. This covers URL resumption across chunks, pipelining, `stop!` suppressing the body, the status code, `upgrade?`, and method and version parsing.
- Instances.EngineInit: clears the flag bits above the type and all progress. This follows the engine's initialisation routine, whose code is not part of this model.
- Error classification is not modelled. The `error` slot is an opaque `Option<ErrorKind>`, because the error classes live in a file that is not part of this model.
- Exceptions escaping `parse` are not modelled. In `Paceman::Parser`, an exception that escapes an adapter unwinds through the engine call and out of `parse`. The engine's call stack is not modelled, so this shows only in the adapter's `Escaped` reply.
- `throw` with a tag other than `:return` is not modelled. It is not caught by the adapters, and what it becomes depends on code outside this layer.
- Integer conversion is not modelled. A thrown value is taken to be an integer. The conversion of the block's result to the engine's C `int`, which raises on a non-integer or an out-of-range value, is outside the Ruby code shown.
- `assert_block` and `assert_arity` are modelled only as "raise before writing any slot". Arity is checked by equality with 1 or 2, and their messages are not modelled.
- Configuration blocks are modelled only through the `on_*` registrations they make. Other effects of a block are not modelled.
- Instances.Reset: keeps the raw two-bit type code. For the one code that names no type, the behaviour of the real `reset!` is not known.
- The FFI `Settings` struct, function-pointer marshalling, the loader in lib/paceman.rb, and `http_version` formatting are not modelled. They are plumbing, or their code is not part of this model.
- Callback objects passed to `new` (spec/parser_spec.rb:288-311) are not modelled. Neither `initialize` accepts an argument, so there is no code to model.
