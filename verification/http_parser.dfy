/**
 `HttpParser::Parser`: registration without arity checks, adapters of the
 rescuing flavour, and `parse`.
 */
module HttpParserParser {
  import opened Wrappers
  import opened Events
  import opened Instances
  import opened Callbacks
  import opened Settings
  import Text

  datatype Parser<V> = Parser(settings: Settings<V>)

  datatype ParseResult = ParseResult(inst: Instance, ok: bool)

  /** `Parser.new_instance`: a fresh session, optionally configured by a block. */
  function NewInstance(types: map<TypeName, bv8>, block: Option<Instance -> Instance>): (r: Instance)
    requires ValidTypes(types)
    ensures block.None? ==> TypeOf(types, r.typeFlags) == Some(Both) && r.progress == Fresh && !HasError(r)
    ensures block.Some? ==> r == block.value(Instances.New(types, None, None))
  {
    Instances.New(types, None, block)
  }

  /** Registration of slot `k`: wraps whatever block was passed (possibly none). */
  function On<V>(p: Parser<V>, k: Kind, block: Option<Block<V>>): (r: Parser<V>)
    ensures Lookup(r.settings, k) == Some(AdapterFor(k, Rescuing, block))
    ensures forall j :: j != k ==> Lookup(r.settings, j) == Lookup(p.settings, j)
    ensures WellShaped(p.settings) ==> WellShaped(r.settings)
  {
    Parser(Store(p.settings, k, AdapterFor(k, Rescuing, block)))
  }


  /** Runs the registrations a configuration block makes, in order. */
  function Configure<V>(p: Parser<V>, script: seq<Registration<V>>): Parser<V>
    decreases |script|
  {
    if |script| == 0 then p
    else
      var last := script[|script| - 1];
      On(Configure(p, script[..|script| - 1]), last.kind, last.block)
  }

  /**
   `Parser.new { |p| ... }`: settings are created empty, then the block
   registers on the parser; the result is the block's registrations applied
   in order to empty settings, each slot of the right shape.
   */
  function New<V>(script: seq<Registration<V>>): (r: Parser<V>)
    ensures r.settings == Apply(Empty(), script, Rescuing)
    ensures WellShaped(r.settings)
  {
    ConfigureIsApply(Parser(Empty<V>()), script);
    ApplyWellShaped(Empty<V>(), script, Rescuing);
    Configure(Parser(Empty()), script)
  }

  /** Running a configuration block is the ordered application of its registrations to the settings. */
  lemma {:induction false} ConfigureIsApply<V>(p: Parser<V>, script: seq<Registration<V>>)
    ensures Configure(p, script).settings == Apply(p.settings, script, Rescuing)
    decreases |script|
  {
    if |script| > 0 {
      ConfigureIsApply(p, script[..|script| - 1]);
    }
  }

  /** After `new`, a slot holds a rescuing adapter wrapping the block of the last registration of its kind. */
  lemma NewSlotIsLastRegistration<V>(script: seq<Registration<V>>, i: nat)
    requires i < |script|
    requires forall j :: i < j < |script| ==> script[j].kind != script[i].kind
    ensures Lookup(New(script).settings, script[i].kind)
         == Some(AdapterFor(script[i].kind, Rescuing, script[i].block))
  {
    ConfigureIsApply(Parser(Empty<V>()), script);
    ApplyLastWins(Empty<V>(), script, Rescuing, i);
  }

  /** After `new`, a kind the block never registered has an empty slot, and every filled slot has the right shape. */
  lemma NewSlotUnregistered<V>(script: seq<Registration<V>>, k: Kind)
    requires forall j :: 0 <= j < |script| ==> script[j].kind != k
    ensures Lookup(New(script).settings, k) == None
    ensures WellShaped(New(script).settings)
  {
    ConfigureIsApply(Parser(Empty<V>()), script);
    ApplyUntouched(Empty<V>(), script, Rescuing, k);
    ApplyWellShaped(Empty<V>(), script, Rescuing);
  }

  /** The buffer and length `parse` passes to `http_parser_execute`. */
  datatype Execution = Execution(bytes: seq<bv8>, length: nat)

  /**
   The engine arguments as the code computes them: the string's bytes
   (`encode` is the string's encoding) with `data.length`, which counts
   characters.
   */
  function ExecutionAsWritten(encode: seq<char> -> seq<bv8>, data: seq<char>): (e: Execution)
    ensures e.bytes == encode(data) && e.length == |data|
  {
    Execution(encode(data), |data|)
  }

  /** The engine arguments as intended: the string's bytes with their count (`data.bytesize`). */
  function ExecutionBytesize(encode: seq<char> -> seq<bv8>, data: seq<char>): (e: Execution)
    ensures e.bytes == encode(data)
    ensures e.length == |e.bytes|
  {
    var bytes := encode(data);
    Execution(bytes, |bytes|)
  }

  /**
   The two computations hand the engine the same arguments exactly when the
   string has as many bytes as characters; for UTF-8 text, exactly when it is
   ASCII.
   */
  lemma ExecutionsAgreeIffSingleByte(encode: seq<char> -> seq<bv8>, data: seq<char>)
    ensures ExecutionAsWritten(encode, data) == ExecutionBytesize(encode, data) <==> |encode(data)| == |data|
    ensures ExecutionAsWritten(Text.Utf8, data) == ExecutionBytesize(Text.Utf8, data) <==> Text.IsAscii(data)
  {
    Text.Utf8LengthVersusCharacters(data);
  }

  /**
   A UTF-8 request with one two-byte character: the code hands the engine
   19 as the length of 20 bytes, so the final line feed lies outside what
   the engine may read and the message never completes.
   */
  lemma MultibyteRequestIsCutShort(data: seq<char>)
    requires data == "GET /\U{00E9} HTTP/1.1\r\n\r\n"
    ensures var e := ExecutionAsWritten(Text.Utf8, data);
      && |data| == 19
      && |e.bytes| == 20
      && e.length == 19
      && e.bytes[19] == 0x0A
  {
    Text.AccentedRequestBytes(data, "GET /", " HTTP/1.1\r\n\r\n");
  }

  /**
   `parse` as written: the engine gets the string's bytes and its character
   count, and the reply is `!error?` of the session the engine leaves.
   */
  function ParseAsWritten<V>(engine: (Instance, Settings<V>, seq<bv8>, nat) -> Instance, encode: seq<char> -> seq<bv8>,
                             p: Parser<V>, inst: Instance, data: seq<char>): (r: ParseResult)
    ensures r.inst == engine(inst, p.settings, encode(data), |data|)
    ensures r.ok <==> r.inst.error == None
  {
    var e := ExecutionAsWritten(encode, data);
    var after := engine(inst, p.settings, e.bytes, e.length);
    ParseResult(after, !HasError(after))
  }

  /**
   `parse` with the length corrected to the byte count: the engine is
   offered every byte of the string, and the reply is true exactly when the
   session it leaves has no error.
   */
  function Parse<V>(engine: (Instance, Settings<V>, seq<bv8>, nat) -> Instance, encode: seq<char> -> seq<bv8>,
                    p: Parser<V>, inst: Instance, data: seq<char>): (r: ParseResult)
    ensures r.inst == engine(inst, p.settings, encode(data), |encode(data)|)
    ensures r.ok <==> r.inst.error == None
  {
    var e := ExecutionBytesize(encode, data);
    var after := engine(inst, p.settings, e.bytes, e.length);
    ParseResult(after, !HasError(after))
  }

  /**
   Once a session has an error, `parse` keeps reporting failure as long as
   the engine never clears an error (only `reset!` does).
   */
  lemma ParseFailsOnceErrored<V>(engine: (Instance, Settings<V>, seq<bv8>, nat) -> Instance, encode: seq<char> -> seq<bv8>,
                                 p: Parser<V>, inst: Instance, data: seq<char>)
    requires forall i, s, d, n :: HasError(i) ==> HasError(engine(i, s, d, n))
    requires HasError(inst)
    ensures !Parse(engine, encode, p, inst, data).ok
    ensures !ParseAsWritten(engine, encode, p, inst, data).ok
  {
  }

  /** On text with one byte per character the corrected and the written `parse` coincide. */
  lemma ParsesAgreeOnSingleByteText<V>(engine: (Instance, Settings<V>, seq<bv8>, nat) -> Instance,
                                      encode: seq<char> -> seq<bv8>, p: Parser<V>, inst: Instance, data: seq<char>)
    requires |encode(data)| == |data|
    ensures Parse(engine, encode, p, inst, data) == ParseAsWritten(engine, encode, p, inst, data)
  {
  }
}
