/**
 `Paceman::Parser`: registration demands a block of the right arity, the
 adapters have no `rescue` (propagating flavour), and `parse` is as in the
 other parser.
 */
module PacemanParser {
  import opened Wrappers
  import opened Events
  import opened Instances
  import opened Callbacks
  import opened Settings
  import HttpParserParser

  datatype Parser<V> = Parser(settings: Settings<V>)

  /** Why `assert_block` / `assert_arity` refused a registration. */
  datatype RegistrationError = MissingBlock | WrongArity(expected: int, given: int)

  /** A registration's effect: the parser afterwards, and the exception raised, if any. */
  datatype Registered<V> = Registered(parser: Parser<V>, failure: Option<RegistrationError>)

  /** Whether `assert_block` and `assert_arity` let a block through for slot `k`. */
  predicate Accepts<V>(k: Kind, block: Option<Block<V>>)
  {
    block.Some? && block.value.arity == ExpectedArity(k)
  }

  /** `assert_block(block)` then `assert_arity(n, block)`: the exception raised, if any. */
  function Refusal<V>(k: Kind, block: Option<Block<V>>): (e: Option<RegistrationError>)
    ensures e.None? <==> Accepts(k, block)
    ensures block.None? ==> e == Some(MissingBlock)
    ensures block.Some? && block.value.arity != ExpectedArity(k) ==>
      e == Some(WrongArity(ExpectedArity(k), block.value.arity))
  {
    if block.None? then Some(MissingBlock)
    else if block.value.arity != ExpectedArity(k) then Some(WrongArity(ExpectedArity(k), block.value.arity))
    else None
  }

  /**
   Registration of slot `k`: the block must be present and of arity 1 for a
   signal kind, 2 for a data kind; otherwise an exception is raised before
   any slot is written.
   */
  function On<V>(p: Parser<V>, k: Kind, block: Option<Block<V>>): (r: Registered<V>)
    ensures r.failure == Refusal(k, block)
    ensures r.failure.Some? ==> r.parser == p
    ensures r.failure.None? ==>
      && Lookup(r.parser.settings, k) == Some(AdapterFor(k, Propagating, block))
      && (forall j :: j != k ==> Lookup(r.parser.settings, j) == Lookup(p.settings, j))
  {
    var refused := Refusal(k, block);
    if refused.Some? then Registered(p, refused)
    else Registered(Parser(Store(p.settings, k, AdapterFor(k, Propagating, block))), None)
  }


  /**
   Runs the registrations of a configuration block in order; the first
   refused one raises out of the block, so no parser results.
   */
  function Configure<V>(p: Parser<V>, script: seq<Registration<V>>): Result<Parser<V>, RegistrationError>
    decreases |script|
  {
    if |script| == 0 then Success(p)
    else
      var last := script[|script| - 1];
      match Configure(p, script[..|script| - 1])
      case Failure(e) => Failure(e)
      case Success(q) =>
        var reg := On(q, last.kind, last.block);
        if reg.failure.Some? then Failure(reg.failure.value) else Success(reg.parser)
  }

  /**
   `Parser.new { |p| ... }`: settings are created empty, then the block
   registers on the parser. It yields a parser exactly when every
   registration is accepted, holding those registrations applied in order.
   */
  function New<V>(script: seq<Registration<V>>): (r: Result<Parser<V>, RegistrationError>)
    ensures r.Success? <==> forall j :: 0 <= j < |script| ==> Accepts(script[j].kind, script[j].block)
    ensures r.Success? ==> r.value.settings == Apply(Empty(), script, Propagating)
  {
    ConfigureSucceedsIffAllAccepted(Parser(Empty<V>()), script);
    Configure(Parser(Empty()), script)
  }

  /**
   A configuration block succeeds exactly when every registration it makes is
   accepted, and then it is the ordered application of those registrations.
   */
  lemma {:induction false} ConfigureSucceedsIffAllAccepted<V>(p: Parser<V>, script: seq<Registration<V>>)
    ensures Configure(p, script).Success? <==> forall j :: 0 <= j < |script| ==> Accepts(script[j].kind, script[j].block)
    ensures Configure(p, script).Success? ==> Configure(p, script).value.settings == Apply(p.settings, script, Propagating)
    decreases |script|
  {
    if |script| > 0 {
      var prefix := script[..|script| - 1];
      ConfigureSucceedsIffAllAccepted(p, prefix);
      assert forall j :: 0 <= j < |prefix| ==> prefix[j] == script[j];
    }
  }

  /** A refused registration anywhere in the block makes `new` fail with the first refusal. */
  lemma {:induction false} ConfigureFailsAtFirstRefusal<V>(p: Parser<V>, script: seq<Registration<V>>, i: nat)
    requires i < |script| && !Accepts(script[i].kind, script[i].block)
    requires forall j :: 0 <= j < i ==> Accepts(script[j].kind, script[j].block)
    ensures Configure(p, script) == Failure(Refusal(script[i].kind, script[i].block).value)
    decreases |script|
  {
    if i < |script| - 1 {
      ConfigureFailsAtFirstRefusal(p, script[..|script| - 1], i);
    } else {
      var prefix := script[..|script| - 1];
      ConfigureSucceedsIffAllAccepted(p, prefix);
      assert forall j :: 0 <= j < |prefix| ==> prefix[j] == script[j];
    }
  }

  /**
   `parse` as written: the engine gets the string's bytes and its character
   count, and the reply is `!parser.error?` of the session it leaves.
   */
  function ParseAsWritten<V>(engine: (Instance, Settings<V>, seq<bv8>, nat) -> Instance, encode: seq<char> -> seq<bv8>,
                             p: Parser<V>, inst: Instance, data: seq<char>): (r: HttpParserParser.ParseResult)
    ensures r.inst == engine(inst, p.settings, encode(data), |data|)
    ensures r.ok <==> r.inst.error == None
  {
    var e := HttpParserParser.ExecutionAsWritten(encode, data);
    var after := engine(inst, p.settings, e.bytes, e.length);
    HttpParserParser.ParseResult(after, !HasError(after))
  }

  /**
   `parse` with the length corrected to the byte count: a Boolean, true
   exactly when the session the engine leaves has no error.
   */
  function Parse<V>(engine: (Instance, Settings<V>, seq<bv8>, nat) -> Instance, encode: seq<char> -> seq<bv8>,
                    p: Parser<V>, inst: Instance, data: seq<char>): (r: HttpParserParser.ParseResult)
    ensures r.inst == engine(inst, p.settings, encode(data), |encode(data)|)
    ensures r.ok <==> r.inst.error == None
  {
    var e := HttpParserParser.ExecutionBytesize(encode, data);
    var after := engine(inst, p.settings, e.bytes, e.length);
    HttpParserParser.ParseResult(after, !HasError(after))
  }

  /** Over the same settings the two parsers' `parse` agree, as written and corrected. */
  lemma ParsersAgree<V>(engine: (Instance, Settings<V>, seq<bv8>, nat) -> Instance, encode: seq<char> -> seq<bv8>,
                        p: Parser<V>, inst: Instance, data: seq<char>)
    ensures Parse(engine, encode, p, inst, data)
         == HttpParserParser.Parse(engine, encode, HttpParserParser.Parser(p.settings), inst, data)
    ensures ParseAsWritten(engine, encode, p, inst, data)
         == HttpParserParser.ParseAsWritten(engine, encode, HttpParserParser.Parser(p.settings), inst, data)
  {
  }

  /**
   Given the same accepted blocks, the two parsers fill the same slots with the
   same blocks; only the adapter flavour differs.
   */
  lemma SameSlotsAsRescuingParser<V>(p: Parser<V>, k: Kind, block: Option<Block<V>>)
    requires Accepts(k, block)
    ensures var mine := On(p, k, block).parser.settings;
            var theirs := HttpParserParser.On(HttpParserParser.Parser(p.settings), k, block).settings;
            mine.Keys == theirs.Keys
            && mine[k] == AdapterFor(k, Propagating, block)
            && theirs[k] == AdapterFor(k, Rescuing, block)
  {
  }
}
