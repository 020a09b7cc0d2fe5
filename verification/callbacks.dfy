/**
 The two adapter classes, `Callback` (signal events) and `DataCallback`
 (data events), in the two flavours the repository ships: the rescuing
 flavour turns a StandardError into the abort code, the propagating flavour
 lets every exception unwind into the engine's call stack.
 */
module Callbacks {
  import opened Wrappers
  import opened Control
  import opened Instances

  /** What a block is called with: the instance, plus the bytes for data events. */
  datatype Args = SignalArgs(inst: Instance) | DataArgs(inst: Instance, data: seq<bv8>)

  /** A user block: its declared arity and what running it does. */
  datatype Block<V> = Block(arity: int, body: Args -> Outcome<V>)

  /** Rescuing: the adapter has a `rescue` clause. Propagating: it has none. */
  datatype Flavour = Rescuing | Propagating

  /** A wrapped block; `block` is None when the registration passed no block. */
  datatype Adapter<V> =
    | SignalCallback(flavour: Flavour, block: Option<Block<V>>)
    | DataCallback(flavour: Flavour, block: Option<Block<V>>)

  /** `yield`: running the captured block; with no block Ruby raises LocalJumpError. */
  function Yield<V>(block: Option<Block<V>>, args: Args): Outcome<V>
  {
    match block
    case None => Raised(StandardError("LocalJumpError"))
    case Some(b) => b.body(args)
  }

  /** `catch(:return) { yield; 0 }`: a normal return gives 0, a throw gives its value. */
  function CatchReturn<V>(o: Outcome<V>): Reply
  {
    match o
    case Returned(_) => Code(0)
    case Thrown(code) => Code(code)
    case Raised(e) => Escaped(e)
  }

  /** `begin ... rescue; -1; end`: StandardErrors become the abort code. */
  function RescueStandard(r: Reply): Reply
  {
    if r.Escaped? && r.error.StandardError? then Code(ErrorCode) else r
  }

  function Guard(flavour: Flavour, r: Reply): Reply
  {
    match flavour
    case Rescuing => RescueStandard(r)
    case Propagating => r
  }

  /**
   The control-code contract an adapter keeps towards the engine for a block
   outcome `o`: a normal return continues (0) whatever value the block
   produced, a thrown code is handed over unchanged, and an exception is
   absorbed as the abort code exactly when the flavour rescues and the
   exception is a StandardError; otherwise the exception escapes.
   */
  ghost predicate ControlContract<V>(flavour: Flavour, o: Outcome<V>, r: Reply)
  {
    match o
    case Returned(_) => r == Code(0)
    case Thrown(code) => r == Code(code)
    case Raised(e) =>
      if flavour == Rescuing && e.StandardError? then r == Code(ErrorCode) else r == Escaped(e)
  }

  /** `FFI::Pointer#get_bytes(0, length)` over the bytes readable at the engine's pointer. */
  function GetBytes(buffer: seq<bv8>, length: int): (r: Result<seq<bv8>, Exception>)
    ensures r.Success? <==> 0 <= length <= |buffer|
    ensures r.Success? ==> |r.value| == length && forall i :: 0 <= i < length ==> r.value[i] == buffer[i]
    ensures r.Failure? ==> r.error.StandardError?
  {
    if 0 <= length <= |buffer| then Success(buffer[..length]) else Failure(StandardError("IndexError"))
  }

  /** The engine calling a signal adapter with the session. */
  function InvokeSignal<V>(a: Adapter<V>, inst: Instance): (r: Reply)
    requires a.SignalCallback?
    ensures ControlContract(a.flavour, Yield(a.block, SignalArgs(inst)), r)
    ensures a.block.None? ==>
      r == (if a.flavour == Rescuing then Code(ErrorCode) else Escaped(StandardError("LocalJumpError")))
  {
    Guard(a.flavour, CatchReturn(Yield(a.block, SignalArgs(inst))))
  }

  /**
   The engine calling a data adapter with the session and a (pointer, length)
   pair: the block sees exactly the first `length` bytes; a failed read is an
   exception raised inside the adapter.
   */
  function InvokeData<V>(a: Adapter<V>, inst: Instance, buffer: seq<bv8>, length: int): (r: Reply)
    requires a.DataCallback?
    ensures 0 <= length <= |buffer| ==>
      ControlContract(a.flavour, Yield(a.block, DataArgs(inst, buffer[..length])), r)
    ensures !(0 <= length <= |buffer|) ==>
      r == (if a.flavour == Rescuing then Code(ErrorCode) else Escaped(StandardError("IndexError")))
  {
    var read := GetBytes(buffer, length);
    var inner := match read
      case Failure(e) => Escaped(e)
      case Success(data) => CatchReturn(Yield(a.block, DataArgs(inst, data)));
    Guard(a.flavour, inner)
  }

  /**
   The only behavioural difference between the two flavours: given the same
   block, their replies differ exactly when the block raised a StandardError,
   which the rescuing flavour turns into -1 and the propagating one lets escape.
   */
  lemma FlavoursDifferOnlyOnStandardError<V>(block: Option<Block<V>>, inst: Instance)
    ensures var o := Yield(block, SignalArgs(inst));
      InvokeSignal(SignalCallback(Rescuing, block), inst) != InvokeSignal(SignalCallback(Propagating, block), inst)
      <==> o.Raised? && o.error.StandardError?
    ensures var o := Yield(block, SignalArgs(inst));
      o.Raised? && o.error.StandardError? ==>
        InvokeSignal(SignalCallback(Rescuing, block), inst) == Code(ErrorCode)
        && InvokeSignal(SignalCallback(Propagating, block), inst) == Escaped(o.error)
  {
  }

  /**
   For data adapters the flavours also differ when the read of the buffer
   fails, since that read sits inside the rescuing flavour's `begin ... rescue`.
   */
  lemma DataFlavoursDiffer<V>(block: Option<Block<V>>, inst: Instance, buffer: seq<bv8>, length: int)
    ensures InvokeData(DataCallback(Rescuing, block), inst, buffer, length)
            != InvokeData(DataCallback(Propagating, block), inst, buffer, length)
      <==> !(0 <= length <= |buffer|)
           || (Yield(block, DataArgs(inst, buffer[..length])).Raised?
               && Yield(block, DataArgs(inst, buffer[..length])).error.StandardError?)
  {
  }

  /** Under the rescuing flavour no StandardError ever reaches the engine, whatever the block does. */
  lemma RescuingNeverLeaksStandardError<V>(a: Adapter<V>, inst: Instance, buffer: seq<bv8>, length: int)
    requires a.flavour == Rescuing
    ensures a.SignalCallback? ==> !(InvokeSignal(a, inst).Escaped? && InvokeSignal(a, inst).error.StandardError?)
    ensures a.DataCallback? ==>
      !(InvokeData(a, inst, buffer, length).Escaped? && InvokeData(a, inst, buffer, length).error.StandardError?)
  {
  }

  /** `stop!` and `error!` inside a block reach the engine as 1 and -1 under either flavour. */
  lemma StopAndErrorCodes<V>(flavour: Flavour, inst: Instance)
    ensures InvokeSignal(SignalCallback(flavour, Some(Block(1, (args: Args) => Stop<V>(args.inst)))), inst) == Code(1)
    ensures InvokeSignal(SignalCallback(flavour, Some(Block(1, (args: Args) => Abort<V>(args.inst)))), inst) == Code(-1)
  {
  }

  /** A data adapter's reply depends on the buffer only through its first `length` bytes. */
  lemma DataSeesOnlyPrefix<V>(a: Adapter<V>, inst: Instance, b1: seq<bv8>, b2: seq<bv8>, length: int)
    requires a.DataCallback?
    requires 0 <= length <= |b1| && length <= |b2|
    requires forall i :: 0 <= i < length ==> b1[i] == b2[i]
    ensures InvokeData(a, inst, b1, length) == InvokeData(a, inst, b2, length)
  {
    assert b1[..length] == b2[..length];
  }
}
