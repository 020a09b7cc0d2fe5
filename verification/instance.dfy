/**
 The parse session: the type flags byte shared with the engine, the
 engine-owned progress fields and the error slot.
 */
module Instances {
  import opened Wrappers
  import opened Control

  /** The message grammar the engine assumes. */
  datatype TypeName = Request | Response | Both

  /** Low two bits of the flags byte hold the type; the rest is engine scratch. */
  const TypeMask: bv8 := 0x03
  const FlagsMask: bv8 := 0xfc

  /**
   The TYPES table: every type name has a distinct two-bit code. The
   numeric codes are the engine's and are kept as a parameter.
   */
  ghost predicate ValidTypes(types: map<TypeName, bv8>)
  {
    && (forall t: TypeName :: t in types && types[t] <= TypeMask)
    && (forall a, b :: a in types && b in types && a != b ==> types[a] != types[b])
  }

  /** Engine error classifications; only the ones named by the callers are distinguished. */
  datatype ErrorKind = InvalidMethod | InvalidVersion | CallbackFailed | OtherEngineError(errno: nat)

  /** Fields the engine fills in while parsing. */
  datatype Progress = Progress(
    httpMethod: nat,
    httpMajor: nat,
    httpMinor: nat,
    httpStatus: nat,
    upgrade: bool,
    consumed: nat)

  const Fresh: Progress := Progress(0, 0, 0, 0, false, 0)

  datatype Instance = Instance(typeFlags: bv8, progress: Progress, error: Option<ErrorKind>)

  /** `error?`: whether the engine has recorded an error. */
  predicate HasError(inst: Instance)
  {
    inst.error.Some?
  }

  /** `type`: decodes the low two bits through the TYPES table (None for the unused code). */
  function TypeOf(types: map<TypeName, bv8>, flags: bv8): (t: Option<TypeName>)
    requires ValidTypes(types)
    ensures t.Some? <==> exists n: TypeName :: types[n] == flags & TypeMask
    ensures t.Some? ==> types[t.value] == flags & TypeMask
  {
    var code := flags & TypeMask;
    if code == types[Request] then Some(Request)
    else if code == types[Response] then Some(Response)
    else if code == types[Both] then Some(Both)
    else None
  }

  /** `type=`: rewrites the two type bits and keeps the other six. */
  function SetTypeFlags(types: map<TypeName, bv8>, flags: bv8, t: TypeName): (r: bv8)
    requires ValidTypes(types)
    ensures TypeOf(types, r) == Some(t)
    ensures r & FlagsMask == flags & FlagsMask
  {
    (flags & FlagsMask) | types[t]
  }

  function SetType(types: map<TypeName, bv8>, inst: Instance, t: TypeName): (r: Instance)
    requires ValidTypes(types)
    ensures TypeOf(types, r.typeFlags) == Some(t)
    ensures r.typeFlags & FlagsMask == inst.typeFlags & FlagsMask
    ensures r.progress == inst.progress && r.error == inst.error
  {
    inst.(typeFlags := SetTypeFlags(types, inst.typeFlags, t))
  }

  /**
   Engine initialisation with a two-bit type code: every flag bit other than
   the type, all progress and the error slot are cleared.
   */
  function EngineInit(code: bv8): (r: Instance)
    requires code <= TypeMask
    ensures r.typeFlags == code && r.progress == Fresh && !HasError(r)
  {
    Instance(code, Fresh, None)
  }

  /**
   The session `Instance.new(ptr)` starts from: over an existing session
   (`ptr`) nothing is re-initialised; otherwise a session of type `both` is
   initialised.
   */
  function Start(types: map<TypeName, bv8>, ptr: Option<Instance>): (r: Instance)
    requires ValidTypes(types)
    ensures ptr.Some? ==> r == ptr.value
    ensures ptr.None? ==> TypeOf(types, r.typeFlags) == Some(Both) && r.progress == Fresh && !HasError(r)
  {
    if ptr.Some? then ptr.value else EngineInit(types[Both])
  }

  /** `Instance.new(ptr) { |inst| ... }`: the optional block runs on the starting session. */
  function New(types: map<TypeName, bv8>, ptr: Option<Instance>, block: Option<Instance -> Instance>): (r: Instance)
    requires ValidTypes(types)
    ensures block.None? ==> r == Start(types, ptr)
    ensures block.Some? ==> r == block.value(Start(types, ptr))
    ensures ptr.Some? && block.None? ==> r == ptr.value
    ensures ptr.None? && block.None? ==>
      TypeOf(types, r.typeFlags) == Some(Both) && r.progress == Fresh && !HasError(r)
  {
    var start := Start(types, ptr);
    if block.Some? then block.value(start) else start
  }

  /** `reset!`: re-runs engine initialisation with the current type. */
  function Reset(inst: Instance): (r: Instance)
    ensures r.typeFlags & TypeMask == inst.typeFlags & TypeMask
    ensures r.typeFlags & FlagsMask == 0
    ensures r.progress == Fresh && !HasError(r)
  {
    EngineInit(inst.typeFlags & TypeMask)
  }

  /** `stop!`: throws `:return` with the stop code. */
  function Stop<V>(inst: Instance): (o: Outcome<V>)
    ensures o.Thrown? && o.code == 1
  {
    Thrown(StopCode)
  }

  /** `error!`: throws `:return` with the error code. */
  function Abort<V>(inst: Instance): (o: Outcome<V>)
    ensures o.Thrown? && o.code == -1
  {
    Thrown(ErrorCode)
  }

  /** Writing a type twice is the same as writing it once; the last write wins. */
  lemma SetTypeLastWins(types: map<TypeName, bv8>, flags: bv8, t1: TypeName, t2: TypeName)
    requires ValidTypes(types)
    ensures SetTypeFlags(types, SetTypeFlags(types, flags, t1), t2) == SetTypeFlags(types, flags, t2)
  {
  }

  /** `type` ignores the six engine bits: with all of them set it still reads `response`. */
  lemma TypeIgnoresUpperBits(types: map<TypeName, bv8>)
    requires ValidTypes(types)
    ensures TypeOf(types, FlagsMask | types[Response]) == Some(Response)
    ensures SetTypeFlags(types, FlagsMask, Request) == FlagsMask | types[Request]
  {
  }

  /** A fresh instance has type `both`, and a block may change it. */
  lemma NewDefaultsToBoth(types: map<TypeName, bv8>, t: TypeName)
    requires ValidTypes(types)
    ensures TypeOf(types, New(types, None, None).typeFlags) == Some(Both)
    ensures TypeOf(types, New(types, None, Some(i => SetType(types, i, t))).typeFlags) == Some(t)
  {
  }

  /** `reset!` keeps the type and forgets everything else: two sessions reset alike exactly when their types agree. */
  lemma ResetKeepsOnlyType(types: map<TypeName, bv8>, a: Instance, b: Instance)
    requires ValidTypes(types)
    ensures TypeOf(types, Reset(a).typeFlags) == TypeOf(types, a.typeFlags)
    ensures Reset(a) == Reset(b) <==> a.typeFlags & TypeMask == b.typeFlags & TypeMask
    ensures Reset(Reset(a)) == Reset(a)
  {
  }
}
