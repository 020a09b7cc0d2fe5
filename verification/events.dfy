/**
 The closed catalog of events the parsing engine reports, and the slot each
 one occupies in a parser's settings.
 */
module Events {

  /** The eight callback slots, in the order of the engine's settings record. */
  datatype Kind =
    | MessageBegin
    | Url
    | StatusComplete
    | HeaderField
    | HeaderValue
    | HeadersComplete
    | Body
    | MessageComplete

  /** Signal events carry no payload; data events carry a byte slice. */
  datatype Shape = Signal | Data

  const AllKinds: seq<Kind> :=
    [MessageBegin, Url, StatusComplete, HeaderField, HeaderValue, HeadersComplete, Body, MessageComplete]

  /** Which adapter class a registration method wraps its block in. */
  function ShapeOf(k: Kind): Shape
  {
    match k
    case Url | HeaderField | HeaderValue | Body => Data
    case MessageBegin | StatusComplete | HeadersComplete | MessageComplete => Signal
  }

  /** The settings key (a Ruby symbol, without its colon) a registration writes. */
  function Key(k: Kind): string
  {
    match k
    case MessageBegin => "on_message_begin"
    case Url => "on_url"
    case StatusComplete => "on_status_complete"
    case HeaderField => "on_header_field"
    case HeaderValue => "on_header_value"
    case HeadersComplete => "on_headers_complete"
    case Body => "on_body"
    case MessageComplete => "on_message_complete"
  }

  /** The block arity the arity-checking parser demands for a kind. */
  function ExpectedArity(k: Kind): (n: int)
    ensures n == 1 <==> ShapeOf(k) == Signal
    ensures n == 2 <==> ShapeOf(k) == Data
  {
    match ShapeOf(k)
    case Signal => 1
    case Data => 2
  }

  /** The catalog lists every kind exactly once. */
  lemma AllKindsIsCatalog()
    ensures |AllKinds| == 8
    ensures forall k: Kind :: k in AllKinds
    ensures forall i, j :: 0 <= i < j < |AllKinds| ==> AllKinds[i] != AllKinds[j]
  {
    forall k: Kind ensures k in AllKinds {
      match k
      case MessageBegin => assert AllKinds[0] == k;
      case Url => assert AllKinds[1] == k;
      case StatusComplete => assert AllKinds[2] == k;
      case HeaderField => assert AllKinds[3] == k;
      case HeaderValue => assert AllKinds[4] == k;
      case HeadersComplete => assert AllKinds[5] == k;
      case Body => assert AllKinds[6] == k;
      case MessageComplete => assert AllKinds[7] == k;
    }
  }

  /** Distinct kinds write distinct settings keys. */
  lemma KeysDistinct(a: Kind, b: Kind)
    ensures Key(a) == Key(b) <==> a == b
  {
  }

  /** Four kinds are signal kinds and four are data kinds. */
  lemma ShapeCensus()
    ensures |set k | k in AllKinds && ShapeOf(k) == Signal| == 4
    ensures |set k | k in AllKinds && ShapeOf(k) == Data| == 4
  {
    assert (set k | k in AllKinds && ShapeOf(k) == Signal)
        == {MessageBegin, StatusComplete, HeadersComplete, MessageComplete};
    assert (set k | k in AllKinds && ShapeOf(k) == Data)
        == {Url, HeaderField, HeaderValue, Body};
  }
}
