/** The per-connection signalling state, `webrtcState` in
    wshandles/webrtchandle.go, and its `String()` method. */
module States {

  /** The five states, in the order of their `iota` values. */
  datatype WebRtcState = NotStarted | ReadyToBegin | Signalling | Streaming | Failed

  /** The integer a state stands for in Go (its position in the `const` block). */
  function Ord(s: WebRtcState): (n: nat)
    ensures n < |Names|
    ensures s == NotStarted <==> n == 0
    ensures s == Failed <==> n == |Names| - 1
  {
    match s
    case NotStarted => 0
    case ReadyToBegin => 1
    case Signalling => 2
    case Streaming => 3
    case Failed => 4
  }

  /** The array literal that `String()` indexes. */
  const Names: seq<string> := ["NotStarted", "ReadyToBegin", "Signalling", "Streaming", "Failed"]

  /** `webrtcState.String()`: a lookup in `Names` by the state's integer value. */
  function Name(s: WebRtcState): string
  {
    Names[Ord(s)]
  }

  /** `Ord` is a bijection onto the indices of `Names`, so every entry of the
      array names exactly one state. */
  lemma OrdInjective(a: WebRtcState, b: WebRtcState)
    ensures Ord(a) == Ord(b) <==> a == b
  {
  }

  /** Different states print differently, so a wrong-state warning tells the
      client which state the connection is in. */
  lemma NameInjective(a: WebRtcState, b: WebRtcState)
    ensures Name(a) == Name(b) <==> a == b
  {
  }

  /** "Moves forward" in the declaration order. */
  predicate Advances(from: WebRtcState, to: WebRtcState)
  {
    Ord(from) <= Ord(to)
  }
}
