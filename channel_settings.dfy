/** Per-channel write policies (Runtime/ChannelSettings.cs) and the four
    channel settings every parameter set exposes (Runtime/IParameters.cs). */
module ChannelSettings {
  import opened Wrappers

  /** What a channel of the target receives. */
  datatype WriteType = Keep | Black | Grey | White | Write

  /** The enum's underlying value, as `(int) writeType` yields it. */
  function Ordinal(w: WriteType): (n: int)
    ensures 0 <= n <= 4
    ensures n == 0 <==> w == Keep
  {
    match w
    case Keep => 0
    case Black => 1
    case Grey => 2
    case White => 3
    case Write => 4
  }

  /** The policy with underlying value `n`, if `n` is one of the five. */
  function FromOrdinal(n: int): (r: Option<WriteType>)
    ensures r.Some? <==> 0 <= n <= 4
  {
    if n == 0 then Some(Keep)
    else if n == 1 then Some(Black)
    else if n == 2 then Some(Grey)
    else if n == 3 then Some(White)
    else if n == 4 then Some(Write)
    else None
  }

  /** All policies, in declaration order. */
  const AllWriteTypes: seq<WriteType> := [Keep, Black, Grey, White, Write]

  /** There are exactly five policies and each one's ordinal is its position. */
  lemma FivePolicies(w: WriteType)
    ensures |AllWriteTypes| == 5
    ensures w in AllWriteTypes
    ensures forall i :: 0 <= i < 5 ==> Ordinal(AllWriteTypes[i]) == i
  {
  }

  lemma OrdinalRoundTrip(w: WriteType)
    ensures FromOrdinal(Ordinal(w)) == Some(w)
  {
  }

  lemma FromOrdinalRoundTrip(n: int)
    requires 0 <= n <= 4
    ensures FromOrdinal(n).Some? && Ordinal(FromOrdinal(n).value) == n
  {
  }

  lemma OrdinalInjective(a: WriteType, b: WriteType)
    ensures Ordinal(a) == Ordinal(b) ==> a == b
  {
    OrdinalRoundTrip(a);
    OrdinalRoundTrip(b);
  }

  /** The `ChannelSettings` struct. */
  datatype ChannelSettings = ChannelSettings(writeType: WriteType)

  /** `new ChannelSettings(writeType)`. */
  function NewChannelSettings(writeType: WriteType): (c: ChannelSettings)
    ensures c.writeType == writeType
  {
    ChannelSettings(writeType)
  }

  /** The four channel settings of a parameter set, red to alpha. */
  datatype Channels = Channels(red: ChannelSettings, green: ChannelSettings,
                               blue: ChannelSettings, alpha: ChannelSettings)

  /** Every channel written with the computed noise. */
  const AllWrite: Channels := Channels(NewChannelSettings(Write), NewChannelSettings(Write),
                                       NewChannelSettings(Write), NewChannelSettings(Write))
}
