/** Translation between channel names ("A", "B") and channel indices (0, 1). */
module Channels {
  import opened Base

  /** `n2c`: an index 0 or 1 is returned unchanged, "A" and "B" become 0 and 1,
      anything else is an invalid identifier. */
  function NameToChannel(x: Arg): (r: Result<Channel>)
    ensures r.Ok? <==> x in {Index(0), Index(1), Name("A"), Name("B")}
    ensures x.Index? && r.Ok? ==> r.value == x.i
  {
    match x
    case Index(i) => if i == 0 || i == 1 then Ok(i) else Err(InvalidId)
    case Name(n) => if n == "A" then Ok(0) else if n == "B" then Ok(1) else Err(InvalidId)
  }

  /** `c2n`: a name "A" or "B" is returned unchanged, 0 and 1 become "A" and "B",
      anything else is an invalid identifier. */
  function ChannelToName(x: Arg): (r: Result<string>)
    ensures r.Ok? <==> x in {Index(0), Index(1), Name("A"), Name("B")}
    ensures x.Name? && r.Ok? ==> r.value == x.s
  {
    match x
    case Name(n) => if n == "A" || n == "B" then Ok(n) else Err(InvalidId)
    case Index(i) => if i == 0 then Ok("A") else if i == 1 then Ok("B") else Err(InvalidId)
  }

  /** The two names, and the two indices, of the channels. */
  lemma ChannelNames()
    ensures NameToChannel(Name("A")) == Ok(0) && NameToChannel(Name("B")) == Ok(1)
    ensures ChannelToName(Index(0)) == Ok("A") && ChannelToName(Index(1)) == Ok("B")
  {
  }

  /** The two translations are inverse to each other: a name denotes a channel
      exactly when that channel is called by that name. */
  lemma NamesAndChannelsCorrespond(n: string, c: Channel)
    ensures NameToChannel(Name(n)) == Ok(c) <==> ChannelToName(Index(c)) == Ok(n)
  {
  }

  /** `n2c(c2n(c)) == c` for every channel, and `c2n(n2c(n)) == n` for every valid name. */
  lemma ChannelNameRoundTrip(c: Channel, n: string)
    ensures NameToChannel(Name(ChannelToName(Index(c)).value)) == Ok(c)
    ensures n in {"A", "B"} ==> ChannelToName(Index(NameToChannel(Name(n)).value)) == Ok(n)
  {
  }

  /** Whatever form a valid identifier takes, normalising it through its name
      denotes the same channel. */
  lemma NormalisationAgrees(x: Arg)
    requires NameToChannel(x).Ok?
    ensures ChannelToName(x).Ok?
    ensures NameToChannel(Name(ChannelToName(x).value)) == NameToChannel(x)
  {
  }
}
