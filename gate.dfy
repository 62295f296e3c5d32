/** Which incoming messages the bot answers at all (Bot.py:50-55). */
module Gate {

  /** `CHANNEL_ID == 0` means "answer in every channel". */
  const AllChannels: int := 0

  /** A message passes unless the bot wrote it, or a channel is configured
      and the message came from a different one. */
  predicate Handles(authorId: nat, channelId: nat, botUserId: nat, channelFilter: int)
  {
    if authorId == botUserId then false
    else if channelFilter != AllChannels && channelId != channelFilter then false
    else true
  }

  /** The gate in words: never the bot's own messages; with no channel
      configured every channel is served; otherwise exactly that channel. */
  lemma HandlesExactly(authorId: nat, channelId: nat, botUserId: nat, channelFilter: int)
    ensures authorId == botUserId ==> !Handles(authorId, channelId, botUserId, channelFilter)
    ensures authorId != botUserId && channelFilter == AllChannels ==>
      Handles(authorId, channelId, botUserId, channelFilter)
    ensures authorId != botUserId && channelFilter != AllChannels ==>
      (Handles(authorId, channelId, botUserId, channelFilter) <==> channelId == channelFilter)
  {
  }
}
