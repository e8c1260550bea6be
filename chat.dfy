/**
 * The parts of a chat message, and of the chat platform's cached state,
 * that the download pipeline reads.
 */
module Chat {
  import opened Wrappers

  datatype User = User(id: string, username: string, discriminator: string)

  /** The zero user that link collection puts in place of a missing author. */
  const EmptyUser := User("", "", "")

  datatype Attachment = Attachment(url: string, filename: string)

  /** An embed; `image` and `video` are None when the embed has no such part. */
  datatype Embed = Embed(url: string, image: Option<string>, video: Option<string>)

  datatype Message = Message(
    id: string,
    channelID: string,
    guildID: string,
    author: Option<User>,
    content: string,
    timestamp: string,
    attachments: seq<Attachment>,
    embeds: seq<Embed>)

  datatype ChannelKind = GuildText | DirectMessage | GroupDirectMessage | OtherKind

  /** What the platform's state cache knows about a channel: its name and kind,
      the name of its guild (None when it has none or the lookup failed) and the
      name of its parent category (None likewise). */
  datatype ChannelInfo = ChannelInfo(
    name: string,
    kind: ChannelKind,
    guildName: Option<string>,
    parentName: Option<string>)
}
