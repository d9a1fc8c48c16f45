/** The parts of the Discord client library that the bot relies on, reduced to
    the fields its handlers read. The library's source is not part of this
    model: the meanings below (in particular that of `UnicodeEq`) are
    assumptions about it, stated once here. */
module Serenity {

  /** Rust's `u64` and `i64`. */
  type U64 = x: int | 0 <= x < 0x1_0000_0000_0000_0000
  type I64 = x: int | -0x8000_0000_0000_0000 <= x < 0x8000_0000_0000_0000

  datatype Option<+T> = None | Some(value: T)

  /** The identity of a reaction: a unicode emoji, or a guild's custom emoji
      (referenced by id; its name is optional). */
  datatype ReactionType =
    | Unicode(symbol: string)
    | Custom(animated: bool, id: U64, name: Option<string>)

  /** `ReactionType::unicode_eq`: true only for a unicode reaction whose symbol
      is exactly `s`; a custom reaction is never unicode-equal to anything. */
  predicate UnicodeEq(r: ReactionType, s: string)
  {
    match r
    case Unicode(symbol) => symbol == s
    case Custom(_, _, _) => false
  }

  /** One entry of a fetched message's `reactions` list: a reaction kind and
      how many users reacted with it. */
  datatype MessageReaction = MessageReaction(reactionType: ReactionType, count: U64)

  /** The reaction-add gateway event, with the fields the handler reads. */
  datatype Reaction = Reaction(emoji: ReactionType, channelId: U64, messageId: U64)

  /** A resolved slash-command option value. The payloads are reduced to the
      ids that identify them; a `Number` option carries a float, which this
      model does not represent. */
  datatype OptionValue =
    | StringValue(text: string)
    | IntegerValue(integer: I64)
    | BooleanValue(flag: bool)
    | UserValue(userId: U64)
    | ChannelValue(channelId: U64)
    | RoleValue(roleId: U64)
    | NumberValue
    | AttachmentValue(attachmentId: U64)

  /** One option of a slash-command invocation; `resolved` is absent when the
      platform did not resolve a value for it. */
  datatype CommandOption = CommandOption(name: string, resolved: Option<OptionValue>)

  /** An application (slash) command invocation. `guildId` is absent when the
      command was invoked outside a guild. */
  datatype ApplicationCommand =
    ApplicationCommand(name: string, guildId: Option<U64>, options: seq<CommandOption>)

  /** The kinds of interaction the gateway delivers; only application commands
      carry data this model reads. */
  datatype Interaction =
    | Ping
    | Command(command: ApplicationCommand)
    | MessageComponent
    | Autocomplete
    | ModalSubmit
}
