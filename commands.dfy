/** The `createboard` slash command (`create_board`) and the name dispatch of
    `interaction_create`. Nothing is stored: the command only builds a reply. */
module Commands {
  import opened Serenity
  import opened Decimal

  const CREATE_BOARD_NAME: string := "createboard"

  /** Reply of `create_board` when the options have the wrong shape. */
  const BAD_OPTIONS_REPLY: string := "Error!"

  /** Reply of the dispatch for any command name other than `createboard`. */
  const UNKNOWN_COMMAND_REPLY: string := "Error"

  /** The fixed pieces of the confirmation `format!` string, around its three
      `{}` holes (threshold, emoji, channel id). */
  const CONFIRM_HEAD: string := "Created! I will now post with more than "
  const CONFIRM_MID: string := " reactions with the "
  const CONFIRM_TAIL: string := " emoji, I will post it on <#"
  const CONFIRM_END: string := ">"

  /** The three values a well-formed `createboard` invocation carries. */
  datatype BoardRequest = BoardRequest(threshold: int, emoji: string, channelId: nat)

  /** What `create_board` demands before it looks at option kinds: a guild
      (`guild_id.unwrap()`), and three options each with a resolved value
      (`opts.get(i).expect(..)` and `resolved.as_ref().expect(..)`). Any other
      invocation panics. */
  predicate CanCreateBoard(command: ApplicationCommand)
  {
    && command.guildId.Some?
    && |command.options| >= 3
    && command.options[0].resolved.Some?
    && command.options[1].resolved.Some?
    && command.options[2].resolved.Some?
  }

  /** Options 0, 1 and 2 resolve to a channel, a string and an integer. */
  predicate WellShaped(command: ApplicationCommand)
    requires CanCreateBoard(command)
  {
    && command.options[0].resolved.value.ChannelValue?
    && command.options[1].resolved.value.StringValue?
    && command.options[2].resolved.value.IntegerValue?
  }

  /** The request a well-shaped invocation stands for. */
  function RequestOf(command: ApplicationCommand): BoardRequest
    requires CanCreateBoard(command) && WellShaped(command)
  {
    BoardRequest(command.options[2].resolved.value.integer,
                 command.options[1].resolved.value.text,
                 command.options[0].resolved.value.channelId)
  }

  /** The confirmation text, with the threshold and the channel id rendered
      in decimal as Rust's `Display` prints them. */
  function Confirmation(request: BoardRequest): string
  {
    CONFIRM_HEAD + IntToString(request.threshold) + CONFIRM_MID + request.emoji
      + CONFIRM_TAIL + NatToString(request.channelId) + CONFIRM_END
  }

  /** `create_board`: the confirmation when the options are a channel, a
      string and an integer in that order, `"Error!"` for any other shape. */
  function CreateBoard(command: ApplicationCommand): (reply: string)
    requires CanCreateBoard(command)
    ensures reply == BAD_OPTIONS_REPLY <==> !WellShaped(command)
    ensures WellShaped(command) ==> reply == Confirmation(RequestOf(command))
  {
    var channel := command.options[0].resolved.value;
    var emoji := command.options[1].resolved.value;
    var threshold := command.options[2].resolved.value;
    match channel
    case ChannelValue(channelId) =>
      (match emoji
       case StringValue(text) =>
         (match threshold
          case IntegerValue(n) =>
            ConfirmationIsNoError(BoardRequest(n, text, channelId));
            Confirmation(BoardRequest(n, text, channelId))
          case _ => BAD_OPTIONS_REPLY)
       case _ => BAD_OPTIONS_REPLY)
    case _ => BAD_OPTIONS_REPLY
  }

  /** The confirmation never coincides with either error reply. */
  lemma ConfirmationIsNoError(request: BoardRequest)
    ensures Confirmation(request) != BAD_OPTIONS_REPLY
    ensures Confirmation(request) != UNKNOWN_COMMAND_REPLY
  {
    var rest := IntToString(request.threshold) + CONFIRM_MID + request.emoji
                + CONFIRM_TAIL + NatToString(request.channelId) + CONFIRM_END;
    assert Confirmation(request) == CONFIRM_HEAD + rest;
    assert Confirmation(request)[0] == CONFIRM_HEAD[0] == 'C';
  }

  /** Reads a reply back into the request it confirms; `None` for anything
      that is not a confirmation. The threshold ends at the first character
      that cannot belong to a numeral, the channel id is the run of digits
      before the closing '>', and the emoji is whatever lies between. */
  function DecodeConfirmation(s: string): Option<BoardRequest>
  {
    var h := |CONFIRM_HEAD|;
    if |s| < h || s[..h] != CONFIRM_HEAD then None else DecodeFromThreshold(s[h..])
  }

  /** Decodes what follows the fixed head: threshold, middle text, rest. */
  function DecodeFromThreshold(rest: string): Option<BoardRequest>
  {
    var k := LeadingNumerals(rest);
    var threshold := ParseInt(rest[..k]);
    var after := rest[k..];
    if threshold.None? || |after| < |CONFIRM_MID| || after[..|CONFIRM_MID|] != CONFIRM_MID then None
    else DecodeFromEmoji(threshold.value, after[|CONFIRM_MID|..])
  }

  /** Decodes emoji, tail text, channel id and the closing '>'. */
  function DecodeFromEmoji(threshold: int, u: string): Option<BoardRequest>
  {
    if |u| == 0 || u[|u| - 1] != '>' then None
    else
      var body := u[..|u| - 1];
      var m := TrailingDigits(body);
      var before := body[..|body| - m];
      if m == 0 || |before| < |CONFIRM_TAIL| || before[|before| - |CONFIRM_TAIL|..] != CONFIRM_TAIL
      then None
      else Some(BoardRequest(threshold, before[..|before| - |CONFIRM_TAIL|], ParseNat(body[|body| - m..])))
  }

  lemma DecodeFromEmojiRoundTrip(threshold: int, e: string, channelId: nat)
    ensures DecodeFromEmoji(threshold, e + CONFIRM_TAIL + NatToString(channelId) + CONFIRM_END)
            == Some(BoardRequest(threshold, e, channelId))
  {
    var c := NatToString(channelId);
    var before := e + CONFIRM_TAIL;
    var body := before + c;
    var u := body + CONFIRM_END;
    assert u[..|u| - 1] == body;
    TrailingDigitsOfConcat(before, c);
    assert body[..|body| - |c|] == before;
    assert body[|body| - |c|..] == c;
    ParseNatToString(channelId);
    assert before[|before| - |CONFIRM_TAIL|..] == CONFIRM_TAIL;
    assert before[..|before| - |CONFIRM_TAIL|] == e;
  }

  /** After the head, a numeral followed by the middle text is read as the
      threshold, and decoding goes on with what follows the middle text. */
  lemma DecodeFromThresholdSplits(t: string, threshold: int, u: string)
    requires forall k :: 0 <= k < |t| ==> IsNumeral(t[k])
    requires ParseInt(t) == Some(threshold)
    ensures DecodeFromThreshold(t + (CONFIRM_MID + u)) == DecodeFromEmoji(threshold, u)
  {
    var after := CONFIRM_MID + u;
    var rest := t + after;
    LeadingNumeralsOfConcat(t, after);
    assert rest[..|t|] == t;
    assert rest[|t|..] == after;
    assert after[..|CONFIRM_MID|] == CONFIRM_MID;
    assert after[|CONFIRM_MID|..] == u;
  }

  lemma DecodeFromThresholdRoundTrip(request: BoardRequest)
    ensures DecodeFromThreshold(IntToString(request.threshold) + CONFIRM_MID + request.emoji
                                + CONFIRM_TAIL + NatToString(request.channelId) + CONFIRM_END)
            == Some(request)
  {
    var t := IntToString(request.threshold);
    var u := request.emoji + CONFIRM_TAIL + NatToString(request.channelId) + CONFIRM_END;
    assert t + CONFIRM_MID + request.emoji + CONFIRM_TAIL + NatToString(request.channelId) + CONFIRM_END
           == t + (CONFIRM_MID + u);
    IntToStringNumerals(request.threshold);
    ParseIntToString(request.threshold);
    DecodeFromThresholdSplits(t, request.threshold, u);
    DecodeFromEmojiRoundTrip(request.threshold, request.emoji, request.channelId);
  }

  /** The confirmation carries its threshold, emoji and channel id
      recoverably: decoding it gives back exactly the request. */
  lemma ConfirmationRoundTrip(request: BoardRequest)
    ensures DecodeConfirmation(Confirmation(request)) == Some(request)
  {
    var rest := IntToString(request.threshold) + CONFIRM_MID + request.emoji
                + CONFIRM_TAIL + NatToString(request.channelId) + CONFIRM_END;
    var s := Confirmation(request);
    assert s == CONFIRM_HEAD + rest;
    assert s[..|CONFIRM_HEAD|] == CONFIRM_HEAD;
    assert s[|CONFIRM_HEAD|..] == rest;
    DecodeFromThresholdRoundTrip(request);
  }

  /** Neither error reply decodes as a confirmation. */
  lemma ErrorRepliesDoNotDecode()
    ensures DecodeConfirmation(BAD_OPTIONS_REPLY) == None
    ensures DecodeConfirmation(UNKNOWN_COMMAND_REPLY) == None
  {
  }

  /** The reply of `create_board` decodes to the channel, emoji and threshold
      options exactly when they have the expected kinds, and to nothing
      otherwise. */
  lemma CreateBoardReplyDecodes(command: ApplicationCommand)
    requires CanCreateBoard(command)
    ensures DecodeConfirmation(CreateBoard(command))
            == if WellShaped(command) then Some(RequestOf(command)) else None
  {
    if WellShaped(command) {
      ConfirmationRoundTrip(RequestOf(command));
    } else {
      ErrorRepliesDoNotDecode();
    }
  }

  /** `interaction_create`: an application command is answered with one
      reply (`create_board`'s for `createboard`, `"Error"` for any other
      name); any other interaction gets no reply. The reply's delivery is
      left to the platform. */
  function InteractionCreate(interaction: Interaction): (reply: Option<string>)
    requires interaction.Command? && interaction.command.name == CREATE_BOARD_NAME
             ==> CanCreateBoard(interaction.command)
    ensures reply.Some? <==> interaction.Command?
    ensures interaction.Command? && interaction.command.name == CREATE_BOARD_NAME
            ==> reply == Some(CreateBoard(interaction.command))
    ensures reply == Some(UNKNOWN_COMMAND_REPLY)
            <==> interaction.Command? && interaction.command.name != CREATE_BOARD_NAME
  {
    match interaction
    case Command(command) =>
      if command.name == CREATE_BOARD_NAME then
        CreateBoardIsNotUnknown(command);
        Some(CreateBoard(command))
      else Some(UNKNOWN_COMMAND_REPLY)
    case _ => None
  }

  /** `create_board` never answers with the unknown-command reply, so a
      caller can tell the two error paths apart. */
  lemma CreateBoardIsNotUnknown(command: ApplicationCommand)
    requires CanCreateBoard(command)
    ensures CreateBoard(command) != UNKNOWN_COMMAND_REPLY
  {
    if WellShaped(command) {
      ConfirmationIsNoError(RequestOf(command));
    }
  }
}
