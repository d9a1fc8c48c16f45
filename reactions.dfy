/** The reaction-add handler (`Bot::reaction_add`): a reaction with the board
    emoji makes the bot fetch the message and, at the first entry of its
    reaction list that is the board emoji with at least the threshold count,
    send one board message and stop. The threshold, emoji and board channel
    are constants; nothing is stored between events.

    The platform calls are not executed here: the fetched message's reaction
    list (or the failure of the fetch) and the outcome of the send are inputs,
    and the calls the handler makes are recorded as a sequence of effects. */
module Reactions {
  import opened Serenity

  const THRESHOLD: U64 := 1
  /** U+1F60A, "smiling face with smiling eyes". */
  const BOARD_EMOJI: string := "\U{1F60A}"
  const BOARD_CHANNEL: U64 := 862894859571298306
  const BOARD_CONTENT: string := "Made the board: \n"

  /** A platform call the handler makes, in the order it makes them. A send
      records whether the platform accepted it. */
  datatype Effect =
    | GetMessage(channelId: U64, messageId: U64)
    | SendMessage(channelId: U64, content: string, delivered: bool)

  /** How the handler ends: normally, or by panicking on a failed fetch
      (`get_message(..).await.unwrap()`). */
  datatype Exit = Returned | Panicked

  datatype Run = Run(effects: seq<Effect>, exit: Exit)

  /** The send the handler makes when an entry qualifies. */
  function BoardSend(delivered: bool): Effect
  {
    SendMessage(BOARD_CHANNEL, BOARD_CONTENT, delivered)
  }

  /** An entry of the fetched reaction list that triggers the board post:
      the board emoji, with a count of at least the threshold. */
  predicate Qualifies(entry: MessageReaction)
  {
    UnicodeEq(entry.reactionType, BOARD_EMOJI) && entry.count >= THRESHOLD
  }

  predicate SomeQualifies(entries: seq<MessageReaction>)
  {
    exists i :: 0 <= i < |entries| && Qualifies(entries[i])
  }

  /** The effects of scanning the list in order: one send at the first
      qualifying entry and nothing after it. */
  function Scan(entries: seq<MessageReaction>, delivered: bool): seq<Effect>
  {
    if entries == [] then []
    else if Qualifies(entries[0]) then [BoardSend(delivered)]
    else Scan(entries[1..], delivered)
  }

  /** What one reaction-add event does. `fetched` is the reaction list of the
      message fetched from the board channel by the reaction's message id, or
      `None` when that fetch fails; `delivered` is the outcome of the send, if
      one is made. */
  function ReactionAddRun(reaction: Reaction, fetched: Option<seq<MessageReaction>>, delivered: bool): Run
  {
    if !UnicodeEq(reaction.emoji, BOARD_EMOJI) then Run([], Returned)
    else if fetched.None? then Run([GetMessage(BOARD_CHANNEL, reaction.messageId)], Panicked)
    else Run([GetMessage(BOARD_CHANNEL, reaction.messageId)] + Scan(fetched.value, delivered), Returned)
  }

  predicate SendsBoard(effects: seq<Effect>)
  {
    exists k :: 0 <= k < |effects| && effects[k].SendMessage?
  }

  predicate AtMostOneSend(effects: seq<Effect>)
  {
    forall j, k ::
      0 <= j < |effects| && 0 <= k < |effects| && effects[j].SendMessage? && effects[k].SendMessage?
      ==> j == k
  }

  /** `Bot::reaction_add`. */
  method ReactionAdd(reaction: Reaction, fetched: Option<seq<MessageReaction>>, delivered: bool)
    returns (effects: seq<Effect>, exit: Exit)
    ensures Run(effects, exit) == ReactionAddRun(reaction, fetched, delivered)
  {
    var threshold: U64 := THRESHOLD;
    var emoji := BOARD_EMOJI;
    var channelId: U64 := BOARD_CHANNEL;
    if !UnicodeEq(reaction.emoji, emoji) {
      return [], Returned;
    }
    effects := [GetMessage(channelId, reaction.messageId)];
    if fetched.None? {
      return effects, Panicked;
    }
    var entries := fetched.value;
    for i := 0 to |entries|
      invariant effects == [GetMessage(channelId, reaction.messageId)]
      invariant forall j :: 0 <= j < i ==> !Qualifies(entries[j])
      invariant Scan(entries, delivered) == Scan(entries[i..], delivered)
    {
      var entry := entries[i];
      assert entries[i..][1..] == entries[i + 1..];
      if UnicodeEq(entry.reactionType, emoji) && entry.count >= threshold {
        // The send's outcome is only logged; the loop stops either way.
        effects := effects + [SendMessage(channelId, BOARD_CONTENT, delivered)];
        break;
      }
    }
    exit := Returned;
  }

  /** A scan sends exactly when some entry qualifies, wherever it stands. */
  lemma {:induction false} ScanSendsIffSomeQualifies(entries: seq<MessageReaction>, delivered: bool)
    ensures Scan(entries, delivered) == (if SomeQualifies(entries) then [BoardSend(delivered)] else [])
  {
    if entries != [] {
      if !Qualifies(entries[0]) {
        ScanSendsIffSomeQualifies(entries[1..], delivered);
        if SomeQualifies(entries) {
          var i :| 0 <= i < |entries| && Qualifies(entries[i]);
          assert entries[1..][i - 1] == entries[i];
        }
        if SomeQualifies(entries[1..]) {
          var i :| 0 <= i < |entries[1..]| && Qualifies(entries[1..][i]);
          assert entries[i + 1] == entries[1..][i];
        }
      }
    }
  }

  /** Once an entry qualifies, the entries after it are never looked at. */
  lemma {:induction false} LaterEntriesNeverTried(
      before: seq<MessageReaction>, entry: MessageReaction, later: seq<MessageReaction>, delivered: bool)
    requires Qualifies(entry)
    ensures Scan(before + [entry] + later, delivered) == Scan(before + [entry], delivered)
  {
    if before == [] {
      assert ([] + [entry] + later)[0] == entry;
      assert ([] + [entry])[0] == entry;
    } else {
      assert (before + [entry] + later)[0] == before[0];
      assert (before + [entry] + later)[1..] == before[1..] + [entry] + later;
      assert (before + [entry])[1..] == before[1..] + [entry];
      LaterEntriesNeverTried(before[1..], entry, later, delivered);
    }
  }

  /** A custom (non-unicode) entry never qualifies, whatever its count:
      removing it from the list changes nothing. */
  lemma {:induction false} CustomEntriesIgnored(
      before: seq<MessageReaction>, entry: MessageReaction, later: seq<MessageReaction>, delivered: bool)
    requires entry.reactionType.Custom?
    ensures !Qualifies(entry)
    ensures Scan(before + [entry] + later, delivered) == Scan(before + later, delivered)
  {
    if before == [] {
      assert ([] + [entry] + later)[1..] == later;
      assert [] + later == later;
    } else {
      assert (before + [entry] + later)[0] == before[0];
      assert (before + later)[0] == before[0];
      assert (before + [entry] + later)[1..] == before[1..] + [entry] + later;
      assert (before + later)[1..] == before[1..] + later;
      CustomEntriesIgnored(before[1..], entry, later, delivered);
    }
  }

  /** The threshold test is inclusive: an entry of the board emoji whose
      count equals the threshold qualifies; with threshold 1, a count of 0
      does not, and a single board-emoji reaction does. */
  lemma InclusiveThreshold(count: U64)
    ensures Qualifies(MessageReaction(Unicode(BOARD_EMOJI), count)) <==> count >= 1
    ensures Qualifies(MessageReaction(Unicode(BOARD_EMOJI), THRESHOLD))
  {
  }

  /** A reaction other than the board emoji makes the handler return before
      fetching anything, so nothing is fetched and nothing is sent. */
  lemma OtherEmojiIgnored(reaction: Reaction, fetched: Option<seq<MessageReaction>>, delivered: bool)
    requires !UnicodeEq(reaction.emoji, BOARD_EMOJI)
    ensures ReactionAddRun(reaction, fetched, delivered) == Run([], Returned)
  {
  }

  /** At most one board message is sent per reaction event, to the board
      channel, and it is the handler's last effect. */
  lemma AtMostOneBoardMessage(reaction: Reaction, fetched: Option<seq<MessageReaction>>, delivered: bool)
    ensures AtMostOneSend(ReactionAddRun(reaction, fetched, delivered).effects)
    ensures SendsBoard(ReactionAddRun(reaction, fetched, delivered).effects) ==>
      ReactionAddRun(reaction, fetched, delivered).effects
        == [GetMessage(BOARD_CHANNEL, reaction.messageId), BoardSend(delivered)]
  {
    if UnicodeEq(reaction.emoji, BOARD_EMOJI) && fetched.Some? {
      ScanSendsIffSomeQualifies(fetched.value, delivered);
    }
  }

  /** A board message is sent if and only if the event's emoji is the board
      emoji, the fetch succeeds, and some entry of the fetched list is the
      board emoji with at least the threshold count. */
  lemma SendsIffQualifyingEntry(reaction: Reaction, fetched: Option<seq<MessageReaction>>, delivered: bool)
    ensures SendsBoard(ReactionAddRun(reaction, fetched, delivered).effects)
      <==> UnicodeEq(reaction.emoji, BOARD_EMOJI) && fetched.Some? && SomeQualifies(fetched.value)
  {
    var effects := ReactionAddRun(reaction, fetched, delivered).effects;
    if UnicodeEq(reaction.emoji, BOARD_EMOJI) && fetched.Some? {
      ScanSendsIffSomeQualifies(fetched.value, delivered);
      if SomeQualifies(fetched.value) {
        assert effects[1].SendMessage?;
      }
    }
  }

  /** A failed send is not retried and changes nothing else: the run with
      an undelivered send is the run with a delivered one, apart from the
      recorded outcome. */
  lemma FailedSendNotRetried(reaction: Reaction, fetched: Option<seq<MessageReaction>>)
    ensures ReactionAddRun(reaction, fetched, false).exit == ReactionAddRun(reaction, fetched, true).exit
    ensures |ReactionAddRun(reaction, fetched, false).effects| == |ReactionAddRun(reaction, fetched, true).effects|
    ensures forall k :: 0 <= k < |ReactionAddRun(reaction, fetched, false).effects| ==>
      var failed := ReactionAddRun(reaction, fetched, false).effects[k];
      var sent := ReactionAddRun(reaction, fetched, true).effects[k];
      failed == sent || (failed == BoardSend(false) && sent == BoardSend(true))
  {
    if UnicodeEq(reaction.emoji, BOARD_EMOJI) && fetched.Some? {
      ScanSendsIffSomeQualifies(fetched.value, false);
      ScanSendsIffSomeQualifies(fetched.value, true);
    }
  }

  /** An entry of the board emoji whose count is exactly the threshold is
      enough, wherever it stands in the fetched list and whatever the other
      entries are: the event fetches the message and sends once. */
  lemma ThresholdReactionMakesTheBoard(
      reaction: Reaction, entries: seq<MessageReaction>, delivered: bool)
    requires reaction.emoji == Unicode(BOARD_EMOJI)
    requires MessageReaction(Unicode(BOARD_EMOJI), THRESHOLD) in entries
    ensures ReactionAddRun(reaction, Some(entries), delivered).effects
            == [GetMessage(BOARD_CHANNEL, reaction.messageId), BoardSend(delivered)]
  {
    var i :| 0 <= i < |entries| && entries[i] == MessageReaction(Unicode(BOARD_EMOJI), THRESHOLD);
    assert Qualifies(entries[i]);
    ScanSendsIffSomeQualifies(entries, delivered);
  }
}
