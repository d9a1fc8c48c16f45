# Starboard bot: decision logic

This project models the decision logic of a small Discord "starboard" bot
written in Rust on the serenity library (`src/main.rs`), and proves
properties of that model. The bot has three pieces of logic:

- **Reaction add** (`Bot::reaction_add`). The rule is fixed in the code:
  threshold 1, emoji 😊 (U+1F60A), board channel 862894859571298306. A reaction
  with any other emoji is ignored. For the board emoji, the handler fetches
  the message and walks its reaction list in order. At the first entry that is
  the board emoji with a count of at least the threshold, it sends one "Made
  the board" message to the board channel and stops, whether or not the send
  succeeded.
- **`createboard`** (`create_board`). It reads three resolved options. It
  answers with a confirmation naming the threshold, the emoji and `<#channel>`
  only when those options are a channel, a string and an integer, in that
  order. Any other shape gets `"Error!"`. Nothing is stored.
- **Command dispatch** (`interaction_create`). The command `createboard` is
  answered by `create_board`. Any other command name is answered with
  `"Error"`. An interaction that is not an application command gets no reply.

The code has no per-guild board table, no mapping from source messages to
board messages, no removal on reaction-remove events, no validation of the
emoji or threshold, and no conflict handling. The board settings are
constants, `create_board` persists nothing, and `reaction_remove` is
commented out. The model follows the code
and does not invent any of them.

The confirmation says "more than {threshold} reactions", but the
reaction-add rule is inclusive (`count >= threshold`). The two code paths are
not connected, since the reaction-add threshold is a constant, so this model
records the wording as it is. It does not treat it as a defect.

Modules:

- `Serenity` (serenity.dfy): the library types the handlers read. These are
  assumptions about serenity, whose source is not part of this model:
  - `ReactionType` is either `Unicode(symbol)` or `Custom(..)`.
  - `unicode_eq(s)` holds only for `Unicode(s)`.
  - A message's `reactions` is a list of (reaction kind, `u64` count) pairs.
  - Option values and interactions have the variants used below.
- `Decimal` (decimal.dfy): Rust's `Display` for integers, which `format!` and
  `to_string` use, together with its inverse, a parser.
- `Commands` (commands.dfy): `create_board`, a decoder for its reply, and the
  dispatch.
- `Reactions` (reactions.dfy): the reaction-add handler, written as a method
  with the source's loop and `break`. The handler's platform calls are inputs
  and effects:
  - the fetched reaction list is an input (`None` when the fetch fails);
  - the send's outcome is an input;
  - the calls made are returned as a sequence of effects.
  
  The method is proved equal to the specification function `ReactionAddRun`.
  The lemmas state the promised properties about that function.

## Model

| member | source | states |
|---|---|---|
| `Reactions.ReactionAdd` | src/main.rs:72-101 | The handler's effects (fetch, then at most one send) and how it ends equal `ReactionAddRun`: nothing for another emoji; a failed fetch panics after the fetch; otherwise the fetch is followed by the in-order scan that sends at the first qualifying entry and breaks |
| `Reactions.OtherEmojiIgnored` | src/main.rs:78-80 | A reaction whose emoji is not unicode-equal to 😊 makes the handler return with no fetch and no send |
| `Reactions.AtMostOneBoardMessage` | src/main.rs:85-99 | At most one message is sent per reaction event; when one is, the effects are exactly the fetch followed by that one send to the board channel, so nothing follows the send |
| `Reactions.SendsIffQualifyingEntry` | src/main.rs:78-99 | A board message is sent if and only if the event's emoji is 😊, the fetch succeeds, and some entry of the fetched list is unicode-equal to 😊 with count >= threshold, wherever that entry stands |
| `Reactions.ScanSendsIffSomeQualifies` | src/main.rs:85-99 | The in-order scan with `break` yields exactly one board send when some entry qualifies, and none otherwise |
| `Reactions.LaterEntriesNeverTried` | src/main.rs:89-98 | Entries after a qualifying entry have no influence: the scan of `before + [entry] + later` equals the scan of `before + [entry]` |
| `Reactions.CustomEntriesIgnored` | src/main.rs:89 | A custom (non-unicode) entry never qualifies, whatever its count, and removing it from the list leaves the scan unchanged |
| `Reactions.InclusiveThreshold` | src/main.rs:74-89 | With threshold 1 the test is inclusive: a 😊 entry qualifies if and only if its count is at least 1, and an entry whose count equals the threshold qualifies |
| `Reactions.ThresholdReactionMakesTheBoard` | src/main.rs:74-98 | For any fetched list that holds a 😊 entry whose count equals the threshold (1), wherever it stands and whatever else the list holds, a 😊 reaction event makes the handler fetch and then send exactly once to the board channel |
| `Reactions.FailedSendNotRetried` | src/main.rs:90-98 | A failed send is not retried and changes nothing else: with the send failing, the run has the same exit and the same effects as with it succeeding, except for the recorded outcome of that one send |
| `Commands.CreateBoard` | src/main.rs:32-67 | The reply is `"Error!"` if and only if options 0, 1 and 2 are not (Channel, String, Integer); when they are, the reply is the confirmation built from the threshold, the emoji and the channel id |
| `Commands.CreateBoardReplyDecodes` | src/main.rs:54-66 | Decoding the reply gives back (threshold, emoji, channel id) exactly when the options are a channel, a string and an integer in that order, and nothing for every other combination |
| `Commands.ConfirmationRoundTrip` | src/main.rs:58-60 | The confirmation contains the threshold, the emoji and `<#channel_id>` recoverably: decoding it yields exactly the request it was built from |
| `Commands.ConfirmationIsNoError` | src/main.rs:60-66 | A confirmation never equals `"Error!"` or `"Error"` |
| `Commands.ErrorRepliesDoNotDecode` | src/main.rs:66 | Neither `"Error!"` nor `"Error"` decodes as a confirmation |
| `Commands.InteractionCreate` | src/main.rs:140-145 | An application command gets exactly one reply and any other interaction none; `createboard` is answered with `create_board`'s reply; the reply is `"Error"` if and only if the command name is not `createboard` |
| `Commands.CreateBoardIsNotUnknown` | src/main.rs:142-145 | `create_board` never answers `"Error"`, so the unknown-command reply differs from both of its replies |
| `Decimal.ParseIntToString` | src/main.rs:60 | The decimal rendering of the `i64` threshold parses back to the same integer |
| `Decimal.IntToStringInjective` | src/main.rs:60 | Distinct thresholds render as distinct strings |
| `Decimal.NatToString` | src/main.rs:58 | A channel id renders as a non-empty string of decimal digits with no leading zero; the only rendering that starts with '0' is "0" itself, for 0 |

## Left out

- Client setup, reading `DISCORD_TOKEN` from the environment, and `client.start` (src/main.rs:19-30). These are process start-up and I/O.
- Global registration of the slash command in `ready` (src/main.rs:107-138). It is declarative library configuration. Its `.min_int_value(1)` is enforced by the platform, not by `create_board`, so the model accepts any `i64` threshold.
- The `println!` logging (src/main.rs:87, 95, 108, 155). A failed send and a failed interaction response are only logged, so they have no other effect in the model.
- The HTTP calls are not executed:
  - `get_message` becomes an input: the fetched reaction list, or `None` when the call fails.
  - `send_message` becomes a recorded effect whose outcome is an input.
  - `create_interaction_response` becomes the returned reply.
- The fetch targets the board channel rather than the reaction's channel (src/main.rs:83). The model keeps this as written.
- Async/await and the per-entry `Arc<Http>` clone (src/main.rs:86). These are concurrency plumbing and do not affect the decisions.
- Payloads of option values that `create_board` never reads. For example, a `Number` option carries an unmodelled float.
- The library's own behaviour is assumed, not modelled, because serenity's source is not part of this model. This covers `unicode_eq`, the decimal `Display` of a channel id, and which variants the types have.
- `Commands.CreateBoard`: the panics of `guild_id.unwrap()` and the `expect` calls on options 0 to 2 (src/main.rs:33-52) appear as the precondition `CanCreateBoard` rather than as an error path. `Commands.InteractionCreate` inherits that precondition for `createboard`.
- The code has no board table, no source-to-board message mapping, no removal on reaction-remove (src/main.rs:103-105 is commented out), and no duplicate suppression across events. None of these is modelled.
