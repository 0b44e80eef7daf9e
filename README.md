# Kythera channel state machine, in Dafny

This project models the channel core of kythera, an IRC services daemon that
links to a network as a TS6 server. The model covers:

- the `Channel` class: registration on creation, the member roster, removal from
  the channel registry when the last member leaves, and `parse_modes`. That
  method walks a mode string such as `+ntk-l secret` and sorts each character
  into the status (`o v`), list (`b`), parameter (`l k`) or boolean
  (`i m n p s t`) table. It shifts parameters, updates the channel's mode list,
  key and parameter values, hands status modes to the users and posts one
  event per non-toggle character once an action is set.
- the TS6 `join` decision: SJOIN to create a channel, JOIN plus an operator
  request to enter a populated one.
- TS6 `format_and_send_channel_mode`: one TMODE per pending mode change, after
  which the change is discarded.

Layout:

- `wrappers.dfy`: `Option`, standing for Ruby's `nil`.
- `modes.dfy`: mode symbols, the four category tables and `RemoveAll`
  (Ruby's `Array#delete`).
- `users.dfy`: a user's identity, and its `status_modes` kept as a table from
  user to channel to status list.
- `channel.dfy`: the global state as a `Context` class and the `Channel` class.
  The globals are `$channels`, `$users`, the `$eventq` event trace, the trace of
  outbound protocol calls and the pending `ChannelMode` set. The file also holds
  `Step` and `Parse`, the functional specification of one turn and of a whole
  run of `parse_modes`.
- `parse_properties.dfy`: lemmas about `Parse`.
- `ts6.dfy`: `Join` and `FormatAndSendChannelMode`.

`Channel.ParseModes` is proved equal to `Parse`, character by character. The
lemmas then state what a whole mode string does. The parser consumes
parameters, posts events, fills or clears the mode list, and keeps two channel
invariants:

- no status or list symbol ever enters the mode list;
- a key is only held while `keyed` is in the list.

It changes the status of registered users only, on this channel only.

Where the code and its comments disagree, or its intent is unclear, the model follows
the code:

- `l` shifts a parameter on delete too (lib/kythera/channel.rb:114), although
  the comment above it says it does not.
- An unrecognised character takes no parameter. On add it appends `nil` to the
  mode list, and otherwise it removes every `nil`. It still posts an add or
  delete event with a `nil` mode (lib/kythera/channel.rb:132-154). So the
  number of events equals the number of non-toggle characters after the first
  toggle, unknown ones included.
- Before the first `+` or `-`, the action is `nil`. A character then takes the
  delete path for the mode list and the key, and posts no event.
- `parse_modes` keeps "a key is set only while `keyed` is in the list"
  (`KeyOnlyWhenKeyedPreserved`). The converse fails: `+k` with no parameter
  left sets `keyed` with a `nil` key. `clear_modes` breaks the kept direction
  too, since it empties the list but keeps the key.

## Model

| member | source | states |
|---|---|---|
| Modes.RemoveAll | lib/kythera/channel.rb:135-137 | `Array#delete`: the symbol is gone, every other element of the result comes from the input and every other element of the input survives; input without the symbol is returned unchanged |
| Modes.RemoveAllCounts | lib/kythera/channel.rb:135-137 | `Array#delete` keeps every other element exactly as many times as it occurred (the multiset loses only the symbol) |
| Modes.RemoveAllConcat | lib/kythera/channel.rb:135-137 | `Array#delete` on a concatenation is the concatenation of the deletions, so the survivors keep their order |
| Users.AddStatusMode | lib/kythera/channel.rb:221-222 | granting a status appends it to that user's list on that channel; every other user and every other channel of that user is untouched |
| Users.DeleteStatusMode | lib/kythera/channel.rb:223-224 | revoking a status removes every occurrence from that user's list on that channel, touching nothing else; a user with no entry for that channel leaves the table exactly as it was |
| Users.DropChannel | lib/kythera/channel.rb:177 | a parting user's status entry for the channel is removed; all other entries and users stay |
| Channels.StatusChange | lib/kythera/channel.rb:213-226 | an unknown or missing target, or no action yet, changes no status; a known target gains the mode on add and loses it on delete on this channel; other users, and the target's entries for other channels, are untouched (a target with no entries gains at most an entry for this channel, and delete without an entry here changes nothing) |
| Channels.Channel.constructor | lib/kythera/channel.rb:56-68 | a new channel has no modes, no members and no key, is stored in the registry under its name, and posts exactly one `channel_added`; the registry invariant is kept |
| Channels.Channel.HasMode | lib/kythera/channel.rb:197-199 | true exactly when some entry of the mode list is the symbol |
| Channels.Channel.ClearModes | lib/kythera/channel.rb:202-204 | the mode list becomes empty; the key, parameter values and roster are untouched |
| Channels.Channel.AddUser | lib/kythera/channel.rb:162-168 | the user is stored under its key and one `user_joined_channel` is posted; nothing else changes |
| Channels.Channel.DeleteUser | lib/kythera/channel.rb:174-190 | the member and its status entry for this channel go and `user_parted_channel` is posted. Only if the roster is now empty, the name leaves the registry and `channel_deleted` follows; the registry invariant is kept |
| Channels.Channel.ParseModes | lib/kythera/channel.rb:82-156 | the new mode list, key, parameter values, remaining parameters, status tables and posted events are exactly those of `Parse` from no action; roster and registry are untouched |
| Channels.Channel.ParseModeChar | lib/kythera/channel.rb:96-154 | one non-toggle character: the parameter it takes, the mode-list, key, value and status updates and the event it posts |
| Channels.Channel.ParseModeCategory | lib/kythera/channel.rb:96-129 | the category chain resolves the character's symbol and shifts its parameter. `k` sets the key to that parameter on add and clears it otherwise; `l` records or clears its value. The mode list is untouched |
| Channels.Channel.ParseStatusMode | lib/kythera/channel.rb:213-226 | status changes go to the user found under the target; an unknown target changes nothing and posts nothing |
| Channels.Step | lib/kythera/channel.rb:85-155 | one character: a non-toggle keeps the action; exactly one parameter is consumed when its category takes one and any are left, none otherwise |
| Channels.Parse | lib/kythera/channel.rb:82-156 | a whole mode string: never more parameters come back than went in, and at most one event is posted per character |
| Channels.StepKeepsEarlierEvents | lib/kythera/channel.rb:149-154 | a character only appends events after those already posted |
| ModeParserProperties.ParamsConsumed | lib/kythera/channel.rb:97-129 | the remaining parameters are the input minus its first min(#`o v b k l` characters, #parameters); toggles, boolean and unknown characters take none |
| ModeParserProperties.ParamsConsumedExactly | lib/kythera/channel.rb:97-114 | with enough parameters, exactly one is consumed per `o v b k l` character, `l` included on delete |
| ModeParserProperties.EventsPosted | lib/kythera/channel.rb:83-155 | events are only appended and are all mode events on this channel. One is posted per non-toggle character after the first toggle (per non-toggle character when an action is already set); toggles post none |
| ModeParserProperties.NoMemberModesPreserved | lib/kythera/channel.rb:131-138 | a mode list without status or list symbols stays that way through any mode string |
| ModeParserProperties.PersistedNotMemberMode | lib/kythera/channel.rb:17-33 | no character that reaches the mode list resolves to a status or list symbol |
| ModeParserProperties.KeyOnlyWhenKeyedPreserved | lib/kythera/channel.rb:105-137 | if a set key implies `keyed` is in the list before parsing, it does after |
| ModeParserProperties.StatusStepLocal | lib/kythera/channel.rb:144-147 | one character changes the status only of a registered user, and only on this channel |
| ModeParserProperties.StatusChangesStayLocal | lib/kythera/channel.rb:213-226 | a whole mode string changes the status only of registered users, and only on this channel |
| ModeParserProperties.NoStatusCharsNoStatusChange | lib/kythera/channel.rb:140-147 | a mode string without `o` or `v` leaves every status table as it was |
| ModeParserProperties.AddRunAppends | lib/kythera/channel.rb:131-151 | under add, the mode list grows by exactly the symbols of the non-status, non-list characters, in order, duplicates and `nil` included; one add event per character |
| ModeParserProperties.RemoveRunClears | lib/kythera/channel.rb:105-154 | under delete or no action, every non-status, non-list character's symbol is absent afterwards and nothing new enters the list. A `k` leaves no key and an `l` no limit, while without them key and values are unchanged. Every symbol no character names stays exactly as often as it was. Delete posts one event per character, all of them delete events, after those already posted; no action posts none |
| ModeParserProperties.RemoveRunRemovesNamed | lib/kythera/channel.rb:105-154 | off add, every symbol the run's persisting characters name is absent afterwards and nothing new enters; `k` leaves no key and `l` no limit, otherwise both are unchanged; delete posts one event per character, no action none |
| ModeParserProperties.RemoveRunKeepsOthers | lib/kythera/channel.rb:131-137 | off add, a run leaves every symbol none of its characters names exactly as often as it was |
| ModeParserProperties.RemoveRunPostsDeletes | lib/kythera/channel.rb:149-154 | on delete, a run keeps the events already posted and every event it adds is `mode_deleted_on_channel` |
| ModeParserProperties.RemoveStepKeepsOthers | lib/kythera/channel.rb:131-137 | off add, one character leaves every symbol it does not name as often as it was |
| ModeParserProperties.ParseAppend | lib/kythera/channel.rb:85-155 | parsing `a + b` is parsing `b` from the state `a` leaves, so a mixed string splits into its runs |
| ModeParserProperties.AddedModesReported | lib/kythera/channel.rb:197-199 | after `+` and a run, `has_mode?` is true for every symbol the run's persisting characters name |
| ModeParserProperties.DeletedModesReported | lib/kythera/channel.rb:197-199 | after `-` and a run, `has_mode?` is false for every symbol the run's persisting characters name |
| ModeParserProperties.KeyedExample | lib/kythera/channel.rb:105-109 | `+ntk secret` gives modes no-external, topic-lock, keyed and key "secret" |
| ModeParserProperties.UnkeyExample | lib/kythera/channel.rb:105-109 | `-k secret` on a keyed channel clears the key and `keyed` and posts one delete event |
| ModeParserProperties.OpExample | lib/kythera/channel.rb:96-99 | `+o alice` for a registered alice grants her operator here, leaves the mode list alone and posts one add event |
| ModeParserProperties.UnknownUserExample | lib/kythera/channel.rb:213-219 | `+ov` naming unregistered users consumes both parameters, changes no status and still posts two events |
| ModeParserProperties.UnknownCharExample | lib/kythera/channel.rb:111-137 | an unknown character takes no parameter, so `l` gets the next one; the unknown one lands in the list as `nil` with its own event |
| TS6.Join | lib/kythera/protocol/ts6.rb:35-66 | an unregistered origin returns nil and changes nothing. Otherwise the channel is created if missing. On a channel empty beforehand: SJOIN (name, timestamp, uid), operator granted locally, `mode_added_on_channel(:operator, user, channel)`. Otherwise: JOIN (uid, name, timestamp) then an operator toggle request, no local grant. The user joins the roster last, the send is returned, and other channel state and the registry invariant are kept. Only the target channel may change; every other registered channel is untouched |
| TS6.FormatAndSendChannelMode | lib/kythera/protocol/ts6.rb:72-85 | exactly one TMODE goes out: origin is the user's key or nil, then the channel's name and timestamp, then formatted modes + " " + parameters. The change then leaves the pending collection; nothing else changes |

## Left out

- Logging (`$log.debug`, `$log.warn`) is dropped; a warning path is modelled as "no state change".
- Event handlers are not modelled. `$eventq.post` only appends to the event trace, so nested, depth-first handler dispatch is not represented.
- `send_sjoin`, `send_join`, `send_tmode` and `toggle_status_mode` are defined in files that are not part of this model. Each call is an entry in the outbound trace. What the transport returns is not modelled, so `TS6.Join` returns the command record as "the send's result".
- `format_channel_mode` is not part of this model. It is a function parameter of `TS6.FormatAndSendChannelMode`.
- The user class is not part of this model. `add_status_mode` is assumed to append to the user's list for the channel, and `delete_status_mode` to remove every occurrence. The user's `status_modes` hash lives in the context, keyed by the user's (key, uid) value.
- The user registry is keyed by user key, as its callers use it. `$users[nil]` (a status mode with no parameter left) is taken as "unknown user".
- `IRCHash` case-mapping is not part of this model; names and keys compare as plain strings.
- `Channel#timestamp` comes from the TS6 channel subclass, which is not part of this model. It is an integer fixed at creation, taken from the caller.
- Channels.Channel.ParseModes: the caller's `params` array is shifted in place in Ruby; the model returns what is left instead of mutating the caller's array.
- The dynamic `attr_reader` for a parameter mode is the `extraParams` map. A `nil` value is an absent entry.
- `Protocol::ChannelMode` creation and how it enters the pending collection are not part of this model. Only its removal by `format_and_send_channel_mode` is.
- TS6.FormatAndSendChannelMode: sending the same change twice is not rejected, because the code does not check. The second call sends a second TMODE and leaves it absent from the pending collection.
- The `assert { ... }` argument type checks in `join` are not modelled; the Dafny types already enforce them.
- lib/kythera/connection.rb (socket callbacks), lib/kythera/service/twitter.rb (network client wrapper) and extensions/example/example.rb (a constructor that prints) are outside the core.
