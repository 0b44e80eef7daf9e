/**
 * The TS6 protocol decisions of lib/kythera/protocol/ts6.rb: how a service
 * client joins a channel (SJOIN to create it, JOIN plus an op request
 * otherwise) and how a pending channel mode change goes out as one TMODE.
 */
module TS6 {
  import opened Wrappers
  import opened Modes
  import opened Users
  import opened Channels

  /**
   * `join(origin, target)`. An origin missing from the user registry changes
   * nothing and yields nil. Otherwise the channel is created if needed; if it
   * has no members yet an SJOIN goes out and the user is recorded as
   * operator, else a JOIN and an operator request go out. The user joins the
   * roster last, and the first command sent is the result.
   */
  method Join(ctx: Context, origin: string, target: string, now: int) returns (ret: Option<Command>)
    modifies ctx, if target in ctx.channels then {ctx.channels[target]} else {}
    ensures origin !in old(ctx.users) ==>
              ret == None && unchanged(ctx) && unchanged(old(ctx.channels.Values))
    ensures origin in old(ctx.users) ==>
              var user := old(ctx.users[origin]);
              && target in ctx.channels
              && var ch := ctx.channels[target];
              && ctx.channels == old(ctx.channels)[target := ch]
              && ctx.users == old(ctx.users) && ctx.pending == old(ctx.pending)
              && (target in old(ctx.channels) ==>
                    && ch == old(ctx.channels[target])
                    && ch.members == old(ch.members)[user.key := user]
                    && ch.modes == old(ch.modes) && ch.key == old(ch.key) && ch.extraParams == old(ch.extraParams))
              && (target !in old(ctx.channels) ==>
                    && fresh(ch) && ch.name == target && ch.timestamp == now
                    && ch.members == map[user.key := user]
                    && ch.modes == [] && ch.key == None && ch.extraParams == map[])
              && var created := if target in old(ctx.channels) then [] else [ChannelAdded(ch)];
              && (old(FoundEmpty(ctx.channels, target)) ==>
                    && ret == Some(SendSJoin(ch.name, ch.timestamp, user.uid))
                    && ctx.sent == old(ctx.sent) + [ret.value]
                    && ctx.statusModes == AddStatusMode(old(ctx.statusModes), user, ch, Operator)
                    && ctx.events == old(ctx.events) + created
                                     + [ModeAddedOnChannel(Some(Operator), UserArg(user), ch), UserJoinedChannel(user, ch)])
              && (!old(FoundEmpty(ctx.channels, target)) ==>
                    && ret == Some(SendJoin(user.uid, ch.name, ch.timestamp))
                    && ctx.sent == old(ctx.sent) + [ret.value, ToggleStatusMode(user, ch, Operator)]
                    && ctx.statusModes == old(ctx.statusModes)
                    && ctx.events == old(ctx.events) + [UserJoinedChannel(user, ch)])
    ensures old(ctx.Valid()) ==> ctx.Valid()
  {
    if origin !in ctx.users {
      return None;
    }
    var user := ctx.users[origin];

    var channel: Channel;
    if target in ctx.channels {
      channel := ctx.channels[target];
    } else {
      channel := new Channel(ctx, target, now);
    }

    if channel.members == map[] {
      var cmd := SendSJoin(channel.name, channel.timestamp, user.uid);
      ctx.sent := ctx.sent + [cmd];
      ret := Some(cmd);

      ctx.statusModes := AddStatusMode(ctx.statusModes, user, channel, Operator);
      ctx.events := ctx.events + [ModeAddedOnChannel(Some(Operator), UserArg(user), channel)];
    } else {
      var cmd := SendJoin(user.uid, channel.name, channel.timestamp);
      ctx.sent := ctx.sent + [cmd];
      ret := Some(cmd);
      ctx.sent := ctx.sent + [ToggleStatusMode(user, channel, Operator)];
    }

    channel.AddUser(ctx, user);
  }

  /** The registry has no channel under `target`, or that channel has no members. */
  ghost predicate FoundEmpty(channels: map<string, Channel>, target: string)
    reads if target in channels then {channels[target]} else {}
  {
    target !in channels || channels[target].members == map[]
  }

  /**
   * `format_and_send_channel_mode(cmode)`: one TMODE from the change's user
   * (nil when there is none) on its channel and channel timestamp, carrying
   * the formatted modes and parameters joined by a space; the change then
   * leaves the pending collection. `format` stands for `format_channel_mode`.
   */
  method FormatAndSendChannelMode(ctx: Context, cmode: ChannelMode, format: ChannelMode -> (string, string))
    modifies ctx
    ensures var (modes, params) := format(cmode);
            ctx.sent == old(ctx.sent) + [SendTMode(if cmode.user.Some? then Some(cmode.user.value.key) else None,
                                                   cmode.channel.name, cmode.channel.timestamp,
                                                   modes + " " + params)]
    ensures cmode !in ctx.pending
    ensures ctx.pending == old(ctx.pending) - {cmode}
    ensures ctx.channels == old(ctx.channels) && ctx.users == old(ctx.users)
    ensures ctx.statusModes == old(ctx.statusModes) && ctx.events == old(ctx.events)
  {
    var (modes, params) := format(cmode);
    var modeStr := modes + " " + params;
    var origin := if cmode.user.Some? then Some(cmode.user.value.key) else None;
    var target := cmode.channel.name;
    var timestamp := cmode.channel.timestamp;

    ctx.sent := ctx.sent + [SendTMode(origin, target, timestamp, modeStr)];

    ctx.pending := ctx.pending - {cmode};
  }
}
