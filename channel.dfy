/**
 * The channel entity of lib/kythera/channel.rb and the process-wide state it
 * works on. The globals `$channels`, `$users` and `$eventq` become fields of a
 * `Context`; posting an event appends it to `events`, and calls into code
 * that is not part of this model (`send_*`, `toggle_status_mode`) append a
 * record to `sent`.
 */
module Channels {
  import opened Wrappers
  import opened Modes
  import opened Users

  /** The parameter slot of a mode event: nil, a string from the mode line, or a user. */
  datatype Arg = NoArg | StrArg(s: string) | UserArg(u: User)

  function ArgOf(param: Option<string>): Arg {
    match param
    case None => NoArg
    case Some(s) => StrArg(s)
  }

  /** The events the core posts, with their payloads. */
  datatype Event =
    | ChannelAdded(channel: Channel)
    | ChannelDeleted(channel: Channel)
    | ModeAddedOnChannel(mode: Option<Mode>, param: Arg, channel: Channel)
    | ModeDeletedOnChannel(mode: Option<Mode>, param: Arg, channel: Channel)
    | UserJoinedChannel(user: User, channel: Channel)
    | UserPartedChannel(user: User, channel: Channel)

  /** Outbound protocol calls, in the argument order the protocol layer passes them. */
  datatype Command =
    | SendSJoin(name: string, timestamp: int, uid: string)
    | SendJoin(uid: string, name: string, timestamp: int)
    | ToggleStatusMode(user: User, channel: Channel, mode: Mode)
    | SendTMode(origin: Option<string>, target: string, timestamp: int, modeStr: string)

  /** A pending, locally originated channel mode change (`Protocol::ChannelMode`). */
  class ChannelMode {
    const user: Option<User>
    const channel: Channel

    constructor (user: Option<User>, channel: Channel)
      ensures this.user == user && this.channel == channel
    {
      this.user := user;
      this.channel := channel;
    }
  }

  /** The daemon's global state. */
  class Context {
    /** `$channels`: the channel registry, keyed by name. */
    var channels: map<string, Channel>
    /** `$users`: the user registry, keyed by user key. */
    var users: map<string, User>
    /** Every user's `status_modes`. */
    var statusModes: StatusTable<Channel>
    /** Every event posted on `$eventq`, oldest first. */
    var events: seq<Event>
    /** Every outbound protocol call, oldest first. */
    var sent: seq<Command>
    /** The collection of pending `ChannelMode`s. */
    var pending: set<ChannelMode>

    constructor (users: map<string, User>)
      ensures channels == map[] && this.users == users && statusModes == map[]
      ensures events == [] && sent == [] && pending == {}
    {
      channels := map[];
      this.users := users;
      statusModes := map[];
      events := [];
      sent := [];
      pending := {};
    }

    /** Every registered channel is registered under its own name. */
    ghost predicate Valid()
      reads this
    {
      forall n :: n in channels ==> channels[n].name == n
    }
  }

  /** The state `parse_modes` threads through its loop. */
  datatype ParseState = ParseState(
    action: Option<Action>,
    modes: seq<Option<Mode>>,
    key: Option<string>,
    extra: map<Mode, string>,
    params: seq<string>,
    status: StatusTable<Channel>,
    events: seq<Event>)

  /** The state before the first character: no action yet, nothing posted. */
  function Start(modes: seq<Option<Mode>>, key: Option<string>, extra: map<Mode, string>,
                 params: seq<string>, status: StatusTable<Channel>): ParseState
  {
    ParseState(None, modes, key, extra, params, status, [])
  }

  /** `params.shift`: the first parameter (nil when there is none) and the rest. */
  function Shift(params: seq<string>): (Option<string>, seq<string>) {
    if |params| == 0 then (None, []) else (Some(params[0]), params[1..])
  }

  /** What `parse_status_mode` does to the users' status tables. */
  function StatusChange(ch: Channel, users: map<string, User>, status: StatusTable<Channel>,
                        action: Option<Action>, mode: Mode, target: Option<string>): (r: StatusTable<Channel>)
    ensures target.None? || target.value !in users || action.None? ==> r == status
    ensures target.Some? && target.value in users && action == Some(Add) ==>
              StatusOf(r, users[target.value], ch) == StatusOf(status, users[target.value], ch) + [mode]
    ensures target.Some? && target.value in users && action == Some(Delete) ==>
              StatusOf(r, users[target.value], ch) == RemoveAll(StatusOf(status, users[target.value], ch), mode)
    ensures target.Some? && target.value in users ==> r - {users[target.value]} == status - {users[target.value]}
    ensures target.Some? && target.value in users && users[target.value] in status ==>
              users[target.value] in r && r[users[target.value]] - {ch} == status[users[target.value]] - {ch}
    ensures target.Some? && target.value in users && users[target.value] !in status ==>
              users[target.value] !in r || r[users[target.value]].Keys == {ch}
    ensures target.Some? && target.value in users && action == Some(Delete)
            && (users[target.value] !in status || ch !in status[users[target.value]])
            ==> r == status
  {
    if target.None? || target.value !in users then status
    else
      var user := users[target.value];
      match action
      case Some(Add) => AddStatusMode(status, user, ch, mode)
      case Some(Delete) => DeleteStatusMode(status, user, ch, mode)
      case None => status
  }

  /** The events one character posts: one for add, one for delete, none before any toggle. */
  function PostedFor(action: Option<Action>, mode: Option<Mode>, param: Option<string>, ch: Channel): seq<Event> {
    match action
    case Some(Add) => [ModeAddedOnChannel(mode, ArgOf(param), ch)]
    case Some(Delete) => [ModeDeletedOnChannel(mode, ArgOf(param), ch)]
    case None => []
  }

  /** The parameter a character takes off the list (nil when it takes none or none is left), and the rest. */
  function ParamFor(c: char, params: seq<string>): (Option<string>, seq<string>) {
    if TakesParam(c) then Shift(params) else (None, params)
  }

  /** The key after character `c`: only `k` sets it, to its parameter on add and to nil otherwise. */
  function KeyAfter(c: char, action: Option<Action>, param: Option<string>, key: Option<string>): Option<string> {
    if c == KeyChar then (if action == Some(Add) then param else None) else key
  }

  /** The parameter-mode values after character `c`: a parameter mode other than `k` records or clears its value. */
  function ExtraAfter(c: char, action: Option<Action>, param: Option<string>, extra: map<Mode, string>): map<Mode, string> {
    if c in ParamModes && c != KeyChar then
      (if action == Some(Add) && param.Some? then extra[ParamModes[c] := param.value]
       else extra - {ParamModes[c]})
    else extra
  }

  /** The channel's mode list after character `c`: every category but status and list appends on add, deletes otherwise. */
  function ModesAfter(c: char, action: Option<Action>, modes: seq<Option<Mode>>): seq<Option<Mode>> {
    if c in StatusModes || c in ListModes then modes
    else if action == Some(Add) then modes + [Resolve(c)]
    else RemoveAll(modes, Resolve(c))
  }

  /** The status tables after character `c`: only status modes touch them. */
  function StatusAfter(ch: Channel, users: map<string, User>, c: char, action: Option<Action>,
                       param: Option<string>, status: StatusTable<Channel>): StatusTable<Channel>
  {
    if c in StatusModes then StatusChange(ch, users, status, action, StatusModes[c], param) else status
  }

  /** One turn of the loop in `parse_modes`, on character `c`. */
  function Step(ch: Channel, users: map<string, User>, c: char, s: ParseState): (r: ParseState)
    ensures !IsToggle(c) ==> r.action == s.action
    ensures |r.params| == |s.params| - (if TakesParam(c) && |s.params| > 0 then 1 else 0)
  {
    if c == '+' then s.(action := Some(Add))
    else if c == '-' then s.(action := Some(Delete))
    else
      var (param, rest) := ParamFor(c, s.params);
      ParseState(s.action,
                 ModesAfter(c, s.action, s.modes),
                 KeyAfter(c, s.action, param, s.key),
                 ExtraAfter(c, s.action, param, s.extra),
                 rest,
                 StatusAfter(ch, users, c, s.action, param, s.status),
                 s.events + PostedFor(s.action, Resolve(c), param, ch))
  }

  /** Events already posted play no part in a step: it only appends to them. */
  lemma StepKeepsEarlierEvents(ch: Channel, users: map<string, User>, c: char, s: ParseState)
    ensures var alone := Step(ch, users, c, s.(events := []));
            Step(ch, users, c, s) == alone.(events := s.events + alone.events)
  {
  }

  /** `parse_modes` over a whole mode string. */
  function Parse(ch: Channel, users: map<string, User>, cs: string, s: ParseState): (r: ParseState)
    ensures |r.params| <= |s.params|
    ensures |r.events| <= |s.events| + |cs|
    decreases |cs|
  {
    if |cs| == 0 then s else Parse(ch, users, cs[1..], Step(ch, users, cs[0], s))
  }

  class Channel {
    /** The channel name, including its prefix. */
    const name: string
    /** The channel's creation time, set by the protocol's channel class. */
    const timestamp: int
    /** The key while the channel is +k. */
    var key: Option<string>
    /** The channel's mode symbols, in the order they were added; may repeat and may hold nil. */
    var modes: seq<Option<Mode>>
    /** The value of each parameter mode other than the key (`@limited`). */
    var extraParams: map<Mode, string>
    /** The roster, keyed by user key. */
    var members: map<string, User>

    /** A new, empty channel registers itself under its name and announces itself. */
    constructor (ctx: Context, name: string, timestamp: int)
      modifies ctx
      ensures this.name == name && this.timestamp == timestamp
      ensures modes == [] && members == map[] && key == None && extraParams == map[]
      ensures ctx.channels == old(ctx.channels)[name := this]
      ensures ctx.events == old(ctx.events) + [ChannelAdded(this)]
      ensures ctx.users == old(ctx.users) && ctx.statusModes == old(ctx.statusModes)
      ensures ctx.sent == old(ctx.sent) && ctx.pending == old(ctx.pending)
      ensures old(ctx.Valid()) ==> ctx.Valid()
    {
      this.name := name;
      this.timestamp := timestamp;
      key := None;
      modes := [];
      extraParams := map[];
      members := map[];
      new;
      ctx.channels := ctx.channels[name := this];
      ctx.events := ctx.events + [ChannelAdded(this)];
    }

    /** `has_mode?` */
    function HasMode(mode: Option<Mode>): (b: bool)
      reads this
      ensures b <==> exists i :: 0 <= i < |modes| && modes[i] == mode
    {
      mode in modes
    }

    /** `clear_modes`: the mode list empties; the key stays as it was. */
    method ClearModes()
      modifies this
      ensures modes == []
      ensures key == old(key) && extraParams == old(extraParams) && members == old(members)
    {
      modes := [];
    }

    /** `add_user` */
    method AddUser(ctx: Context, user: User)
      modifies this, ctx
      ensures members == old(members)[user.key := user]
      ensures user.key in members
      ensures ctx.events == old(ctx.events) + [UserJoinedChannel(user, this)]
      ensures modes == old(modes) && key == old(key) && extraParams == old(extraParams)
      ensures ctx.channels == old(ctx.channels) && ctx.users == old(ctx.users)
      ensures ctx.statusModes == old(ctx.statusModes) && ctx.sent == old(ctx.sent) && ctx.pending == old(ctx.pending)
    {
      members := members[user.key := user];
      ctx.events := ctx.events + [UserJoinedChannel(user, this)];
    }

    /**
     * `delete_user`: the member and its status entry go, the part is posted,
     * and a channel left empty leaves the registry and announces that.
     */
    method DeleteUser(ctx: Context, user: User)
      modifies this, ctx
      ensures members == old(members) - {user.key}
      ensures user.key !in members
      ensures ctx.statusModes == DropChannel(old(ctx.statusModes), user, this)
      ensures members == map[] ==>
                ctx.channels == old(ctx.channels) - {name} &&
                ctx.events == old(ctx.events) + [UserPartedChannel(user, this), ChannelDeleted(this)]
      ensures members != map[] ==>
                ctx.channels == old(ctx.channels) &&
                ctx.events == old(ctx.events) + [UserPartedChannel(user, this)]
      ensures modes == old(modes) && key == old(key) && extraParams == old(extraParams)
      ensures ctx.users == old(ctx.users) && ctx.sent == old(ctx.sent) && ctx.pending == old(ctx.pending)
      ensures old(ctx.Valid()) ==> ctx.Valid()
    {
      members := members - {user.key};
      ctx.statusModes := DropChannel(ctx.statusModes, user, this);
      ctx.events := ctx.events + [UserPartedChannel(user, this)];
      if members == map[] {
        ghost var was := ctx.channels;
        ctx.channels := ctx.channels - {name};
        assert forall n :: n in ctx.channels ==> n in was && ctx.channels[n] == was[n];
        ctx.events := ctx.events + [ChannelDeleted(this)];
      }
    }

    /**
     * `parse_modes`: walks the mode string once, shifting parameters off the
     * front of `params` (the remainder is returned), updating the mode list,
     * key and parameter values, handing status modes to the users, and
     * posting one event per non-toggle character once an action is set.
     */
    method ParseModes(ctx: Context, modeStr: string, params: seq<string>) returns (rest: seq<string>)
      modifies this, ctx
      ensures var r := Parse(this, old(ctx.users), modeStr,
                             Start(old(modes), old(key), old(extraParams), params, old(ctx.statusModes)));
              && modes == r.modes && key == r.key && extraParams == r.extra && rest == r.params
              && ctx.statusModes == r.status && ctx.events == old(ctx.events) + r.events
      ensures members == old(members)
      ensures ctx.channels == old(ctx.channels) && ctx.users == old(ctx.users)
      ensures ctx.sent == old(ctx.sent) && ctx.pending == old(ctx.pending)
    {
      var action: Option<Action> := None;
      rest := params;
      ghost var start := Start(modes, key, extraParams, params, ctx.statusModes);
      ghost var st := start;
      var i := 0;
      while i < |modeStr|
        invariant 0 <= i <= |modeStr|
        invariant Parse(this, ctx.users, modeStr[i..], st) == Parse(this, ctx.users, modeStr, start)
        invariant st.action == action && st.modes == modes && st.key == key && st.extra == extraParams
        invariant st.params == rest && st.status == ctx.statusModes
        invariant ctx.events == old(ctx.events) + st.events
        invariant members == old(members)
        invariant ctx.channels == old(ctx.channels) && ctx.users == old(ctx.users)
        invariant ctx.sent == old(ctx.sent) && ctx.pending == old(ctx.pending)
      {
        var c := modeStr[i];
        if c == '+' {
          action := Some(Add);
        } else if c == '-' {
          action := Some(Delete);
        } else {
          rest := ParseModeChar(ctx, action, c, rest);
          StepKeepsEarlierEvents(this, ctx.users, c, st);
        }
        assert modeStr[i..][1..] == modeStr[i + 1..];
        st := Step(this, ctx.users, c, st);
        i := i + 1;
      }
    }

    /**
     * The body of the loop in `parse_modes` for one character other than
     * `+` and `-`: settle its category and parameter, update the mode list,
     * hand a status mode to the user and post the event.
     */
    method ParseModeChar(ctx: Context, action: Option<Action>, c: char, params: seq<string>) returns (rest: seq<string>)
      requires !IsToggle(c)
      modifies this, ctx
      ensures var (param, r) := ParamFor(c, params);
              && rest == r
              && modes == ModesAfter(c, action, old(modes))
              && key == KeyAfter(c, action, param, old(key))
              && extraParams == ExtraAfter(c, action, param, old(extraParams))
              && ctx.statusModes == StatusAfter(this, old(ctx.users), c, action, param, old(ctx.statusModes))
              && ctx.events == old(ctx.events) + PostedFor(action, Resolve(c), param, this)
      ensures members == old(members)
      ensures ctx.channels == old(ctx.channels) && ctx.users == old(ctx.users)
      ensures ctx.sent == old(ctx.sent) && ctx.pending == old(ctx.pending)
    {
      var mode, param;
      mode, param, rest := ParseModeCategory(action, c, params);

      if c !in StatusModes && c !in ListModes {
        if action == Some(Add) {
          modes := modes + [mode];
        } else {
          modes := RemoveAll(modes, mode);
        }
      }

      if c in StatusModes {
        ParseStatusMode(ctx, action, StatusModes[c], param);
      }

      if action == Some(Add) {
        ctx.events := ctx.events + [ModeAddedOnChannel(mode, ArgOf(param), this)];
      } else if action == Some(Delete) {
        ctx.events := ctx.events + [ModeDeletedOnChannel(mode, ArgOf(param), this)];
      }
    }

    /**
     * The category chain of `parse_modes`: resolve the character's symbol,
     * shift its parameter, and for `k` and the other parameter modes record
     * or clear the value.
     */
    method ParseModeCategory(action: Option<Action>, c: char, params: seq<string>)
      returns (mode: Option<Mode>, param: Option<string>, rest: seq<string>)
      requires !IsToggle(c)
      modifies this
      ensures mode == Resolve(c)
      ensures (param, rest) == ParamFor(c, params)
      ensures key == KeyAfter(c, action, param, old(key))
      ensures extraParams == ExtraAfter(c, action, param, old(extraParams))
      ensures modes == old(modes) && members == old(members)
    {
      rest := params;
      mode := None;
      param := None;
      if c in StatusModes {
        mode := Some(StatusModes[c]);
        if |rest| > 0 { param := Some(rest[0]); rest := rest[1..]; }
      } else if c in ListModes {
        mode := Some(ListModes[c]);
        if |rest| > 0 { param := Some(rest[0]); rest := rest[1..]; }
      } else if c == KeyChar {
        mode := Some(Keyed);
        if |rest| > 0 { param := Some(rest[0]); rest := rest[1..]; }
        key := if action == Some(Add) then param else None;
      } else if c in ParamModes {
        mode := Some(ParamModes[c]);
        if |rest| > 0 { param := Some(rest[0]); rest := rest[1..]; }
        if action == Some(Add) && param.Some? {
          extraParams := extraParams[ParamModes[c] := param.value];
        } else {
          extraParams := extraParams - {ParamModes[c]};
        }
      } else if c in BoolModes {
        mode := Some(BoolModes[c]);
      }
    }

    /**
     * `parse_status_mode`: a status change for a known user goes to that
     * user; one for an unknown (or missing) target changes nothing.
     */
    method ParseStatusMode(ctx: Context, action: Option<Action>, mode: Mode, target: Option<string>)
      modifies ctx
      ensures ctx.statusModes == StatusChange(this, old(ctx.users), old(ctx.statusModes), action, mode, target)
      ensures target.None? || target.value !in ctx.users ==> ctx.statusModes == old(ctx.statusModes)
      ensures ctx.channels == old(ctx.channels) && ctx.users == old(ctx.users) && ctx.events == old(ctx.events)
      ensures ctx.sent == old(ctx.sent) && ctx.pending == old(ctx.pending)
    {
      if target.None? || target.value !in ctx.users {
        return;
      }
      var user := ctx.users[target.value];
      if action == Some(Add) {
        ctx.statusModes := AddStatusMode(ctx.statusModes, user, this, mode);
      } else if action == Some(Delete) {
        ctx.statusModes := DeleteStatusMode(ctx.statusModes, user, this, mode);
      }
    }
  }
}
