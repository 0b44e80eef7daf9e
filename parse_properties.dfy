/**
 * What `parse_modes` guarantees, stated over its specification `Parse`:
 * how many parameters it consumes, how many events it posts, what a run of
 * adds or deletes leaves in the mode list, and the channel invariants it keeps.
 */
module ModeParserProperties {
  import opened Wrappers
  import opened Modes
  import opened Users
  import opened Channels

  function Min(a: nat, b: nat): nat {
    if a <= b then a else b
  }

  /** How many characters of `cs` belong to a category that takes a parameter (`o v b k l`). */
  function CountParamChars(cs: string): nat {
    if |cs| == 0 then 0 else (if TakesParam(cs[0]) then 1 else 0) + CountParamChars(cs[1..])
  }

  /** How many characters of `cs` are not `+` or `-`. */
  function CountNonToggles(cs: string): nat {
    if |cs| == 0 then 0 else (if IsToggle(cs[0]) then 0 else 1) + CountNonToggles(cs[1..])
  }

  /** `cs` from its first `+` or `-` on (empty when it has none). */
  function FromFirstToggle(cs: string): string {
    if |cs| == 0 || IsToggle(cs[0]) then cs else FromFirstToggle(cs[1..])
  }

  /** The symbols the persisting characters of `cs` resolve to, in order (nil for unknown ones). */
  function PersistedSymbols(cs: string): seq<Option<Mode>> {
    if |cs| == 0 then []
    else (if PersistsOnChannel(cs[0]) then [Resolve(cs[0])] else []) + PersistedSymbols(cs[1..])
  }

  /** Some persisting character of `cs` resolves to `m`. */
  predicate Names(cs: string, m: Option<Mode>) {
    exists i :: 0 <= i < |cs| && PersistsOnChannel(cs[i]) && Resolve(cs[i]) == m
  }

  predicate NoToggles(cs: string) {
    forall i :: 0 <= i < |cs| ==> !IsToggle(cs[i])
  }

  predicate IsModeEvent(e: Event, ch: Channel) {
    (e.ModeAddedOnChannel? || e.ModeDeletedOnChannel?) && e.channel == ch
  }

  /** No status or list symbol sits in a channel's own mode list. */
  ghost predicate NoMemberModes(modes: seq<Option<Mode>>) {
    forall i :: 0 <= i < |modes| && modes[i].Some? ==> !IsMemberOrListMode(modes[i].value)
  }

  /** A key is only ever held while the keyed mode is in the list. */
  ghost predicate KeyOnlyWhenKeyed(key: Option<string>, modes: seq<Option<Mode>>) {
    key.Some? ==> Some(Keyed) in modes
  }

  /**
   * Every character of a category that takes a parameter shifts one off the
   * front, while any are left; no other character consumes one.
   */
  lemma {:induction false} ParamsConsumed(ch: Channel, users: map<string, User>, cs: string, s: ParseState)
    ensures Parse(ch, users, cs, s).params == s.params[Min(CountParamChars(cs), |s.params|)..]
  {
    if |cs| > 0 {
      var next := Step(ch, users, cs[0], s);
      ParamsConsumed(ch, users, cs[1..], next);
      if TakesParam(cs[0]) && |s.params| > 0 {
        assert next.params == s.params[1..];
      } else {
        assert next.params == s.params;
      }
    }
  }

  /** With enough parameters, exactly one per `o v b k l` character is consumed. */
  lemma ParamsConsumedExactly(ch: Channel, users: map<string, User>, cs: string, s: ParseState)
    requires CountParamChars(cs) <= |s.params|
    ensures |Parse(ch, users, cs, s).params| == |s.params| - CountParamChars(cs)
  {
    ParamsConsumed(ch, users, cs, s);
  }

  /**
   * Events are only appended, all of them mode events on this channel, one
   * per non-toggle character once an action has been set: with no action
   * yet, the characters before the first toggle post nothing.
   */
  lemma {:induction false} EventsPosted(ch: Channel, users: map<string, User>, cs: string, s: ParseState)
    ensures var r := Parse(ch, users, cs, s);
            && |s.events| <= |r.events|
            && r.events[..|s.events|] == s.events
            && |r.events| - |s.events| ==
                 (if s.action.None? then CountNonToggles(FromFirstToggle(cs)) else CountNonToggles(cs))
            && forall i :: |s.events| <= i < |r.events| ==> IsModeEvent(r.events[i], ch)
  {
    if |cs| > 0 {
      var next := Step(ch, users, cs[0], s);
      StepEvents(ch, users, cs[0], s);
      EventsPosted(ch, users, cs[1..], next);
      var r := Parse(ch, users, cs[1..], next);
      assert r.events[..|s.events|] == next.events[..|s.events|];
      forall i | |s.events| <= i < |r.events| ensures IsModeEvent(r.events[i], ch) {
        if i < |next.events| {
          assert r.events[i] == next.events[i];
        }
      }
    }
  }

  /** One character's events: none for a toggle or before any action, else one mode event on this channel. */
  lemma StepEvents(ch: Channel, users: map<string, User>, c: char, s: ParseState)
    ensures var next := Step(ch, users, c, s);
            && |next.events| == |s.events| + (if IsToggle(c) || s.action.None? then 0 else 1)
            && next.events[..|s.events|] == s.events
            && (forall i :: |s.events| <= i < |next.events| ==> IsModeEvent(next.events[i], ch))
            && (IsToggle(c) ==> next.action.Some?)
            && (!IsToggle(c) ==> next.action == s.action)
  {
  }

  /** A status or list symbol never enters the channel's mode list. */
  lemma {:induction false} NoMemberModesPreserved(ch: Channel, users: map<string, User>, cs: string, s: ParseState)
    requires NoMemberModes(s.modes)
    ensures NoMemberModes(Parse(ch, users, cs, s).modes)
  {
    if |cs| > 0 {
      var c := cs[0];
      var next := Step(ch, users, c, s);
      if PersistsOnChannel(c) {
        PersistedNotMemberMode(c);
        if s.action != Some(Add) {
          forall i | 0 <= i < |next.modes| && next.modes[i].Some?
            ensures !IsMemberOrListMode(next.modes[i].value)
          {
            assert next.modes[i] in s.modes;
          }
        }
      }
      NoMemberModesPreserved(ch, users, cs[1..], next);
    }
  }

  lemma PersistedNotMemberMode(c: char)
    requires PersistsOnChannel(c)
    ensures Resolve(c).Some? ==> !IsMemberOrListMode(Resolve(c).value)
  {
  }

  /** While the key is set, the keyed mode is in the list; parsing keeps that. */
  lemma {:induction false} KeyOnlyWhenKeyedPreserved(ch: Channel, users: map<string, User>, cs: string, s: ParseState)
    requires KeyOnlyWhenKeyed(s.key, s.modes)
    ensures var r := Parse(ch, users, cs, s); KeyOnlyWhenKeyed(r.key, r.modes)
  {
    if |cs| > 0 {
      var c := cs[0];
      var next := Step(ch, users, c, s);
      if !IsToggle(c) && next.key.Some? {
        if c == KeyChar {
          assert next.modes == s.modes + [Some(Keyed)];
        } else if PersistsOnChannel(c) {
          if s.action == Some(Add) {
            assert Some(Keyed) in s.modes;
          } else {
            assert Resolve(c) != Some(Keyed);
          }
        }
      }
      KeyOnlyWhenKeyedPreserved(ch, users, cs[1..], next);
    }
  }

  /** One character changes status only for a registered user, and only on this channel. */
  lemma StatusStepLocal(ch: Channel, users: map<string, User>, c: char, s: ParseState, u: User, d: Channel)
    requires u !in users.Values || d != ch
    ensures StatusOf(Step(ch, users, c, s).status, u, d) == StatusOf(s.status, u, d)
  {
  }

  /**
   * Status changes reach only users found in the user registry, and only
   * their entry for this channel.
   */
  lemma {:induction false} StatusChangesStayLocal(ch: Channel, users: map<string, User>, cs: string, s: ParseState,
                                                  u: User, d: Channel)
    requires u !in users.Values || d != ch
    ensures StatusOf(Parse(ch, users, cs, s).status, u, d) == StatusOf(s.status, u, d)
  {
    if |cs| > 0 {
      StatusStepLocal(ch, users, cs[0], s, u, d);
      StatusChangesStayLocal(ch, users, cs[1..], Step(ch, users, cs[0], s), u, d);
    }
  }

  /** A mode string without status characters leaves every status table alone. */
  lemma {:induction false} NoStatusCharsNoStatusChange(ch: Channel, users: map<string, User>, cs: string, s: ParseState)
    requires forall i :: 0 <= i < |cs| ==> cs[i] !in StatusModes
    ensures Parse(ch, users, cs, s).status == s.status
  {
    if |cs| > 0 {
      assert forall i :: 0 <= i < |cs[1..]| ==> cs[1..][i] !in StatusModes by {
        forall i | 0 <= i < |cs[1..]| ensures cs[1..][i] !in StatusModes {
          assert cs[1..][i] == cs[i + 1];
        }
      }
      NoStatusCharsNoStatusChange(ch, users, cs[1..], Step(ch, users, cs[0], s));
    }
  }

  /**
   * A run of characters taken on add appends each persisting character's
   * symbol to the mode list, in order, and posts one add event per character.
   */
  lemma {:induction false} AddRunAppends(ch: Channel, users: map<string, User>, cs: string, s: ParseState)
    requires NoToggles(cs)
    requires s.action == Some(Add)
    ensures var r := Parse(ch, users, cs, s);
            && r.modes == s.modes + PersistedSymbols(cs)
            && r.action == Some(Add)
            && |r.events| == |s.events| + |cs|
            && r.events[..|s.events|] == s.events
            && forall i :: |s.events| <= i < |r.events| ==> r.events[i].ModeAddedOnChannel?
  {
    if |cs| > 0 {
      var next := Step(ch, users, cs[0], s);
      assert NoToggles(cs[1..]) by {
        forall i | 0 <= i < |cs[1..]| ensures !IsToggle(cs[1..][i]) {
          assert cs[1..][i] == cs[i + 1];
        }
      }
      AddRunAppends(ch, users, cs[1..], next);
      assert next.modes == s.modes + (if PersistsOnChannel(cs[0]) then [Resolve(cs[0])] else []);
      assert s.modes + PersistedSymbols(cs)
          == next.modes + PersistedSymbols(cs[1..]);
      var r := Parse(ch, users, cs, s);
      assert r == Parse(ch, users, cs[1..], next);
      assert next.events == s.events + [ModeAddedOnChannel(Resolve(cs[0]), ArgOf(ParamFor(cs[0], s.params).0), ch)];
      assert r.events[..|next.events|] == next.events;
    }
  }

  /**
   * A run of characters taken on delete, or before any toggle, removes
   * every persisting character's symbol from the mode list and adds none;
   * a `k` leaves no key and an `l` leaves no limit. It posts one delete event
   * per character on delete and none before any toggle.
   *
   * This is the single summary of a run off add, used by `DeletedModesReported`;
   * it gathers the three inductions below, each of which proves one part.
   */
  lemma RemoveRunClears(ch: Channel, users: map<string, User>, cs: string, s: ParseState)
    requires NoToggles(cs)
    requires s.action != Some(Add)
    ensures var r := Parse(ch, users, cs, s);
            && (forall i :: 0 <= i < |cs| && PersistsOnChannel(cs[i]) ==> Resolve(cs[i]) !in r.modes)
            && (forall i :: 0 <= i < |r.modes| ==> r.modes[i] in s.modes)
            && (KeyChar in cs ==> r.key == None)
            && (KeyChar !in cs ==> r.key == s.key)
            && ('l' in cs ==> Limited !in r.extra)
            && ('l' !in cs ==> r.extra == s.extra)
            && (forall m :: !Names(cs, m) ==> multiset(r.modes)[m] == multiset(s.modes)[m])
            && (s.action == None ==> r.events == s.events)
            && (s.action == Some(Delete) ==> |r.events| == |s.events| + |cs|)
            && r.events[..|s.events|] == s.events
            && (s.action == Some(Delete) ==>
                  forall i :: |s.events| <= i < |r.events| ==> r.events[i].ModeDeletedOnChannel?)
  {
    RemoveRunRemovesNamed(ch, users, cs, s);
    RemoveRunKeepsOthers(ch, users, cs, s);
    RemoveRunPostsDeletes(ch, users, cs, s);
  }

  /**
   * Off add, a run removes every symbol its persisting characters name and
   * adds none; `k` and `l` clear the key and the limit.
   */
  lemma {:induction false} RemoveRunRemovesNamed(ch: Channel, users: map<string, User>, cs: string, s: ParseState)
    requires NoToggles(cs)
    requires s.action != Some(Add)
    ensures var r := Parse(ch, users, cs, s);
            && (forall i :: 0 <= i < |cs| && PersistsOnChannel(cs[i]) ==> Resolve(cs[i]) !in r.modes)
            && (forall i :: 0 <= i < |r.modes| ==> r.modes[i] in s.modes)
            && (KeyChar in cs ==> r.key == None)
            && (KeyChar !in cs ==> r.key == s.key)
            && ('l' in cs ==> Limited !in r.extra)
            && ('l' !in cs ==> r.extra == s.extra)
            && (s.action == None ==> r.events == s.events)
            && (s.action == Some(Delete) ==> |r.events| == |s.events| + |cs|)
  {
    if |cs| > 0 {
      var c := cs[0];
      var next := Step(ch, users, c, s);
      NoTogglesTail(cs);
      StepOffAdd(ch, users, c, s);
      RemoveRunRemovesNamed(ch, users, cs[1..], next);
      var r := Parse(ch, users, cs[1..], next);
      assert forall i :: 0 <= i < |next.modes| ==> next.modes[i] in s.modes;
      forall i | 0 <= i < |cs| && PersistsOnChannel(cs[i])
        ensures Resolve(cs[i]) !in r.modes
      {
        if i == 0 {
          assert Resolve(c) !in next.modes;
        } else {
          assert cs[i] == cs[1..][i - 1];
        }
      }
      assert KeyChar in cs <==> c == KeyChar || KeyChar in cs[1..];
      assert 'l' in cs <==> c == 'l' || 'l' in cs[1..];
    }
  }

  lemma NoTogglesTail(cs: string)
    requires |cs| > 0 && NoToggles(cs)
    ensures NoToggles(cs[1..])
  {
    forall i | 0 <= i < |cs[1..]| ensures !IsToggle(cs[1..][i]) {
      assert cs[1..][i] == cs[i + 1];
    }
  }

  /** Off add, a run leaves every symbol none of its characters names exactly as often as it was. */
  lemma {:induction false} RemoveRunKeepsOthers(ch: Channel, users: map<string, User>, cs: string, s: ParseState)
    requires NoToggles(cs)
    requires s.action != Some(Add)
    ensures var r := Parse(ch, users, cs, s);
            forall m :: !Names(cs, m) ==> multiset(r.modes)[m] == multiset(s.modes)[m]
  {
    if |cs| > 0 {
      var next := Step(ch, users, cs[0], s);
      NoTogglesTail(cs);
      RemoveRunKeepsOthers(ch, users, cs[1..], next);
      forall m | !Names(cs, m)
        ensures multiset(Parse(ch, users, cs, s).modes)[m] == multiset(s.modes)[m]
      {
        NotNamedTail(cs, m);
        RemoveStepKeepsOthers(ch, users, cs[0], s, m);
      }
    }
  }

  /** On delete, a run keeps the events already posted and every event it adds is a delete event. */
  lemma {:induction false} RemoveRunPostsDeletes(ch: Channel, users: map<string, User>, cs: string, s: ParseState)
    requires NoToggles(cs)
    requires s.action != Some(Add)
    ensures var r := Parse(ch, users, cs, s);
            && |s.events| <= |r.events|
            && r.events[..|s.events|] == s.events
            && (s.action == Some(Delete) ==>
                  forall i :: |s.events| <= i < |r.events| ==> r.events[i].ModeDeletedOnChannel?)
  {
    if |cs| > 0 {
      var next := Step(ch, users, cs[0], s);
      NoTogglesTail(cs);
      StepOffAdd(ch, users, cs[0], s);
      RemoveRunPostsDeletes(ch, users, cs[1..], next);
      var r := Parse(ch, users, cs[1..], next);
      assert r.events[..|next.events|] == next.events;
      assert r.events[..|s.events|] == next.events[..|s.events|];
      if s.action == Some(Delete) {
        forall i | |s.events| <= i < |r.events| ensures r.events[i].ModeDeletedOnChannel? {
          if i < |next.events| {
            assert r.events[i] == next.events[i];
          }
        }
      }
    }
  }

  /** Off add, one non-toggle character keeps the action and appends at most a delete event. */
  lemma StepOffAdd(ch: Channel, users: map<string, User>, c: char, s: ParseState)
    requires !IsToggle(c) && s.action != Some(Add)
    ensures var next := Step(ch, users, c, s);
            && next.action == s.action
            && (s.action.None? ==> next.events == s.events)
            && (s.action == Some(Delete) ==>
                  next.events == s.events + [ModeDeletedOnChannel(Resolve(c), ArgOf(ParamFor(c, s.params).0), ch)])
  {
  }

  /** A symbol no character of `cs` names is named neither by its first character nor by the rest. */
  lemma NotNamedTail(cs: string, m: Option<Mode>)
    requires |cs| > 0 && !Names(cs, m)
    ensures !(PersistsOnChannel(cs[0]) && Resolve(cs[0]) == m)
    ensures !Names(cs[1..], m)
  {
  }

  /** Off add, one character leaves every symbol it does not name as often as it was. */
  lemma RemoveStepKeepsOthers(ch: Channel, users: map<string, User>, c: char, s: ParseState, m: Option<Mode>)
    requires !IsToggle(c) && s.action != Some(Add)
    requires !(PersistsOnChannel(c) && Resolve(c) == m)
    ensures multiset(Step(ch, users, c, s).modes)[m] == multiset(s.modes)[m]
  {
    if PersistsOnChannel(c) {
      RemoveAllCounts(s.modes, Resolve(c));
    }
  }

  /**
   * Parsing a concatenation is parsing the first part and then the second
   * from where it left off, so a mixed string such as `+nt-k` splits into its
   * runs.
   */
  lemma {:induction false} ParseAppend(ch: Channel, users: map<string, User>, a: string, b: string, s: ParseState)
    ensures Parse(ch, users, a + b, s) == Parse(ch, users, b, Parse(ch, users, a, s))
  {
    if |a| == 0 {
      assert a + b == b;
    } else {
      assert (a + b)[0] == a[0];
      assert (a + b)[1..] == a[1..] + b;
      ParseAppend(ch, users, a[1..], b, Step(ch, users, a[0], s));
    }
  }

  /**
   * `has_mode?` after a run: once `+` and a run of characters are parsed,
   * every persisting character's symbol is reported present; once `-` and a
   * run are parsed, every one of them is reported absent.
   */
  lemma AddedModesReported(ch: Channel, users: map<string, User>, cs: string, s: ParseState)
    requires NoToggles(cs)
    requires ch.modes == Parse(ch, users, "+" + cs, s).modes
    ensures forall i :: 0 <= i < |cs| && PersistsOnChannel(cs[i]) ==> ch.HasMode(Resolve(cs[i]))
  {
    var next := Step(ch, users, '+', s);
    assert ("+" + cs)[1..] == cs;
    AddRunAppends(ch, users, cs, next);
    PersistedSymbolsContains(cs);
  }

  lemma DeletedModesReported(ch: Channel, users: map<string, User>, cs: string, s: ParseState)
    requires NoToggles(cs)
    requires ch.modes == Parse(ch, users, "-" + cs, s).modes
    ensures forall i :: 0 <= i < |cs| && PersistsOnChannel(cs[i]) ==> !ch.HasMode(Resolve(cs[i]))
  {
    var next := Step(ch, users, '-', s);
    assert ("-" + cs)[1..] == cs;
    RemoveRunClears(ch, users, cs, next);
  }

  /** Every persisting character's symbol occurs among `PersistedSymbols`. */
  lemma {:induction false} PersistedSymbolsContains(cs: string)
    ensures forall i :: 0 <= i < |cs| && PersistsOnChannel(cs[i]) ==> Resolve(cs[i]) in PersistedSymbols(cs)
  {
    if |cs| > 0 {
      PersistedSymbolsContains(cs[1..]);
      forall i | 0 <= i < |cs| && PersistsOnChannel(cs[i])
        ensures Resolve(cs[i]) in PersistedSymbols(cs)
      {
        if i > 0 {
          assert cs[i] == cs[1..][i - 1];
        }
      }
    }
  }

  /** `+ntk secret` on a bare channel: no-external, topic-lock and keyed are set and the key is "secret". */
  lemma KeyedExample(ch: Channel, users: map<string, User>, status: StatusTable<Channel>)
    ensures var r := Parse(ch, users, "+ntk", Start([], None, map[], ["secret"], status));
            && r.modes == [Some(NoExternal), Some(TopicLock), Some(Keyed)]
            && r.key == Some("secret")
            && r.params == []
            && |r.events| == 3
  {
  }

  /** `-k secret` on a channel keyed "secret": the key and the keyed mode go. */
  lemma UnkeyExample(ch: Channel, users: map<string, User>, status: StatusTable<Channel>)
    ensures var r := Parse(ch, users, "-k", Start([Some(Keyed)], Some("secret"), map[], ["secret"], status));
            && r.modes == [] && r.key == None && r.params == []
            && r.events == [ModeDeletedOnChannel(Some(Keyed), StrArg("secret"), ch)]
  {
  }

  /** `+o alice` for a known user: alice gains operator here, the mode list is untouched, one add event. */
  lemma OpExample(ch: Channel, alice: User, status: StatusTable<Channel>)
    ensures var r := Parse(ch, map["alice" := alice], "+o", Start([], None, map[], ["alice"], status));
            && StatusOf(r.status, alice, ch) == StatusOf(status, alice, ch) + [Operator]
            && r.modes == []
            && r.events == [ModeAddedOnChannel(Some(Operator), StrArg("alice"), ch)]
  {
  }

  /** `+ov ghost other` for users missing from the registry: no status changes, both parameters are consumed, both events are still posted. */
  lemma UnknownUserExample(ch: Channel, status: StatusTable<Channel>)
    ensures var r := Parse(ch, map[], "+ov", Start([], None, map[], ["ghost", "other"], status));
            && r.status == status
            && r.params == []
            && |r.events| == 2
  {
  }

  /** An unknown character takes no parameter but still lands in the list as nil and posts an event. */
  lemma UnknownCharExample(ch: Channel, users: map<string, User>, status: StatusTable<Channel>)
    ensures var r := Parse(ch, users, "+xl", Start([], None, map[], ["10"], status));
            && r.modes == [None, Some(Limited)]
            && r.extra == map[Limited := "10"]
            && r.events == [ModeAddedOnChannel(None, NoArg, ch), ModeAddedOnChannel(Some(Limited), StrArg("10"), ch)]
  {
  }
}
