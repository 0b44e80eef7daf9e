/**
 * The parts of a user that the channel core touches: its identity and its
 * per-channel status modes. The user class itself is not part of this model;
 * its `status_modes` hash is kept here as a table from user to channel to the
 * list of status symbols held there, generic in the channel type.
 */
module Users {
  import opened Modes

  /** `key` indexes the user registry and channel rosters; `uid` goes on the wire. */
  datatype User = User(key: string, uid: string)

  type StatusTable<C(==)> = map<User, map<C, seq<Mode>>>

  /** The status list user `u` holds on channel `c` (empty when it has no entry). */
  function StatusOf<C(==)>(t: StatusTable<C>, u: User, c: C): seq<Mode> {
    if u in t && c in t[u] then t[u][c] else []
  }

  /** `user.add_status_mode(channel, mode)`: the mode joins that user's list on that channel. */
  function AddStatusMode<C(==)>(t: StatusTable<C>, u: User, c: C, m: Mode): (r: StatusTable<C>)
    ensures StatusOf(r, u, c) == StatusOf(t, u, c) + [m]
    ensures r - {u} == t - {u}
    ensures u in t ==> r[u] - {c} == t[u] - {c}
    ensures u !in t ==> r[u].Keys == {c}
  {
    var perUser := if u in t then t[u] else map[];
    t[u := perUser[c := StatusOf(t, u, c) + [m]]]
  }

  /** `user.delete_status_mode(channel, mode)`: every occurrence of the mode leaves that list. */
  function DeleteStatusMode<C(==)>(t: StatusTable<C>, u: User, c: C, m: Mode): (r: StatusTable<C>)
    ensures StatusOf(r, u, c) == RemoveAll(StatusOf(t, u, c), m)
    ensures m !in StatusOf(r, u, c)
    ensures r - {u} == t - {u}
    ensures u in t ==> u in r && r[u] - {c} == t[u] - {c} && r[u].Keys == t[u].Keys
    ensures u !in t || c !in t[u] ==> r == t
  {
    if u in t && c in t[u] then t[u := t[u][c := RemoveAll(t[u][c], m)]] else t
  }

  /** `user.status_modes.delete(channel)`: the user's entry for that channel goes. */
  function DropChannel<C(==)>(t: StatusTable<C>, u: User, c: C): (r: StatusTable<C>)
    ensures u in r ==> c !in r[u]
    ensures StatusOf(r, u, c) == []
    ensures r - {u} == t - {u}
    ensures r.Keys == t.Keys
    ensures u in t ==> r[u] == t[u] - {c}
  {
    if u in t then t[u := t[u] - {c}] else t
  }
}
