/**
 * Channel mode symbols, the add/delete action of a mode string, and the
 * static category tables of the base `Channel` class.
 */
module Modes {
  import opened Wrappers

  /** The symbols the standard tables map characters to. */
  datatype Mode =
    | Operator | Voice
    | Ban
    | Limited | Keyed
    | InviteOnly | Moderated | NoExternal | Private | Secret | TopicLock

  /** The current action while walking a mode string; `None` before any toggle. */
  datatype Action = Add | Delete

  /** Status modes: per-member privileges, each takes one parameter. */
  const StatusModes: map<char, Mode> := map['o' := Operator, 'v' := Voice]

  /** List modes: each takes one parameter (a mask); nothing is stored. */
  const ListModes: map<char, Mode> := map['b' := Ban]

  /** Modes that carry a parameter. */
  const ParamModes: map<char, Mode> := map['l' := Limited, 'k' := Keyed]

  /** Modes with no parameter. */
  const BoolModes: map<char, Mode> := map['i' := InviteOnly, 'm' := Moderated, 'n' := NoExternal,
                                          'p' := Private, 's' := Secret, 't' := TopicLock]

  /** The key mode has a branch of its own ahead of the other parameter modes. */
  const KeyChar: char := 'k'

  predicate IsToggle(c: char) {
    c == '+' || c == '-'
  }

  /** A character whose branch shifts one entry off the parameter list. */
  predicate TakesParam(c: char) {
    c in StatusModes || c in ListModes || c in ParamModes
  }

  /**
   * A non-toggle character whose mode lands in (or is removed from) the
   * channel's own mode list: everything except status and list modes,
   * including characters no table knows.
   */
  predicate PersistsOnChannel(c: char) {
    !IsToggle(c) && c !in StatusModes && c !in ListModes
  }

  /** The symbol the category chain resolves a character to; `None` if no table has it. */
  function Resolve(c: char): Option<Mode> {
    if c in StatusModes then Some(StatusModes[c])
    else if c in ListModes then Some(ListModes[c])
    else if c == KeyChar then Some(Keyed)
    else if c in ParamModes then Some(ParamModes[c])
    else if c in BoolModes then Some(BoolModes[c])
    else None
  }

  /** A symbol that is tracked per member or per list, never in a channel's mode list. */
  predicate IsMemberOrListMode(m: Mode) {
    m in StatusModes.Values || m in ListModes.Values
  }

  /** Ruby's `Array#delete`: every occurrence of `x` goes, the rest keep their order. */
  function RemoveAll<T(==)>(s: seq<T>, x: T): (r: seq<T>)
    ensures x !in r
    ensures forall i :: 0 <= i < |r| ==> r[i] in s && r[i] != x
    ensures forall i :: 0 <= i < |s| && s[i] != x ==> s[i] in r
    ensures x !in s ==> r == s
    ensures |r| <= |s|
  {
    if |s| == 0 then []
    else if s[0] == x then RemoveAll(s[1..], x)
    else [s[0]] + RemoveAll(s[1..], x)
  }

  /** `Array#delete` keeps every other element as often as it occurred. */
  lemma {:induction false} RemoveAllCounts<T>(s: seq<T>, x: T)
    ensures multiset(RemoveAll(s, x)) == multiset(s)[x := 0]
  {
    if |s| > 0 {
      assert s == [s[0]] + s[1..];
      RemoveAllCounts(s[1..], x);
    }
  }

  /** `Array#delete` keeps the order of what remains: it works piece by piece. */
  lemma {:induction false} RemoveAllConcat<T>(a: seq<T>, b: seq<T>, x: T)
    ensures RemoveAll(a + b, x) == RemoveAll(a, x) + RemoveAll(b, x)
  {
    if |a| > 0 {
      assert (a + b)[1..] == a[1..] + b;
      RemoveAllConcat(a[1..], b, x);
    } else {
      assert a + b == b;
    }
  }
}
