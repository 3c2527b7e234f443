/**
 * What the three commands share: who invoked them and the case-insensitive prefix filter used
 * for tab completion.
 */
module Commands {
  import opened JavaText
  import opened Models

  /** The sender of a command: the console, or a connected player with the permissions granted. */
  datatype Source =
    | Console(permissions: set<string>)
    | Player(uuid: Uuid, username: string, permissions: set<string>)

  predicate HasPermission(src: Source, permission: string) {
    permission in src.permissions
  }

  /** A name completes what was typed when, lower-cased, it starts with the lower-cased input. */
  predicate Completes(name: string, typed: string) {
    StartsWith(ToLower(name), ToLower(typed))
  }

  /** `names.filter(n -> n.toLowerCase().startsWith(typed.toLowerCase()))`, order kept. */
  function MatchingPrefix(names: seq<string>, typed: string): (r: seq<string>)
    ensures forall n :: n in r <==> n in names && Completes(n, typed)
    ensures |r| <= |names|
    decreases |names|
  {
    if names == [] then []
    else
      var rest := MatchingPrefix(names[..|names| - 1], typed);
      var last := names[|names| - 1];
      assert names == names[..|names| - 1] + [last];
      if Completes(last, typed) then rest + [last] else rest
  }

  /** Every name completes the empty input, so completing nothing lists every name. */
  lemma {:induction false} EmptyInputMatchesAll(names: seq<string>)
    ensures MatchingPrefix(names, "") == names
    decreases |names|
  {
    if names != [] {
      EmptyInputMatchesAll(names[..|names| - 1]);
      assert names == names[..|names| - 1] + [names[|names| - 1]];
    }
  }

  /** The filter ignores the case of what was typed. */
  lemma {:induction false} MatchingIgnoresCase(names: seq<string>, typed: string)
    ensures MatchingPrefix(names, typed) == MatchingPrefix(names, ToLower(typed))
    decreases |names|
  {
    ToLowerIdempotent(typed);
    if names != [] {
      MatchingIgnoresCase(names[..|names| - 1], typed);
    }
  }
}
