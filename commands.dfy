/** The terminal client's command table (src/client.rs) and the first-match dispatch rule
    that it and the server (src/server.rs) both use: the first entry, in table order, whose
    name is a prefix of the typed text is the command.  The server keeps its own byte copy of
    the names, `Authority.COMMAND_NAMES`. */
module Commands {

  datatype Option<T> = None | Some(value: T)

  /** Names and descriptions, in table order. */
  const NAMES: seq<string> := ["/auth", "/quit", "/help", "/nick"]
  const DESCS: seq<string> := ["Authenticate using a token", "Quit", "Print this help", "Change your nickname"]

  /** Table positions. */
  const AUTH: nat := 0
  const QUIT: nat := 1
  const HELP: nat := 2
  const NICK: nat := 3

  /** `text.starts_with(p)`. */
  predicate IsPrefix<T(==)>(p: seq<T>, text: seq<T>) {
    |p| <= |text| && text[..|p|] == p
  }

  /** The position of the first name in `names` that is a prefix of `text`, if any. */
  function FirstMatch<T(==)>(names: seq<seq<T>>, text: seq<T>): (r: Option<nat>)
    ensures r.Some? ==> r.value < |names| && IsPrefix(names[r.value], text)
    ensures r.Some? ==> forall j :: 0 <= j < r.value ==> !IsPrefix(names[j], text)
    ensures r.None? <==> forall j :: 0 <= j < |names| ==> !IsPrefix(names[j], text)
    decreases |names|
  {
    if names == [] then None
    else if IsPrefix(names[0], text) then Some(0)
    else match FirstMatch(names[1..], text)
      case None => None
      case Some(k) => Some(k + 1)
  }

  /** The dispatch loop over the table that stops at the first name starting the text,
      reduced to the choice of the command (the iterations before the match do nothing). */
  method FindCommand<T(==)>(names: seq<seq<T>>, text: seq<T>) returns (r: Option<nat>)
    ensures r == FirstMatch(names, text)
  {
    r := None;
    var i := 0;
    while i < |names|
      invariant 0 <= i <= |names|
      invariant forall j :: 0 <= j < i ==> !IsPrefix(names[j], text)
      decreases |names| - i
    {
      if IsPrefix(names[i], text) {
        r := Some(i);
        break;
      }
      i := i + 1;
    }
    FirstMatchUnique(names, text, r);
  }

  /** The contract of `FirstMatch` determines its result. */
  lemma FirstMatchUnique<T>(names: seq<seq<T>>, text: seq<T>, r: Option<nat>)
    requires r.Some? ==> r.value < |names| && IsPrefix(names[r.value], text)
    requires r.Some? ==> forall j :: 0 <= j < r.value ==> !IsPrefix(names[j], text)
    requires r.None? ==> forall j :: 0 <= j < |names| ==> !IsPrefix(names[j], text)
    ensures r == FirstMatch(names, text)
  {
  }
}
