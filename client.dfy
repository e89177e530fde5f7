/** The terminal client's input reducer (src/client.rs): what key presses, pastes and Enter
    do to the prompt, the chat log, the nickname and what is written to the server, and which
    tail of the chat log the chat window shows.  Text here is Rust `String`s, modelled as
    sequences of characters. */
module ChatClient {
  import opened Commands

  // ------------------------------------------------------------------ trimming characters

  /** The characters with the Unicode White_Space property (`char::is_whitespace`). */
  predicate IsWhite(c: char) {
    || ('\t' <= c <= '\r') || c == ' ' || c == '\U{0085}' || c == '\U{00A0}' || c == '\U{1680}'
    || ('\U{2000}' <= c <= '\U{200A}') || c == '\U{2028}' || c == '\U{2029}' || c == '\U{202F}'
    || c == '\U{205F}' || c == '\U{3000}'
  }

  /** Text made of whitespace only. */
  predicate AllWhite(s: string) {
    forall i :: 0 <= i < |s| ==> IsWhite(s[i])
  }

  /** `str::trim_start`: what is dropped is whitespace, and what remains does not start with
      it. */
  function TrimStart(s: string): (r: string)
    ensures |r| <= |s| && r == s[|s| - |r|..]
    ensures forall i :: 0 <= i < |s| - |r| ==> IsWhite(s[i])
    ensures r == [] || !IsWhite(r[0])
    decreases |s|
  {
    if s != [] && IsWhite(s[0]) then
      var r := TrimStart(s[1..]);
      assert s[1..][|s| - 1 - |r|..] == s[|s| - |r|..];
      r
    else s
  }

  /** `str::trim_end`. */
  function TrimEnd(s: string): (r: string)
    ensures |r| <= |s| && r == s[..|r|]
    ensures forall i :: |r| <= i < |s| ==> IsWhite(s[i])
    ensures r == [] || !IsWhite(r[|r| - 1])
    decreases |s|
  {
    if s != [] && IsWhite(s[|s| - 1]) then
      var r := TrimEnd(s[..|s| - 1]);
      assert s[..|s| - 1][..|r|] == s[..|r|];
      r
    else s
  }

  /** `str::trim`. */
  function Trim(s: string): (r: string)
    ensures |r| <= |s|
    ensures r == [] || (!IsWhite(r[0]) && !IsWhite(r[|r| - 1]))
    ensures WhiteTrimmed(s, r)
  {
    var t := TrimStart(s);
    var r := TrimEnd(t);
    assert r != [] ==> r[0] == t[0];
    TrimPieces(s, t, r);
    r
  }

  /** `r` is a contiguous piece of `s` with only whitespace before and after it. */
  ghost predicate WhiteTrimmed(s: string, r: string) {
    exists k ::
      && 0 <= k <= |s| - |r| && r == s[k..k + |r|]
      && AllWhite(s[..k]) && AllWhite(s[k + |r|..])
  }

  /** Cutting a prefix of whitespace and then a suffix of whitespace leaves a piece of the
      original input with whitespace on both sides. */
  lemma TrimPieces(s: string, t: string, r: string)
    requires |t| <= |s| && t == s[|s| - |t|..] && AllWhite(s[..|s| - |t|])
    requires |r| <= |t| && r == t[..|r|] && AllWhite(t[|r|..])
    ensures WhiteTrimmed(s, r)
  {
    var k := |s| - |t|;
    assert s[k + |r|..] == t[|r|..];
    assert r == s[k..k + |r|] && AllWhite(s[..k]) && AllWhite(s[k + |r|..]);
  }

  /** Text that does not start with whitespace is empty after trimming only when it was
      empty. */
  lemma TrimKeepsText(s: string)
    requires s != [] && !IsWhite(s[0])
    ensures Trim(s) != []
  {
    assert TrimStart(s) == s;
  }

  // ------------------------------------------------------------------ the reducer

  /** The client's state as the input loop sees it.  `sent` is what was written to the
      server's socket, one entry per `write_all`; `exited` records `exit(1)`. */
  datatype Ui = Ui(prompt: string, chat: seq<string>, nick: string, quit: bool, exited: bool,
                   sent: seq<string>)

  /** The chat lines the client starts with. */
  const INTRO: seq<string> := [
    "Commands:\r\n", "/auth <token>\r\n", "/quit\r\n", "/help\r\n", "/nick <name>\r\n", "\r\n",
    "You are offline. Use /auth <token> to authenticate."
  ]

  const NICK_EMPTY: string := "Nickname cannot be empty.\r\n"

  const INITIAL: Ui := Ui("", INTRO, "anon", false, false, [])

  /** The input events the reducer reacts to. */
  datatype Input =
    | Char(c: char, control: bool)
    | Enter
    | Esc
    | Paste(data: string)
    | Other

  /** The line `help_command` pushes for table entry `i`. */
  function HelpLine(i: nat): string
    requires i < |NAMES|
  {
    NAMES[i] + " - " + DESCS[i] + "\r\n" + "\r\n"
  }

  /** All the lines of `help_command`, in table order. */
  function HelpLines(n: nat): (lines: seq<string>)
    requires n <= |NAMES|
    ensures |lines| == n && forall i :: 0 <= i < n ==> lines[i] == HelpLine(i)
  {
    if n == 0 then [] else HelpLines(n - 1) + [HelpLine(n - 1)]
  }

  /** The notice for a nickname change. */
  function NickChanged(from: string, to: string): string {
    "Nickname changed from " + from + " to " + to + "\r\n"
  }

  /** `set_nick_command`: an argument that is empty after trimming is refused; otherwise it
      becomes the nickname and the change is reported. */
  function SetNick(ui: Ui, arg: string): Ui {
    var trimmed := Trim(arg);
    if trimmed == [] then ui.(chat := ui.chat + [NICK_EMPTY])
    else ui.(chat := ui.chat + [NickChanged(ui.nick, trimmed)], nick := trimmed)
  }

  /** The `run` function of table entry `k`. */
  function RunCommand(ui: Ui, k: nat, arg: string): Ui
    requires k < |NAMES|
  {
    if k == AUTH then ui.(sent := ui.sent + [arg])
    else if k == QUIT then ui.(exited := true)
    else if k == HELP then ui.(chat := ui.chat + HelpLines(|NAMES|))
    else SetNick(ui, arg)
  }

  /** The argument handed to a command: the rest of the prompt without leading whitespace,
      or "dummy" when nothing is left. */
  function Argument(prompt: string, k: nat): string
    requires k < |NAMES| && IsPrefix(NAMES[k], prompt)
  {
    var token := TrimStart(prompt[|NAMES[k]|..]);
    if token == [] then "dummy" else token
  }

  /** Enter: the first command whose name starts the prompt runs and the prompt is cleared
      (`exit` does not return, so `/quit` leaves it); with no command the prompt is sent as
      "nick: prompt" and also shown in the chat. */
  function OnEnter(ui: Ui): Ui {
    match FirstMatch(NAMES, ui.prompt)
    case Some(k) =>
      var u := RunCommand(ui, k, Argument(ui.prompt, k));
      if k == QUIT then u else u.(prompt := "")
    case None =>
      var fullMsg := ui.nick + ": " + ui.prompt;
      ui.(sent := ui.sent + [fullMsg], chat := ui.chat + [fullMsg], prompt := "")
  }

  /** One input event; after `exit` nothing happens any more.  Events keep being handled
      after Ctrl-C until the pending ones are drained, so `quit` does not stop the reducer. */
  function Reduce(ui: Ui, input: Input): Ui {
    if ui.exited then ui
    else match input
      case Char(c, control) =>
        if c == 'c' && control then ui.(sent := ui.sent + [ui.nick + " left."], quit := true)
        else ui.(prompt := ui.prompt + [c])
      case Enter => OnEnter(ui)
      case Esc => ui.(prompt := "")
      case Paste(data) => ui.(prompt := ui.prompt + data)
      case Other => ui
  }

  // ------------------------------------------------------------------ properties

  /** Enter runs the first matching command, clears the prompt (unless it exits), and
      leaves everything the command does not touch. */
  lemma EnterRunsFirstCommand(ui: Ui, k: nat)
    requires !ui.exited && FirstMatch(NAMES, ui.prompt) == Some(k)
    ensures forall j :: 0 <= j < k ==> !IsPrefix(NAMES[j], ui.prompt)
    ensures var arg := Argument(ui.prompt, k); var u := Reduce(ui, Enter);
      && (k == AUTH ==> u == ui.(sent := ui.sent + [arg], prompt := ""))
      && (k == QUIT ==> u == ui.(exited := true))
      && (k == HELP ==> u == ui.(chat := ui.chat + HelpLines(4), prompt := ""))
      && (k == NICK ==> u == SetNick(ui, arg).(prompt := ""))
  {
  }

  /** The argument is never empty and never starts with whitespace; it is the rest of the
      prompt without its leading whitespace, or "dummy" when only whitespace is left. */
  lemma ArgumentShape(prompt: string, k: nat)
    requires k < |NAMES| && IsPrefix(NAMES[k], prompt)
    ensures var arg := Argument(prompt, k); var rest := prompt[|NAMES[k]|..];
      && arg != [] && !IsWhite(arg[0])
      && (arg == "dummy" <==> TrimStart(rest) == [] || TrimStart(rest) == "dummy")
      && (TrimStart(rest) != [] ==> arg == rest[|rest| - |arg|..])
  {
    assert !IsWhite('d');
  }

  /** A bare "/nick" sets the nickname to "dummy". */
  lemma BareNickIsDummy(ui: Ui)
    requires !ui.exited && ui.prompt == "/nick"
    ensures Reduce(ui, Enter).nick == "dummy"
    ensures Reduce(ui, Enter).prompt == ""
  {
    BareNickMatches();
    NickRefusalUnreachable(ui);
    EnterRunsFirstCommand(ui, NICK);
    assert Argument(ui.prompt, NICK) == "dummy" by {
      assert ui.prompt[|NAMES[NICK]|..] == [];
    }
    DummyIsTrimmed();
  }

  /** "/nick" on its own is recognised as the nickname command. */
  lemma BareNickMatches()
    ensures FirstMatch(NAMES, "/nick") == Some(NICK)
  {
    var p := "/nick";
    assert IsPrefix(NAMES[NICK], p);
    assert !IsPrefix(NAMES[AUTH], p) && !IsPrefix(NAMES[QUIT], p) && !IsPrefix(NAMES[HELP], p) by {
      assert p[1] == 'n';
    }
  }

  /** "dummy" has nothing to trim. */
  lemma DummyIsTrimmed()
    ensures Trim("dummy") == "dummy"
  {
    assert !IsWhite('d') && !IsWhite('y');
    assert TrimStart("dummy") == "dummy";
    assert TrimEnd("dummy") == "dummy";
  }

  /** Through Enter, `set_nick_command` always gets a non-blank argument, so its "cannot be
      empty" branch cannot be reached and the nickname is always replaced. */
  lemma NickRefusalUnreachable(ui: Ui)
    requires !ui.exited && FirstMatch(NAMES, ui.prompt) == Some(NICK)
    ensures var u := Reduce(ui, Enter);
      && u.nick == Trim(Argument(ui.prompt, NICK)) && u.nick != []
      && u.chat == ui.chat + [NickChanged(ui.nick, u.nick)]
  {
    var arg := Argument(ui.prompt, NICK);
    ArgumentShape(ui.prompt, NICK);
    TrimKeepsText(arg);
    EnterRunsFirstCommand(ui, NICK);
  }

  /** Enter on a prompt that names no command sends "nick: prompt", shows exactly that line,
      and clears the prompt; nickname and flags are unchanged. */
  lemma EnterSendsMessage(ui: Ui)
    requires !ui.exited && FirstMatch(NAMES, ui.prompt) == None
    ensures var u := Reduce(ui, Enter); var m := ui.nick + ": " + ui.prompt;
      && u.sent == ui.sent + [m] && u.chat == ui.chat + [m] && u.sent[|u.sent| - 1] == u.chat[|u.chat| - 1]
      && u.prompt == "" && u.nick == ui.nick && u.quit == ui.quit && !u.exited
  {
  }

  /** `help_command` adds one line per table entry, in table order, and nothing else. */
  lemma HelpAddsTable(ui: Ui)
    ensures var u := RunCommand(ui, HELP, "dummy");
      && |u.chat| == |ui.chat| + 4 && u.chat[..|ui.chat|] == ui.chat
      && (forall i :: 0 <= i < 4 ==> u.chat[|ui.chat| + i] == NAMES[i] + " - " + DESCS[i] + "\r\n\r\n")
      && u.(chat := ui.chat) == ui
  {
  }

  /** Editing: characters and pastes append to the prompt, Esc clears it, and none of them
      touches the chat, the nickname or the socket; Ctrl-C sends "nick left." and sets
      `quit` without touching the prompt. */
  lemma EditingKeys(ui: Ui, c: char, control: bool, data: string)
    requires !ui.exited
    ensures !(c == 'c' && control) ==> Reduce(ui, Char(c, control)) == ui.(prompt := ui.prompt + [c])
    ensures Reduce(ui, Char('c', true)) == ui.(sent := ui.sent + [ui.nick + " left."], quit := true)
    ensures Reduce(ui, Paste(data)) == ui.(prompt := ui.prompt + data)
    ensures Reduce(ui, Esc) == ui.(prompt := "")
    ensures Reduce(Reduce(ui, Esc), Esc) == Reduce(ui, Esc)
  {
  }

  // ------------------------------------------------------------------ the chat window

  /** The first line drawn: `n - h`, or 0 when the subtraction would underflow. */
  function TailStart(n: nat, h: nat): nat {
    if h <= n then n - h else 0
  }

  /** The lines the chat window draws, top to bottom: the last `h` lines of the log, or all
      of them when there are fewer. */
  function ChatWindow(chat: seq<string>, h: nat): (lines: seq<string>)
    ensures |lines| == if |chat| < h then |chat| else h
    ensures lines == chat[|chat| - |lines|..]
  {
    chat[TailStart(|chat|, h)..]
  }

  /** A line pushed onto the log is always the bottom line of a window of any height. */
  lemma NewestLineShown(chat: seq<string>, line: string, h: nat)
    requires h > 0
    ensures var w := ChatWindow(chat + [line], h); w != [] && w[|w| - 1] == line
  {
  }

  // ------------------------------------------------------------------ the input loop

  /** The client's mutable state in `main`. */
  class Terminal {
    var prompt: string
    var chat: seq<string>
    var nick: string
    var quit: bool
    var exited: bool
    var sent: seq<string>

    function State(): Ui
      reads this
    {
      Ui(prompt, chat, nick, quit, exited, sent)
    }

    constructor ()
      ensures State() == INITIAL
    {
      prompt := "";
      quit := false;
      chat := INTRO;
      nick := "anon";
      exited := false;
      sent := [];
    }

    method AuthCommand(token: string)
      modifies this
      ensures State() == RunCommand(old(State()), AUTH, token)
    {
      sent := sent + [token];
    }

    method QuitCommand()
      modifies this
      ensures State() == RunCommand(old(State()), QUIT, "dummy")
    {
      exited := true;
    }

    /** `help_command`: one push onto the chat log per table entry. */
    method HelpCommand()
      modifies this
      ensures State() == RunCommand(old(State()), HELP, "dummy")
    {
      for i := 0 to |NAMES|
        invariant chat == old(chat) + HelpLines(i)
        invariant prompt == old(prompt) && nick == old(nick) && quit == old(quit)
        invariant exited == old(exited) && sent == old(sent)
      {
        var total := NAMES[i] + " - " + DESCS[i] + "\r\n";
        chat := chat + [total + "\r\n"];
      }
    }

    method SetNickCommand(arg: string)
      modifies this
      ensures State() == SetNick(old(State()), arg)
    {
      var trimmed := Trim(arg);
      if trimmed == [] {
        chat := chat + [NICK_EMPTY];
      } else {
        chat := chat + [NickChanged(nick, trimmed)];
        nick := trimmed;
      }
    }

    /** The handler of table entry `k`, run on the argument. */
    method RunEntry(k: nat, arg: string)
      requires k < |NAMES|
      modifies this
      ensures State() == RunCommand(old(State()), k, arg)
    {
      if k == AUTH {
        AuthCommand(arg);
      } else if k == QUIT {
        QuitCommand();
      } else if k == HELP {
        HelpCommand();
      } else {
        SetNickCommand(arg);
      }
    }

    /** `KeyCode::Enter`. */
    method Enter()
      modifies this
      ensures State() == OnEnter(old(State()))
    {
      var found := FindCommand(NAMES, prompt);
      if found.Some? {
        var k := found.value;
        var token := TrimStart(prompt[|NAMES[k]|..]);
        var arg := if token == [] then "dummy" else token;
        assert arg == Argument(prompt, k);
        RunEntry(k, arg);
        if k != QUIT {
          prompt := "";
        }
      } else {
        var fullMsg := nick + ": " + prompt;
        sent := sent + [fullMsg];
        chat := chat + [fullMsg];
        prompt := "";
      }
    }

    /** One event from `read()`. */
    method Handle(input: Input)
      modifies this
      ensures State() == Reduce(old(State()), input)
    {
      if exited {
        return;
      }
      match input {
        case Char(c, control) =>
          if c == 'c' && control {
            sent := sent + [nick + " left."];
            quit := true;
          } else {
            prompt := prompt + [c];
          }
        case Enter => Enter();
        case Esc => prompt := "";
        case Paste(data) => prompt := prompt + data;
        case Other =>
      }
    }
  }
}
