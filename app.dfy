/**
 * The Game and Console classes of main.cpp: the in-game console's command line and command
 * dispatch, and the GLFW key and character callbacks that drive it. Each method is proved
 * against a function on a snapshot of the object's state, and the properties are lemmas
 * about those functions.
 */
module App {
  import opened CString
  import opened Wrappers
  import opened Sdf
  import Font

  /** Game::MAX_LINE: the size of the command buffer, prompt and terminator included. */
  const MaxLine := 256

  /** GLFW key codes and actions (GLFW/glfw3.h). */
  const KeyLast := 348
  const KeyCount := KeyLast + 1
  const KeyQ := 81
  const KeyGraveAccent := 96
  const KeyEnter := 257
  const KeyBackspace := 259
  const KeyF1 := 290
  const Release := 0
  const Press := 1
  const Repeat := 2

  /** Literal text: a C string contains no NUL. */
  type Text = s: seq<CChar> | '\0' !in s

  /** The text `help` leaves in the output buffer. */
  const HelpText: Text := HelpHeader + HelpHelp + HelpEcho + HelpQuit + HelpGetpos + HelpSetpos
  const HelpHeader: Text := "Valid commands:\n"
  const HelpHelp: Text := "help: shows this message.\n"
  const HelpEcho: Text := "echo <message>: print a message.\n"
  const HelpQuit: Text := "exit/quit: quit the game.\n"
  const HelpGetpos: Text := "getpos: get current position\n"
  const HelpSetpos: Text := "setpos x,y,z: set position"
  const InvalidPosition: Text := "Invalid position."
  const InvalidCommand: Text := "Invalid command."

  /** Camera::position's initial value. */
  const InitialPosition := Vec3(0.0, 0.0, 10.0)

  /** A cleared command line: the '>' prompt followed by NULs. */
  function ClearedBuffer(): seq<CChar>
  {
    ['>'] + seq(MaxLine - 1, _ => '\0')
  }

  // ---------------------------------------------------------------------------------------
  // The console
  // ---------------------------------------------------------------------------------------

  /**
   * A snapshot of a Console: `buf` is commandBuf, `cursor` commandCursor, `rendered`
   * _latestTextRendered, and `output` the C string held by the output buffer.
   */
  datatype ConsoleState = ConsoleState(enabled: bool, rendered: bool, buf: seq<CChar>, cursor: int, output: seq<CChar>)

  /**
   * The command line's invariant: the prompt sits at index 0, the cursor stays within
   * [1, MAX_LINE - 2], and everything from the cursor on, including the last two cells, is NUL.
   */
  ghost predicate InputValid(s: ConsoleState)
  {
    && |s.buf| == MaxLine
    && 1 <= s.cursor <= MaxLine - 2
    && s.buf[0] == '>'
    && forall i :: s.cursor <= i < MaxLine ==> s.buf[i] == '\0'
  }

  ghost predicate ConsoleValid(s: ConsoleState)
  {
    InputValid(s) && '\0' !in s.output
  }

  /** The command line holds no NUL before the cursor, as when only printable text was typed. */
  ghost predicate Typed(s: ConsoleState)
  {
    InputValid(s) && forall i :: 1 <= i < s.cursor ==> s.buf[i] != '\0'
  }

  /** The command, the C string after the prompt (`commandBuf + 1`). */
  function CommandOf(buf: seq<CChar>): seq<CChar>
    requires |buf| >= 1
  {
    CStr(buf[1..])
  }

  /** Console::hasInput (main.cpp:227). */
  predicate InputPending(s: ConsoleState)
    requires |s.buf| >= 2
  {
    s.buf[1] != '\0'
  }

  /** Console::enterCharacter (main.cpp:173-179). */
  function EnterStep(s: ConsoleState, c: CChar): ConsoleState
    requires InputValid(s)
  {
    if s.cursor < MaxLine - 2 then s.(buf := s.buf[s.cursor := c], cursor := s.cursor + 1, rendered := false)
    else s
  }

  /** Console::deleteCharacter (main.cpp:181-187). */
  function DeleteStep(s: ConsoleState): ConsoleState
    requires InputValid(s)
  {
    if s.cursor > 1 then s.(cursor := s.cursor - 1, buf := s.buf[s.cursor - 1 := '\0'], rendered := false)
    else s
  }

  /** The parts of the Game that commands change: Game::shouldQuit and camera.position. */
  datatype World = World(shouldQuit: bool, position: Vec3)

  /** What a command leaves: the output buffer's C string and the Game's state. */
  datatype Outcome = Outcome(output: seq<CChar>, world: World)

  /**
   * The command dispatch of runCommand (main.cpp:191-217) for command `cmd`, where
   * `setposText` is the C string at `commandBuf + 8` that setpos scans. `format` stands for
   * getpos's snprintf and `parse` for setpos's sscanf, giving None unless three values were read.
   */
  function Dispatch(cmd: seq<CChar>, setposText: seq<CChar>, output: seq<CChar>, w: World,
                    format: Vec3 -> seq<CChar>, parse: seq<CChar> -> Option<Vec3>): Outcome
  {
    if cmd == "help" then Outcome(HelpText, w)
    else if StartsWith(cmd, "echo ") then Outcome(cmd[5..], w)
    else if cmd == "exit" || cmd == "quit" then Outcome(output, w.(shouldQuit := true))
    else if cmd == "getpos" then Outcome(CStr(format(w.position)), w)
    else if StartsWith(cmd, "setpos") then
      match parse(setposText)
      case Some(p) => Outcome(output, w.(position := p))
      case None => Outcome(InvalidPosition, w)
    else Outcome(InvalidCommand, w)
  }

  /** Console::runCommand (main.cpp:189-222): dispatch, then clear the input and mark the text stale. */
  function RunStep(s: ConsoleState, w: World, format: Vec3 -> seq<CChar>, parse: seq<CChar> -> Option<Vec3>): (ConsoleState, World)
    requires InputValid(s)
  {
    if !InputPending(s) then (s, w)
    else AfterCommand(s, Dispatch(CommandOf(s.buf), CStr(s.buf[8..]), s.output, w, format, parse))
  }

  /** The console and Game after a dispatched command: the input cleared and the text marked stale. */
  function AfterCommand(s: ConsoleState, o: Outcome): (ConsoleState, World)
  {
    (ConsoleState(s.enabled, false, ClearedBuffer(), 1, o.output), o.world)
  }

  /** What setpos scans when the command line was typed: the command from its eighth character on. */
  function SetposArgument(cmd: seq<CChar>): seq<CChar>
  {
    if |cmd| >= 7 then cmd[7..] else []
  }

  /** On a typed command line the command is exactly the characters between prompt and cursor. */
  lemma TypedCommand(s: ConsoleState)
    requires Typed(s)
    ensures CommandOf(s.buf) == s.buf[1..s.cursor]
  {
    var b := s.buf[1..];
    assert b[s.cursor - 1] == '\0';
    assert forall i :: 0 <= i < s.cursor - 1 ==> b[i] != '\0';
    assert StrLen(b) == s.cursor - 1;
  }

  /** hasInput holds exactly when the command is non-empty. */
  lemma InputPendingIff(s: ConsoleState)
    requires InputValid(s)
    ensures InputPending(s) <==> CommandOf(s.buf) != []
  {
    assert s.buf[1..][0] == s.buf[1];
  }

  /** The cleared command line is valid, typed and holds the empty command. */
  lemma ClearedIsEmpty(s: ConsoleState)
    ensures var c := s.(buf := ClearedBuffer(), cursor := 1);
            Typed(c) && CommandOf(c.buf) == [] && !InputPending(c)
  {
    var c := s.(buf := ClearedBuffer(), cursor := 1);
    assert c.buf[1..][0] == '\0';
  }

  /**
   * enterCharacter keeps the invariant; with room left it appends `c` to a typed command, and
   * with the line full it changes nothing.
   */
  lemma EnterStepValid(s: ConsoleState, c: CChar)
    requires ConsoleValid(s)
    ensures ConsoleValid(EnterStep(s, c))
    ensures EnterStep(s, c).enabled == s.enabled && EnterStep(s, c).output == s.output
    ensures s.cursor == MaxLine - 2 ==> EnterStep(s, c) == s
    ensures Typed(s) && c != '\0' ==>
              Typed(EnterStep(s, c))
              && CommandOf(EnterStep(s, c).buf) == if s.cursor < MaxLine - 2 then CommandOf(s.buf) + [c] else CommandOf(s.buf)
  {
    if Typed(s) && c != '\0' && s.cursor < MaxLine - 2 {
      EnterStepAppends(s, c);
    }
  }

  /** With room left, entering a non-NUL character on a typed line appends it to the command. */
  lemma EnterStepAppends(s: ConsoleState, c: CChar)
    requires Typed(s) && c != '\0' && s.cursor < MaxLine - 2
    ensures Typed(EnterStep(s, c)) && CommandOf(EnterStep(s, c).buf) == CommandOf(s.buf) + [c]
  {
    var t := EnterStep(s, c);
    assert Typed(t);
    TypedCommand(s);
    TypedCommand(t);
    assert t.buf[1..t.cursor] == s.buf[1..s.cursor] + [c];
  }

  /**
   * deleteCharacter keeps the invariant and never removes the prompt; on a typed command it
   * drops the last character, and on an empty one it changes nothing.
   */
  lemma DeleteStepValid(s: ConsoleState)
    requires ConsoleValid(s)
    ensures ConsoleValid(DeleteStep(s)) && DeleteStep(s).buf[0] == '>'
    ensures s.cursor == 1 ==> DeleteStep(s) == s
    ensures Typed(s) ==>
              var cmd := CommandOf(s.buf);
              Typed(DeleteStep(s))
              && CommandOf(DeleteStep(s).buf) == if cmd == [] then [] else cmd[..|cmd| - 1]
  {
    var t := DeleteStep(s);
    if Typed(s) {
      assert Typed(t);
      TypedCommand(s);
      TypedCommand(t);
    }
  }

  /** Deleting right after entering a character restores the command line. */
  lemma DeleteUndoesEnter(s: ConsoleState, c: CChar)
    requires InputValid(s) && s.cursor < MaxLine - 2
    ensures DeleteStep(EnterStep(s, c)) == s.(rendered := false)
  {
    assert s.buf[s.cursor := c][s.cursor := '\0'] == s.buf;
  }

  /** On a typed line the text setpos scans is the command from index 7 on, or empty. */
  lemma SetposArgumentOfTyped(s: ConsoleState)
    requires Typed(s)
    ensures CStr(s.buf[8..]) == SetposArgument(CommandOf(s.buf))
  {
    var cmd := CommandOf(s.buf);
    TypedCommand(s);
    if |cmd| >= 7 {
      CStrDrop(s.buf[1..], 7);
      assert s.buf[1..][7..] == s.buf[8..];
    } else {
      assert s.buf[8..][0] == '\0';
    }
  }

  /**
   * A bare `setpos` hands the empty string to the scan; when that scan reads nothing, as
   * sscanf's EOF does, runCommand reports "Invalid position." and leaves the camera alone.
   */
  lemma BareSetposInvalid(s: ConsoleState, w: World, format: Vec3 -> seq<CChar>, parse: seq<CChar> -> Option<Vec3>)
    requires Typed(s) && CommandOf(s.buf) == "setpos" && parse([]) == None
    ensures RunStep(s, w, format, parse) == AfterCommand(s, Outcome(InvalidPosition, w))
  {
    InputPendingIff(s);
    SetposArgumentOfTyped(s);
    DispatchSetpos("setpos", [], s.output, w, format, parse);
  }

  /** Every command leaves a C string without NUL in the output buffer. */
  lemma DispatchOutputNulFree(cmd: seq<CChar>, setposText: seq<CChar>, output: seq<CChar>, w: World,
                              format: Vec3 -> seq<CChar>, parse: seq<CChar> -> Option<Vec3>)
    requires '\0' !in cmd && '\0' !in output
    ensures '\0' !in Dispatch(cmd, setposText, output, w, format, parse).output
  {
    if StartsWith(cmd, "echo ") {
      assert forall i :: 5 <= i < |cmd| ==> cmd[5..][i - 5] == cmd[i];
    }
  }

  /** runCommand keeps the invariant, leaves the console enabled as it was, and empties the input. */
  lemma RunStepValid(s: ConsoleState, w: World, format: Vec3 -> seq<CChar>, parse: seq<CChar> -> Option<Vec3>)
    requires ConsoleValid(s)
    ensures var t := RunStep(s, w, format, parse).0;
            && ConsoleValid(t) && t.enabled == s.enabled && !InputPending(t)
            && (!InputPending(s) ==> RunStep(s, w, format, parse) == (s, w))
            && (InputPending(s) ==> Typed(t) && CommandOf(t.buf) == [] && !t.rendered)
  {
    ClearedIsEmpty(s);
    if InputPending(s) {
      DispatchOutputNulFree(CommandOf(s.buf), CStr(s.buf[8..]), s.output, w, format, parse);
    }
  }

  /** `echo <msg>` puts exactly `msg` in the output and changes nothing else. */
  lemma EchoRoundTrip(msg: seq<CChar>, setposText: seq<CChar>, output: seq<CChar>, w: World,
                      format: Vec3 -> seq<CChar>, parse: seq<CChar> -> Option<Vec3>)
    ensures Dispatch("echo " + msg, setposText, output, w, format, parse) == Outcome(msg, w)
  {
    var cmd: seq<CChar> := "echo " + msg;
    assert cmd[..5] == "echo ";
    assert cmd[5..] == msg;
  }

  /** Exactly `exit` and `quit` set shouldQuit; they leave output and position alone. */
  lemma DispatchQuit(cmd: seq<CChar>, setposText: seq<CChar>, output: seq<CChar>, w: World,
                     format: Vec3 -> seq<CChar>, parse: seq<CChar> -> Option<Vec3>)
    requires !w.shouldQuit
    ensures Dispatch(cmd, setposText, output, w, format, parse).world.shouldQuit <==> cmd == "exit" || cmd == "quit"
    ensures cmd == "exit" || cmd == "quit" ==>
              Dispatch(cmd, setposText, output, w, format, parse) == Outcome(output, w.(shouldQuit := true))
  {
  }

  /**
   * Any command starting `setpos` (strncmp over six characters, so the space is not checked)
   * moves the camera to the three scanned values, or reports an invalid position.
   */
  lemma DispatchSetpos(cmd: seq<CChar>, setposText: seq<CChar>, output: seq<CChar>, w: World,
                       format: Vec3 -> seq<CChar>, parse: seq<CChar> -> Option<Vec3>)
    requires StartsWith(cmd, "setpos")
    ensures Dispatch(cmd, setposText, output, w, format, parse)
            == if parse(setposText).Some? then Outcome(output, w.(position := parse(setposText).value))
               else Outcome(InvalidPosition, w)
  {
    assert cmd[..6] == "setpos";
    assert cmd[0] == 's';
    if |cmd| >= 5 {
      assert cmd[..5] == "setpo";
    }
  }

  /** The position changes only through a setpos whose three values were read. */
  lemma DispatchPositionOnlyBySetpos(cmd: seq<CChar>, setposText: seq<CChar>, output: seq<CChar>, w: World,
                                     format: Vec3 -> seq<CChar>, parse: seq<CChar> -> Option<Vec3>)
    ensures Dispatch(cmd, setposText, output, w, format, parse).world.position != w.position ==>
              StartsWith(cmd, "setpos") && parse(setposText).Some?
  {
  }

  /** A command matching none of the handlers sets the output to "Invalid command.". */
  lemma DispatchUnmatched(cmd: seq<CChar>, setposText: seq<CChar>, output: seq<CChar>, w: World,
                          format: Vec3 -> seq<CChar>, parse: seq<CChar> -> Option<Vec3>)
    requires cmd !in {"help", "exit", "quit", "getpos"}
    requires !StartsWith(cmd, "echo ") && !StartsWith(cmd, "setpos")
    ensures Dispatch(cmd, setposText, output, w, format, parse) == Outcome(InvalidCommand, w)
  {
  }

  /** A Console object of main.cpp:160-253. */
  class Console {
    var enabled: bool
    var latestTextRendered: bool
    const commandBuf: array<CChar>
    var commandCursor: int
    var output: seq<CChar>
    var instance: Game?

    ghost function State(): ConsoleState
      reads this, commandBuf
    {
      ConsoleState(enabled, latestTextRendered, commandBuf[..], commandCursor, output)
    }

    /** Console::Console (main.cpp:163-166); the instance pointer is set later by setGameInstance. */
    constructor ()
      ensures State() == ConsoleState(false, false, ClearedBuffer(), 1, [])
      ensures instance == null && fresh(commandBuf)
    {
      enabled := false;
      latestTextRendered := false;
      commandBuf := new CChar[MaxLine](_ => '\0');
      commandCursor := 0;
      output := [];
      instance := null;
      new;
      ClearInput();
      ClearOutput();
    }

    /** Console::setGameInstance (main.cpp:169-171). */
    method SetGameInstance(g: Game)
      modifies this`instance
      ensures instance == g
    {
      instance := g;
    }

    /** Console::enterCharacter (main.cpp:173-179). */
    method EnterCharacter(c: CChar)
      requires InputValid(State())
      modifies this`commandCursor, this`latestTextRendered, commandBuf
      ensures State() == EnterStep(old(State()), c)
    {
      if commandCursor < MaxLine - 2 {
        commandBuf[commandCursor] := c;
        commandCursor := commandCursor + 1;
        latestTextRendered := false;
      }
    }

    /** Console::deleteCharacter (main.cpp:181-187). */
    method DeleteCharacter()
      requires InputValid(State())
      modifies this`commandCursor, this`latestTextRendered, commandBuf
      ensures State() == DeleteStep(old(State()))
    {
      if commandCursor > 1 {
        commandCursor := commandCursor - 1;
        commandBuf[commandCursor] := '\0';
        latestTextRendered := false;
      }
    }

    /** Console::runCommand (main.cpp:189-222). */
    method RunCommand(format: Vec3 -> seq<CChar>, parse: seq<CChar> -> Option<Vec3>)
      requires InputValid(State()) && instance != null
      modifies this`output, this`commandCursor, this`latestTextRendered, commandBuf, instance`shouldQuit, instance`position
      ensures (State(), instance.WorldState()) == RunStep(old(State()), old(instance.WorldState()), format, parse)
    {
      if commandBuf[1] != '\0' {
        ghost var s0 := State();
        ghost var o := Dispatch(CommandOf(s0.buf), CStr(s0.buf[8..]), s0.output, instance.WorldState(), format, parse);
        Execute(format, parse);
        ClearInput();
        latestTextRendered := false;
        assert (State(), instance.WorldState()) == AfterCommand(s0, o);
      }
    }

    /** The handler chain of runCommand (main.cpp:192-217), which leaves the input line alone. */
    method Execute(format: Vec3 -> seq<CChar>, parse: seq<CChar> -> Option<Vec3>)
      requires InputValid(State()) && instance != null
      modifies this`output, instance`shouldQuit, instance`position
      ensures var o := Dispatch(CommandOf(commandBuf[..]), CStr(commandBuf[8..]), old(output), old(instance.WorldState()), format, parse);
              output == o.output && instance.WorldState() == o.world
    {
      var cmd := CStr(commandBuf[1..]);
      assert cmd == CommandOf(commandBuf[..]) by {
        assert commandBuf[1..] == commandBuf[..][1..];
      }
      if cmd == "help" {
        output := HelpText;
      } else if StartsWith(cmd, "echo ") {
        CStrDrop(commandBuf[1..], 5);
        assert commandBuf[1..][5..] == commandBuf[6..];
        output := CStr(commandBuf[6..]);
      } else if cmd == "exit" || cmd == "quit" {
        instance.shouldQuit := true;
      } else if cmd == "getpos" {
        output := CStr(format(instance.position));
      } else if StartsWith(cmd, "setpos") {
        var read := parse(CStr(commandBuf[8..]));
        if read.Some? {
          instance.position := read.value;
        } else {
          output := InvalidPosition;
        }
      } else {
        output := InvalidCommand;
      }
    }

    /** Console::toggle (main.cpp:224). */
    method Toggle()
      modifies this`enabled
      ensures State() == old(State()).(enabled := !old(enabled))
    {
      enabled := !enabled;
    }

    /** Console::hasOutput (main.cpp:226): the output buffer holds a non-empty C string. */
    predicate HasOutput()
      reads this
    {
      output != []
    }

    /** Console::hasInput (main.cpp:227), which tests only the cell after the prompt. */
    predicate HasInput(): (r: bool)
      reads this, commandBuf
      requires InputValid(State())
      ensures r <==> CommandOf(commandBuf[..]) != []
    {
      InputPendingIff(State());
      commandBuf[1] != '\0'
    }

    /** Console::setRenderedText (main.cpp:233). */
    method SetRenderedText()
      modifies this`latestTextRendered
      ensures State() == old(State()).(rendered := true)
    {
      latestTextRendered := true;
    }

    /** Console::clearOutput (main.cpp:236-238). */
    method ClearOutput()
      modifies this`output
      ensures State() == old(State()).(output := [])
    {
      output := [];
    }

    /** Console::clearInput (main.cpp:240-244). */
    method ClearInput()
      requires commandBuf.Length == MaxLine
      modifies this`commandCursor, commandBuf
      ensures State() == old(State()).(buf := ClearedBuffer(), cursor := 1)
    {
      forall i | 0 <= i < MaxLine {
        commandBuf[i] := '\0';
      }
      commandBuf[0] := '>';
      commandCursor := 1;
    }
  }

  // ---------------------------------------------------------------------------------------
  // Key and character input
  // ---------------------------------------------------------------------------------------

  /** A snapshot of a Game: keyPressed, fpsCounterEnabled, the World and the console. */
  datatype GameState = GameState(keys: seq<bool>, fpsCounter: bool, world: World, console: ConsoleState)

  ghost predicate GameValid(g: GameState)
  {
    |g.keys| == KeyCount && ConsoleValid(g.console)
  }

  /** The reaction to a press of `key` before its keyPressed cell is set (main.cpp:473-486). */
  function PressStep(g: GameState, key: int, format: Vec3 -> seq<CChar>, parse: seq<CChar> -> Option<Vec3>): (r: GameState)
    requires GameValid(g)
    ensures r.keys == g.keys
  {
    if key == KeyGraveAccent then g.(console := g.console.(enabled := !g.console.enabled))
    else if !g.console.enabled && key == KeyQ then g.(world := g.world.(shouldQuit := true))
    else if g.console.enabled then
      if key == KeyEnter then
        var r := RunStep(g.console, g.world, format, parse);
        g.(console := r.0, world := r.1)
      else if key == KeyBackspace then g.(console := DeleteStep(g.console))
      else g
    else if key == KeyF1 then g.(fpsCounter := !g.fpsCounter)
    else g
  }

  /** Game::keyCallback (main.cpp:469-497) for one key event. */
  function KeyStep(g: GameState, key: int, action: int, format: Vec3 -> seq<CChar>, parse: seq<CChar> -> Option<Vec3>): GameState
    requires GameValid(g)
  {
    if !(0 <= key <= KeyLast) then g
    else if action == Press then
      var p := PressStep(g, key, format, parse);
      p.(keys := p.keys[key := true])
    else if action == Release then g.(keys := g.keys[key := false])
    else g
  }

  /** Every key event keeps the Game's invariant. */
  lemma KeyStepValid(g: GameState, key: int, action: int, format: Vec3 -> seq<CChar>, parse: seq<CChar> -> Option<Vec3>)
    requires GameValid(g)
    ensures GameValid(KeyStep(g, key, action, format, parse))
  {
    if 0 <= key <= KeyLast && action == Press && key != KeyGraveAccent && g.console.enabled {
      if key == KeyEnter {
        RunStepValid(g.console, g.world, format, parse);
      } else if key == KeyBackspace {
        DeleteStepValid(g.console);
      }
    }
  }

  /** The key-state change of one event: PRESS sets and RELEASE clears the key's cell, in range only. */
  function KeyUpdate(keys: seq<bool>, key: int, action: int): seq<bool>
    requires |keys| == KeyCount
  {
    if 0 <= key <= KeyLast && action == Press then keys[key := true]
    else if 0 <= key <= KeyLast && action == Release then keys[key := false]
    else keys
  }

  /** keyCallback changes the key table exactly as KeyUpdate does, whatever else it does. */
  lemma KeyStepKeys(g: GameState, key: int, action: int, format: Vec3 -> seq<CChar>, parse: seq<CChar> -> Option<Vec3>)
    requires GameValid(g)
    ensures KeyStep(g, key, action, format, parse).keys == KeyUpdate(g.keys, key, action)
  {
  }

  /** The grave accent toggles the console whether or not it is enabled, and nothing else but its key cell. */
  lemma GraveTogglesConsole(g: GameState, format: Vec3 -> seq<CChar>, parse: seq<CChar> -> Option<Vec3>)
    requires GameValid(g)
    ensures KeyStep(g, KeyGraveAccent, Press, format, parse)
            == g.(console := g.console.(enabled := !g.console.enabled), keys := g.keys[KeyGraveAccent := true])
  {
  }

  /** Q quits only while the console is disabled. */
  lemma QQuitsOnlyWithoutConsole(g: GameState, format: Vec3 -> seq<CChar>, parse: seq<CChar> -> Option<Vec3>)
    requires GameValid(g) && !g.world.shouldQuit
    ensures KeyStep(g, KeyQ, Press, format, parse).world.shouldQuit <==> !g.console.enabled
  {
  }

  /** F1 toggles the FPS counter only while the console is disabled; nothing else touches it. */
  lemma FpsCounterOnlyByF1(g: GameState, key: int, action: int, format: Vec3 -> seq<CChar>, parse: seq<CChar> -> Option<Vec3>)
    requires GameValid(g)
    ensures KeyStep(g, key, action, format, parse).fpsCounter != g.fpsCounter <==>
              key == KeyF1 && action == Press && !g.console.enabled
  {
  }

  /** While the console is disabled no key but the grave accent changes it. */
  lemma DisabledConsoleUntouched(g: GameState, key: int, action: int, format: Vec3 -> seq<CChar>, parse: seq<CChar> -> Option<Vec3>)
    requires GameValid(g) && !g.console.enabled && key != KeyGraveAccent
    ensures KeyStep(g, key, action, format, parse).console == g.console
  {
  }

  /** REPEAT, unknown actions and out-of-range keys change nothing. */
  lemma IgnoredEvents(g: GameState, key: int, action: int, format: Vec3 -> seq<CChar>, parse: seq<CChar> -> Option<Vec3>)
    requires GameValid(g)
    requires !(0 <= key <= KeyLast) || (action != Press && action != Release)
    ensures KeyStep(g, key, action, format, parse) == g
  {
  }

  /** An event of the key callback. */
  datatype KeyEvent = KeyEvent(key: int, action: int)

  /** The Game after a sequence of key events. */
  function Replay(g: GameState, events: seq<KeyEvent>, format: Vec3 -> seq<CChar>, parse: seq<CChar> -> Option<Vec3>): (r: GameState)
    requires GameValid(g)
    ensures GameValid(r)
    decreases |events|
  {
    if events == [] then g
    else
      var before := Replay(g, events[..|events| - 1], format, parse);
      var e := events[|events| - 1];
      KeyStepValid(before, e.key, e.action, format, parse);
      KeyStep(before, e.key, e.action, format, parse)
  }

  /** Whether key `k` is down after `events`: its last PRESS or RELEASE decides, else `initial`. */
  function LastPressed(events: seq<KeyEvent>, k: int, initial: bool): bool
    decreases |events|
  {
    if events == [] then initial
    else
      var e := events[|events| - 1];
      if e.key == k && e.action == Press then true
      else if e.key == k && e.action == Release then false
      else LastPressed(events[..|events| - 1], k, initial)
  }

  /** After any events, a key's cell says whether its last PRESS/RELEASE was a press, or keeps its initial value. */
  lemma {:induction false} KeysFollowEvents(g: GameState, events: seq<KeyEvent>, k: int,
                                            format: Vec3 -> seq<CChar>, parse: seq<CChar> -> Option<Vec3>)
    requires GameValid(g) && 0 <= k < KeyCount
    ensures Replay(g, events, format, parse).keys[k] == LastPressed(events, k, g.keys[k])
    decreases |events|
  {
    if events != [] {
      var before := Replay(g, events[..|events| - 1], format, parse);
      var e := events[|events| - 1];
      KeysFollowEvents(g, events[..|events| - 1], k, format, parse);
      KeyStepKeys(before, e.key, e.action, format, parse);
    }
  }

  /** The four bytes of an `unsigned int` codepoint in memory order. */
  function MemoryBytes(codepoint: int, littleEndian: bool): seq<int>
    requires 0 <= codepoint < 0x1_0000_0000
  {
    var b := [codepoint % 0x100, codepoint / 0x100 % 0x100, codepoint / 0x1_0000 % 0x100, codepoint / 0x100_0000 % 0x100];
    if littleEndian then b else [b[3], b[2], b[1], b[0]]
  }

  /** The character charCallback takes: byte 0 on a little-endian platform, byte 3 on a big-endian one. */
  function CallbackChar(codepoint: int, littleEndian: bool): CChar
    requires 0 <= codepoint < 0x1_0000_0000
  {
    var bytes := MemoryBytes(codepoint, littleEndian);
    (if littleEndian then bytes[0] else bytes[3]) as char
  }

  /** On either byte order that is the codepoint's low byte. */
  lemma CallbackCharIsLowByte(codepoint: int, littleEndian: bool)
    requires 0 <= codepoint < 0x1_0000_0000
    ensures CallbackChar(codepoint, littleEndian) as int == codepoint % 0x100
  {
  }

  /** The filter of main.cpp:463: printable ASCII other than the backtick that opens the console. */
  predicate AcceptedChar(c: CChar)
  {
    Font.IsPrintableAscii(c) && c != '`'
  }

  /** Game::charCallback (main.cpp:454-467). */
  function CharStep(g: GameState, codepoint: int, littleEndian: bool): GameState
    requires GameValid(g) && 0 <= codepoint < 0x1_0000_0000
  {
    var c := CallbackChar(codepoint, littleEndian);
    if g.console.enabled && AcceptedChar(c) then g.(console := EnterStep(g.console, c)) else g
  }

  /**
   * Character input keeps a typed command line typed: it only appends a printable ASCII
   * character other than '`', whose code is the codepoint's low byte, while the console is enabled.
   */
  lemma CharStepTyped(g: GameState, codepoint: int, littleEndian: bool)
    requires GameValid(g) && Typed(g.console) && 0 <= codepoint < 0x1_0000_0000
    ensures var r := CharStep(g, codepoint, littleEndian);
            && GameValid(r) && Typed(r.console)
            && r.keys == g.keys && r.world == g.world && r.fpsCounter == g.fpsCounter
            && (CommandOf(r.console.buf) == CommandOf(g.console.buf)
                || (g.console.enabled
                    && var c := codepoint % 0x100;
                       32 <= c <= 126 && c != 96
                       && CommandOf(r.console.buf) == CommandOf(g.console.buf) + [c as char]))
  {
    var c := CallbackChar(codepoint, littleEndian);
    CallbackCharIsLowByte(codepoint, littleEndian);
    Font.PrintableRange(c);
    EnterStepValid(g.console, c);
  }

  /**
   * The key-clearing loop of initWindow (main.cpp:543-545) as written: it stops before
   * GLFW_KEY_LAST, so that key keeps whatever the table held.
   */
  function ClearedAsWritten(keys: seq<bool>): (r: seq<bool>)
    ensures |r| == |keys|
  {
    seq(|keys|, i requires 0 <= i < |keys| => if i < KeyLast then false else keys[i])
  }

  method ClearKeysAsWritten(keys: array<bool>)
    requires keys.Length == KeyCount
    modifies keys
    ensures keys[..] == ClearedAsWritten(old(keys[..]))
  {
    for i := 0 to KeyLast
      invariant forall k :: 0 <= k < i ==> !keys[k]
      invariant forall k :: i <= k < KeyCount ==> keys[k] == old(keys[k])
    {
      keys[i] := false;
    }
  }

  /**
   * With the table starting indeterminate (all set, say), the loop as written leaves
   * GLFW_KEY_LAST reading as held down before any event arrives.
   */
  lemma StaleKeyAsWritten(format: Vec3 -> seq<CChar>, parse: seq<CChar> -> Option<Vec3>)
    ensures var g := GameState(ClearedAsWritten(seq(KeyCount, _ => true)), false, World(false, InitialPosition),
                               ConsoleState(false, false, ClearedBuffer(), 1, []));
            GameValid(g) && Replay(g, [], format, parse).keys[KeyLast] && !LastPressed([], KeyLast, false)
  {
    var g := GameState(ClearedAsWritten(seq(KeyCount, _ => true)), false, World(false, InitialPosition),
                       ConsoleState(false, false, ClearedBuffer(), 1, []));
    ClearedIsEmpty(g.console);
  }

  /** The evidently intended clearing: every key, GLFW_KEY_LAST included. */
  method ClearKeys(keys: array<bool>)
    requires keys.Length == KeyCount
    modifies keys
    ensures keys[..] == seq(KeyCount, _ => false)
  {
    for i := 0 to KeyCount
      invariant forall k :: 0 <= k < i ==> !keys[k]
    {
      keys[i] := false;
    }
  }

  /** From the cleared table a key reads as held down exactly when its last PRESS/RELEASE was a press. */
  lemma ClearedKeysFollowEvents(g: GameState, events: seq<KeyEvent>, k: int,
                                format: Vec3 -> seq<CChar>, parse: seq<CChar> -> Option<Vec3>)
    requires GameValid(g) && g.keys == seq(KeyCount, _ => false) && 0 <= k < KeyCount
    ensures Replay(g, events, format, parse).keys[k] == LastPressed(events, k, false)
  {
    KeysFollowEvents(g, events, k, format, parse);
  }

  /** The Game object of main.cpp, as far as its input handling goes. */
  class Game {
    var shouldQuit: bool
    var fpsCounterEnabled: bool
    var position: Vec3
    const keyPressed: array<bool>
    const littleEndian: bool
    const console: Console

    function WorldState(): World
      reads this
    {
      World(shouldQuit, position)
    }

    ghost function State(): GameState
      reads this, keyPressed, console, console.commandBuf
    {
      GameState(keyPressed[..], fpsCounterEnabled, WorldState(), console.State())
    }

    ghost predicate Valid()
      reads this, keyPressed, console, console.commandBuf
    {
      keyPressed.Length == KeyCount && console.instance == this && GameValid(State())
    }

    /**
     * Construction of the Game and the start of Game::run (main.cpp:147-148) and initWindow
     * (main.cpp:543-545): `initialKeys` is the indeterminate content of keyPressed, cleared
     * here by the corrected loop.
     */
    constructor (littleEndian: bool, initialKeys: seq<bool>)
      requires |initialKeys| == KeyCount
      ensures Valid() && fresh(keyPressed) && fresh(console) && fresh(console.commandBuf)
      ensures State() == GameState(seq(KeyCount, _ => false), false, World(false, InitialPosition),
                                   ConsoleState(false, false, ClearedBuffer(), 1, []))
      ensures this.littleEndian == littleEndian
    {
      shouldQuit := false;
      fpsCounterEnabled := false;
      position := InitialPosition;
      this.littleEndian := littleEndian;
      keyPressed := new bool[KeyCount](i requires 0 <= i < KeyCount => initialKeys[i]);
      console := new Console();
      new;
      console.SetGameInstance(this);
      ClearKeys(keyPressed);
      ClearedIsEmpty(console.State());
    }

    /** Game::keyCallback (main.cpp:469-497). */
    method KeyCallback(key: int, action: int, format: Vec3 -> seq<CChar>, parse: seq<CChar> -> Option<Vec3>)
      requires Valid()
      modifies this`shouldQuit, this`position, this`fpsCounterEnabled, keyPressed,
               console`enabled, console`output, console`commandCursor, console`latestTextRendered, console.commandBuf
      ensures Valid()
      ensures State() == KeyStep(old(State()), key, action, format, parse)
    {
      KeyStepValid(State(), key, action, format, parse);
      if key <= KeyLast && key >= 0 {
        if action == Press {
          KeyPress(key, format, parse);
          keyPressed[key] := true;
        } else if action == Release {
          keyPressed[key] := false;
        }
      }
    }

    /** The handling of a PRESS of an in-range key (main.cpp:471-491), before its cell is set. */
    method KeyPress(key: int, format: Vec3 -> seq<CChar>, parse: seq<CChar> -> Option<Vec3>)
      requires Valid() && 0 <= key <= KeyLast
      modifies this`shouldQuit, this`position, this`fpsCounterEnabled,
               console`enabled, console`output, console`commandCursor, console`latestTextRendered, console.commandBuf
      ensures State() == PressStep(old(State()), key, format, parse)
    {
      if key == KeyGraveAccent {
        console.Toggle();
      } else if !console.enabled && key == KeyQ {
        shouldQuit := true;
      } else if console.enabled {
        if key == KeyEnter {
          console.RunCommand(format, parse);
        } else if key == KeyBackspace {
          console.DeleteCharacter();
        }
      } else if key == KeyF1 {
        fpsCounterEnabled := !fpsCounterEnabled;
      }
    }

    /** Game::charCallback (main.cpp:454-467). */
    method CharCallback(codepoint: int)
      requires Valid() && 0 <= codepoint < 0x1_0000_0000
      modifies console`commandCursor, console`latestTextRendered, console.commandBuf
      ensures Valid()
      ensures State() == CharStep(old(State()), codepoint, littleEndian)
    {
      if console.enabled {
        var bytes := MemoryBytes(codepoint, littleEndian);
        var c: CChar;
        if littleEndian {
          c := bytes[0] as char;
        } else {
          c := bytes[3] as char;
        }
        if Font.IsPrintableAscii(c) && c != '`' {
          EnterStepValid(console.State(), c);
          console.EnterCharacter(c);
        }
      }
    }
  }
}
