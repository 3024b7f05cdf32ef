/**
 * What the console promises, proved about the functions of CommanderSpec: how a context takes
 * over, which registered command runs, the line-end, Ctrl-D and unknown-input rules, the argument
 * rewriting, connecting and disconnecting, the shape of the listings, and the invariant every
 * input keeps.
 */
module CommanderProperties {
  import opened Wrappers
  import opened ScpiStrings
  import opened CommanderSpec

  // ---------------------------------------------------------------- dispatch

  /** The registered names are at least four characters long. */
  lemma RegisteredNamesLong(st: ShellState)
    requires WellFormed(st)
    ensures forall j :: 0 <= j < |st.commands| ==> |st.commands[j].name| >= 4
  {
    forall j | 0 <= j < |st.commands|
      ensures |st.commands[j].name| >= 4
    {
      assert st.commands[j].(prompt := DefaultPrompt) == Registry()[j];
    }
  }

  /** Input shorter than every registered name, such as a line end or Ctrl-D, matches no command. */
  lemma ShortInputMatchesNothing(st: ShellState, cmd: string)
    requires WellFormed(st) && |cmd| < 4
    ensures FirstMatch(st.commands, cmd) == None
  {
    RegisteredNamesLong(st);
    assert forall j :: 0 <= j < |st.commands| ==> !(st.commands[j].name <= cmd);
  }

  /** The eagerly evaluated fallback of execMatching never throws once a command has matched. */
  lemma MatchedInputIsNotCtrlD(st: ShellState, cmd: string)
    requires WellFormed(st) && FirstMatch(st.commands, cmd).Some?
    ensures !HandleUnknownCmd(cmd).Exit?
  {
    if IsCtrlD(cmd) {
      ShortInputMatchesNothing(st, cmd);
    }
  }

  /** With a context, the input goes to it, whatever the registered commands are. */
  lemma ContextTakesOver(st: ShellState, other: seq<CommandView>, devices: Option<seq<DeviceEntry>>, cmd: string)
    requires st.context.Some? && st.context.value.action.DeviceSession?
    ensures Execute(st, devices, cmd).state.commands == st.commands
    ensures Execute(ShellState(st.context, other), devices, cmd).reply == Execute(st, devices, cmd).reply
    ensures Execute(ShellState(st.context, other), devices, cmd).state.context == Execute(st, devices, cmd).state.context
  {
  }

  /** Without a context, the first registered command whose name starts the input runs, and only it. */
  lemma FirstPrefixRuns(st: ShellState, devices: Option<seq<DeviceEntry>>, cmd: string, i: nat)
    requires WellFormed(st) && st.context.None?
    requires i < |st.commands| && st.commands[i].name <= cmd
    requires forall j :: 0 <= j < i ==> !(st.commands[j].name <= cmd)
    ensures var e := Exec(st.commands[i], None, st.commands, devices, cmd);
      Execute(st, devices, cmd) ==
      Response(ShellState(e.context, st.commands[i := st.commands[i].(prompt := e.prompt)]), e.reply)
  {
    assert FirstMatch(st.commands, cmd) == Some(i);
    MatchedInputIsNotCtrlD(st, cmd);
  }

  /** Without a context, input no registered name starts goes to handleUnknownCmd and changes nothing. */
  lemma NoPrefixIsUnknown(st: ShellState, devices: Option<seq<DeviceEntry>>, cmd: string)
    requires st.context.None?
    requires forall j :: 0 <= j < |st.commands| ==> !(st.commands[j].name <= cmd)
    ensures Execute(st, devices, cmd) == Response(st, HandleUnknownCmd(cmd))
  {
  }

  /** A bare line end only re-prompts: with the context's prompt in a session, "$ " otherwise. */
  lemma LineEndReprompts(st: ShellState, devices: Option<seq<DeviceEntry>>, cmd: string)
    requires WellFormed(st) && IsLineEnd(cmd)
    ensures Execute(st, devices, cmd) ==
      Response(st, Output(if st.context.Some? then st.context.value.prompt else DefaultPrompt))
  {
    if st.context.None? {
      ShortInputMatchesNothing(st, cmd);
    }
  }

  /** Ctrl-D outside a session ends the console with "bye". */
  lemma CtrlDOutsideSessionExits(st: ShellState, devices: Option<seq<DeviceEntry>>)
    requires WellFormed(st) && st.context.None?
    ensures Execute(st, devices, "\U{4}") == Response(st, Exit("bye"))
  {
    ShortInputMatchesNothing(st, "\U{4}");
  }

  /** Any other unclaimed input is echoed as not found, followed by the default prompt. */
  lemma UnknownInput(st: ShellState, devices: Option<seq<DeviceEntry>>, cmd: string)
    requires st.context.None? && !IsCtrlD(cmd) && !IsLineEnd(cmd)
    requires forall j :: 0 <= j < |st.commands| ==> !(st.commands[j].name <= cmd)
    ensures Execute(st, devices, cmd) == Response(st, Output(cmd + ": command not found\n" + DefaultPrompt))
  {
    NoPrefixIsUnknown(st, devices, cmd);
  }

  // ---------------------------------------------------------------- argument rewriting

  /** Command.execute drops the name and the space after it, then the line breaks. */
  lemma ArgsAfterName(name: string, rest: string)
    ensures Args(name, name + " " + rest) == Strip(rest)
  {
    var cmd := name + " " + rest;
    assert (name + " ") <= cmd;
    ReplaceFirstAtStart(cmd, name + " ", "");
    assert cmd[|name + " "|..] == rest;
    assert "" + rest == rest;
  }

  /** The context command has an empty name, so its rewriting drops the first space of the input. */
  lemma SessionArgsDropFirstSpace(a: string, b: string)
    requires ' ' !in a
    ensures Args("", a + " " + b) == Strip(a + b)
  {
    var s := a + " " + b;
    assert "" + " " == " ";
    assert OccursAt(s, " ", |a|);
    forall j | 0 <= j < |a|
      ensures !OccursAt(s, " ", j)
    {
      assert s[j..j + 1] == [a[j]];
    }
    assert FindFirst(s, " ") == Some(|a|);
    assert s[..|a|] == a && s[|a| + 1..] == b;
    assert ReplaceFirst(s, "" + " ", "") == a + b;
  }

  /** Without a space, the context command sees its input minus the line breaks. */
  lemma SessionArgsNoSpace(cmd: string)
    requires ' ' !in cmd
    ensures Args("", cmd) == Strip(cmd)
  {
    assert "" + " " == " ";
    forall j | 0 <= j
      ensures !OccursAt(cmd, " ", j)
    {
      if j + 1 <= |cmd| {
        assert cmd[j..j + 1] == [cmd[j]];
      }
    }
    ReplaceFirstAbsent(cmd, " ", "");
  }

  // ---------------------------------------------------------------- connecting and disconnecting

  /** "device connect X" is claimed by the connect command: neither earlier name starts it. */
  lemma ConnectIsMatched(st: ShellState, id: string)
    requires WellFormed(st)
    ensures FirstMatch(st.commands, ConnectName + " " + id) == Some(ConnectIndex)
  {
    var cmd := ConnectName + " " + id;
    assert st.commands[0].(prompt := DefaultPrompt) == Registry()[0];
    assert st.commands[1].(prompt := DefaultPrompt) == Registry()[1];
    assert st.commands[2].(prompt := DefaultPrompt) == Registry()[2];
    assert cmd[7] == 'c';
    assert !(st.commands[0].name <= cmd) by { assert st.commands[0].name[7] == 'l'; }
    assert !(st.commands[1].name <= cmd) by { assert st.commands[1].name[7] == 'i'; }
    assert st.commands[2].name <= cmd by { assert cmd[..|ConnectName|] == ConnectName; }
  }

  /** "device connect X" installs the session for X, with its line breaks stripped, and gives the connect command that prompt too. */
  lemma ConnectOpensSession(st: ShellState, devices: Option<seq<DeviceEntry>>, id: string)
    requires WellFormed(st) && st.context.None?
    ensures Execute(st, devices, ConnectName + " " + id) ==
      Response(ShellState(Some(SessionCommand(Strip(id))),
                          st.commands[ConnectIndex := st.commands[ConnectIndex].(prompt := SessionPrompt(Strip(id)))]),
               Output("connect to: " + Strip(id) + "\n" + SessionPrompt(Strip(id))))
  {
    var cmd := ConnectName + " " + id;
    ConnectIsMatched(st, id);
    MatchedInputIsNotCtrlD(st, cmd);
    assert st.commands[ConnectIndex].(prompt := DefaultPrompt) == Registry()[ConnectIndex];
    ConnectExec(st.commands[ConnectIndex], st.commands, devices, id);
  }

  /** The connect command run on "device connect X", outside a session. */
  lemma ConnectExec(c: CommandView, commands: seq<CommandView>, devices: Option<seq<DeviceEntry>>, id: string)
    requires c.(prompt := DefaultPrompt) == Registry()[ConnectIndex]
    ensures var a := Strip(id);
      Exec(c, None, commands, devices, ConnectName + " " + id) ==
      Effect(SessionPrompt(a), Some(SessionCommand(a)), Output("connect to: " + a + "\n" + SessionPrompt(a)))
  {
    var cmd := ConnectName + " " + id;
    ArgsAfterName(ConnectName, id);
    assert !IsLineEnd(cmd) by { assert |cmd| > 2; }
  }

  /** In a session, input whose rewritten text is Ctrl-D closes the session, answered with X's prompt. */
  lemma SessionCtrlDDisconnects(st: ShellState, devices: Option<seq<DeviceEntry>>, id: string, cmd: string)
    requires st.context == Some(SessionCommand(id))
    requires !IsLineEnd(cmd) && IsCtrlD(Args("", cmd))
    ensures Execute(st, devices, cmd) ==
      Response(ShellState(None, st.commands), Output("disconnect from " + id + "\n" + SessionPrompt(id)))
  {
  }

  /** In a session, any other input is echoed as X(args), and nothing changes. */
  lemma SessionEchoes(st: ShellState, devices: Option<seq<DeviceEntry>>, id: string, cmd: string)
    requires st.context == Some(SessionCommand(id))
    requires !IsLineEnd(cmd) && !IsCtrlD(Args("", cmd))
    ensures Execute(st, devices, cmd) ==
      Response(st, Output(id + "(" + Args("", cmd) + ")\n" + SessionPrompt(id)))
  {
    var args := Args("", cmd);
    assert id + "(" + args + ")" + "\n" + SessionPrompt(id) == id + "(" + args + ")\n" + SessionPrompt(id);
  }

  /** Connecting to X and then sending Ctrl-D leaves the console without a context again. */
  lemma ConnectThenCtrlD(st: ShellState, devices: Option<seq<DeviceEntry>>, id: string)
    requires WellFormed(st) && st.context.None?
    ensures var r1 := Execute(st, devices, ConnectName + " " + id);
      var r2 := Execute(r1.state, devices, "\U{4}");
      r1.state.commands[ConnectIndex].prompt == SessionPrompt(Strip(id)) &&
      r2 == Response(ShellState(None, r1.state.commands),
                     Output("disconnect from " + Strip(id) + "\n" + SessionPrompt(Strip(id))))
  {
    ConnectOpensSession(st, devices, id);
    var r1 := Execute(st, devices, ConnectName + " " + id);
    assert r1.state.context == Some(SessionCommand(Strip(id)));
    SessionArgsNoSpace("\U{4}");
    StripClean("\U{4}");
    SessionCtrlDDisconnects(r1.state, devices, Strip(id), "\U{4}");
  }

  /** Only "device connect" gives its command a new prompt or a new context; a session can only end. */
  lemma OnlyConnectChangesPrompt(c: CommandView, context: Option<CommandView>, commands: seq<CommandView>,
                                 devices: Option<seq<DeviceEntry>>, cmd: string)
    ensures var e := Exec(c, context, commands, devices, cmd);
      (c.action != ConnectDevice || IsLineEnd(cmd) ==> e.prompt == c.prompt) &&
      ((c.action != ConnectDevice && !c.action.DeviceSession?) || IsLineEnd(cmd) ==> e.context == context) &&
      (c.action.DeviceSession? ==> e.context == context || e.context == None) &&
      (c.action == ConnectDevice && !IsLineEnd(cmd) ==>
        var id := Args(c.name, cmd); e.prompt == SessionPrompt(id) && e.context == Some(SessionCommand(id)))
  {
  }

  /** A matched registered command leaves the state in shape. */
  lemma MatchedKeepsWellFormed(st: ShellState, devices: Option<seq<DeviceEntry>>, cmd: string, i: nat)
    requires WellFormed(st) && st.context.None? && i < |st.commands|
    ensures var e := Exec(st.commands[i], st.context, st.commands, devices, cmd);
      WellFormed(ShellState(e.context, st.commands[i := st.commands[i].(prompt := e.prompt)]))
  {
    var c := st.commands[i];
    assert c.(prompt := DefaultPrompt) == Registry()[i];
    var e := Exec(c, st.context, st.commands, devices, cmd);
    OnlyConnectChangesPrompt(c, st.context, st.commands, devices, cmd);
    assert i != ConnectIndex ==> c.action != ConnectDevice && !c.action.DeviceSession?;
    assert e.context.Some? ==> e.context.value == SessionCommand(e.context.value.action.deviceId);
    var cs := st.commands[i := c.(prompt := e.prompt)];
    forall k | 0 <= k < |Registry()|
      ensures cs[k].(prompt := DefaultPrompt) == Registry()[k]
    {
      assert st.commands[k].(prompt := DefaultPrompt) == Registry()[k];
    }
    forall k | 0 <= k < |Registry()| && k != ConnectIndex
      ensures cs[k].prompt == DefaultPrompt
    {
    }
  }

  /** Every input keeps the shape of the state: the registry, the prompts and the session form. */
  lemma ExecutePreservesWellFormed(st: ShellState, devices: Option<seq<DeviceEntry>>, cmd: string)
    requires WellFormed(st)
    ensures WellFormed(Execute(st, devices, cmd).state)
  {
    if st.context.Some? {
      OnlyConnectChangesPrompt(st.context.value, st.context, st.commands, devices, cmd);
    } else {
      match FirstMatch(st.commands, cmd)
      case None =>
      case Some(i) => MatchedKeepsWellFormed(st, devices, cmd, i);
    }
  }

  lemma InitialWellFormed()
    ensures WellFormed(Initial())
  {
  }

  // ---------------------------------------------------------------- listings

  /** The fixed texts of the console are single lines. */
  lemma FixedTextsOneLine()
    ensures OneLine(Greeting) && OneLine(HelpHeader) && OneLine(ListHeader) && OneLine(DefaultPrompt)
    ensures OneLine(Column("ID", "DESCRIPTION"))
  {
    ColumnOneLine("ID", "DESCRIPTION");
  }

  lemma CommandRowsOneLine(commands: seq<CommandView>)
    requires forall i :: 0 <= i < |commands| ==> OneLine(commands[i].name) && OneLine(commands[i].description)
    ensures forall i :: 0 <= i < |commands| ==> OneLine(CommandRows(commands)[i])
  {
    forall i | 0 <= i < |commands|
      ensures OneLine(CommandRows(commands)[i])
    {
      ColumnOneLine(commands[i].name, commands[i].description);
    }
  }

  /** Each command is one line of the help text, in registration order. */
  lemma HelpLines(commands: seq<CommandView>)
    requires |commands| >= 1
    requires forall i :: 0 <= i < |commands| ==> OneLine(commands[i].name) && OneLine(commands[i].description)
    ensures Lines(HelpText(commands)) == [HelpHeader] + CommandRows(commands)
  {
    CommandRowsOneLine(commands);
    FixedTextsOneLine();
    LinesUnderHeader(HelpHeader, CommandRows(commands));
  }

  /** The help text depends on the registered names and descriptions only, never on prompts or the context. */
  lemma HelpListsRegistry(st: ShellState)
    requires WellFormed(st)
    ensures HelpText(st.commands) == HelpText(Registry())
  {
    forall i | 0 <= i < |Registry()|
      ensures st.commands[i].name == Registry()[i].name && st.commands[i].description == Registry()[i].description
    {
      assert st.commands[i].(prompt := DefaultPrompt) == Registry()[i];
    }
    assert CommandRows(st.commands) == CommandRows(Registry());
  }

  lemma DeviceRowsOneLine(devices: seq<DeviceEntry>)
    requires forall i :: 0 <= i < |devices| ==> OneLine(devices[i].id) && OneLine(devices[i].description)
    ensures forall i :: 0 <= i < |devices| ==> OneLine(DeviceRows(devices)[i])
  {
    forall i | 0 <= i < |devices|
      ensures OneLine(DeviceRows(devices)[i])
    {
      ColumnOneLine(devices[i].id, devices[i].description);
    }
  }

  /** The device list: a header, the column header, then one line per device (an empty line for none). */
  lemma ListLines(devices: seq<DeviceEntry>)
    requires forall i :: 0 <= i < |devices| ==> OneLine(devices[i].id) && OneLine(devices[i].description)
    ensures Lines(ListText(devices)) ==
      [ListHeader] + ([Column("ID", "DESCRIPTION")] + (if devices == [] then [""] else DeviceRows(devices)))
  {
    DeviceRowsOneLine(devices);
    FixedTextsOneLine();
    LinesOfTable(ListHeader, Column("ID", "DESCRIPTION"), DeviceRows(devices));
  }

  /** The device configuration maps each id to at most one entry. */
  ghost predicate UniqueIds(devices: seq<DeviceEntry>)
  {
    forall i, j :: 0 <= i < |devices| && 0 <= j < |devices| && devices[i].id == devices[j].id ==> i == j
  }

  /** "device inspect X" prints the dump of X's entry when X is configured. */
  lemma InspectFindsDevice(devices: seq<DeviceEntry>, e: DeviceEntry)
    requires UniqueIds(devices) && e in devices
    ensures InspectText(Some(devices), e.id) == e.dump
  {
    var r := Lookup(devices, e.id);
    var i :| 0 <= i < |devices| && devices[i] == e;
    var j :| 0 <= j < |devices| && devices[j] == r.value;
    assert i == j;
  }

  /** ... and the not-found message otherwise, or when there is no configuration at all. */
  lemma InspectUnknownDevice(devices: Option<seq<DeviceEntry>>, id: string)
    requires devices.Some? ==> forall e :: e in devices.value ==> e.id != id
    ensures InspectText(devices, id) == "device \"" + id + "\" not found"
  {
  }

  /** The greeting is one line and then the default prompt. */
  lemma ConfirmLines()
    ensures Lines(Confirm()) == [Greeting, DefaultPrompt]
  {
    FixedTextsOneLine();
    LinesUnderHeader(Greeting, [DefaultPrompt]);
  }
}
