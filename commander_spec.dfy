/**
 * The SCPI console dispatcher (Commander) as functions on values. A command is seen through its
 * name, description, handler and current prompt; the shell state is the optional connected-device
 * context plus the registered commands in registration order. Execute answers one input line
 * with the new state and the reply. The classes in commander.dfy are proved to follow these
 * functions.
 */
module CommanderSpec {
  import opened Wrappers
  import opened ScpiStrings

  const DefaultPrompt: string := "$ "
  const Greeting: string := "Connected. Run help for more info."
  const HelpHeader: string := "Available commands:"
  const ListHeader: string := "Available devices:"
  const ListName: string := "device list"
  const InspectName: string := "device inspect"
  const ConnectName: string := "device connect"
  const HelpName: string := "help"

  /** The handlers the commands are registered with; DeviceSession is the connected-device context. */
  datatype Action = ListDevices | InspectDevice | ConnectDevice | Help | DeviceSession(deviceId: string)

  /** A Command as a value: its name (`cmd`), description, handler and current prompt. */
  datatype CommandView = CommandView(name: string, description: string, action: Action, prompt: string)

  /** One entry of the device configuration: its id, its description and its dumped configuration text. */
  datatype DeviceEntry = DeviceEntry(id: string, description: string, dump: string)

  /** What one input produces: a text, the ExitException with its message, or a NullPointerException. */
  datatype Reply = Output(text: string) | Exit(message: string) | NullPointer

  /** The effect of running one handler: the running command's prompt afterwards, the context, the reply. */
  datatype Effect = Effect(prompt: string, context: Option<CommandView>, reply: Reply)

  datatype ShellState = ShellState(context: Option<CommandView>, commands: seq<CommandView>)

  /** What Execute returns: the state afterwards and the reply. */
  datatype Response = Response(state: ShellState, reply: Reply)

  /** The commands the constructor registers, in registration order, each with the default prompt. */
  function Registry(): seq<CommandView>
  {
    [
    CommandView(ListName, "List available devices to manage.", ListDevices, DefaultPrompt),
    CommandView(InspectName, "Print device configuration details.", InspectDevice, DefaultPrompt),
    CommandView(ConnectName, "Connect and interact with a given device.", ConnectDevice, DefaultPrompt),
    CommandView(HelpName, "Prints this description.", Help, DefaultPrompt)
    ]
  }

  /** The index of "device connect" in the registry. */
  const ConnectIndex := 2

  function Initial(): ShellState
  {
    ShellState(None, Registry())
  }

  /** A bare Enter: its argument text is empty once the line breaks are stripped. */
  predicate IsLineEnd(msg: string)
    ensures IsLineEnd(msg) ==> Strip(msg) == [] && |msg| <= 2
  {
    assert Strip("\n") == [] by { StripChar('\n'); }
    assert Strip("\r\n") == [] by { StripAppend("\r", "\n"); StripChar('\r'); StripChar('\n'); }
    msg == "\n" || msg == "\r\n"
  }

  /** The end-of-transmission character, sent by Ctrl-D. */
  predicate IsCtrlD(msg: string)
    ensures IsCtrlD(msg) ==> !IsLineEnd(msg) && Strip(msg) == msg
  {
    msg == "\U{4}"
  }

  /** The greeting sent when a client connects. */
  function Confirm(): (r: string)
    ensures |r| >= |DefaultPrompt| && r[|r| - |DefaultPrompt|..] == DefaultPrompt
  {
    UnderHeader(Greeting, [DefaultPrompt])
  }

  /** The reply to input no registered command claims. */
  function HandleUnknownCmd(cmd: string): (r: Reply)
    ensures r.Exit? <==> IsCtrlD(cmd)
    ensures r.Exit? ==> r.message == "bye"
    ensures IsLineEnd(cmd) ==> r == Output(DefaultPrompt)
    ensures !IsCtrlD(cmd) && !IsLineEnd(cmd) ==> r == Output(cmd + ": command not found\n" + DefaultPrompt)
  {
    if IsCtrlD(cmd) then Exit("bye")
    else if IsLineEnd(cmd) then Output(DefaultPrompt)
    else Output(cmd + ": command not found\n" + DefaultPrompt)
  }

  /** The prompt "device connect X" installs. */
  function SessionPrompt(deviceId: string): string
  {
    "device:" + deviceId + DefaultPrompt
  }

  /** The context command "device connect X" creates: no name, no description, the device's prompt. */
  function SessionCommand(deviceId: string): CommandView
  {
    CommandView("", "", DeviceSession(deviceId), SessionPrompt(deviceId))
  }

  /** The argument text Command.execute hands to its handler. */
  function Args(name: string, cmd: string): (r: string)
    ensures NoLineBreak(r)
  {
    Strip(ReplaceFirst(cmd, name + " ", ""))
  }

  /** Map.get on the device configuration. */
  function Lookup(devices: seq<DeviceEntry>, id: string): (r: Option<DeviceEntry>)
    ensures r.Some? ==> r.value in devices && r.value.id == id
    ensures r.None? <==> forall e :: e in devices ==> e.id != id
  {
    if devices == [] then None
    else if devices[0].id == id then Some(devices[0])
    else Lookup(devices[1..], id)
  }

  function NotFound(deviceId: string): string
  {
    "device \"" + deviceId + "\" not found"
  }

  /** One "%-20s %s" row per device: its id and its description. */
  function DeviceRows(devices: seq<DeviceEntry>): seq<string>
  {
    seq(|devices|, i requires 0 <= i < |devices| => Column(devices[i].id, devices[i].description))
  }

  /** One "%-20s %s" row per command: its name and its description. */
  function CommandRows(commands: seq<CommandView>): seq<string>
  {
    seq(|commands|, i requires 0 <= i < |commands| => Column(commands[i].name, commands[i].description))
  }

  /** The text of "device list": a header, a column header, then one row per device. */
  function ListText(devices: seq<DeviceEntry>): (r: string)
    ensures ListHeader + "\n" + Column("ID", "DESCRIPTION") + "\n" <= r
  {
    UnderHeader(ListHeader, [Column("ID", "DESCRIPTION"), Join(DeviceRows(devices), "\n")])
  }

  /** The text of "device inspect X". */
  function InspectText(devices: Option<seq<DeviceEntry>>, deviceId: string): (r: string)
    ensures (devices.None? || forall e :: e in devices.value ==> e.id != deviceId) ==> r == NotFound(deviceId)
    ensures r == NotFound(deviceId) || exists e :: e in devices.value && e.id == deviceId && r == e.dump
  {
    if devices.None? then NotFound(deviceId)
    else match Lookup(devices.value, deviceId)
      case Some(e) => e.dump
      case None => NotFound(deviceId)
  }

  /** The text of "help": one row per registered command. */
  function HelpText(commands: seq<CommandView>): (r: string)
    ensures HelpHeader + "\n" <= r
    ensures commands == [] ==> r == HelpHeader + "\n"
  {
    UnderHeader(HelpHeader, CommandRows(commands))
  }

  /** One handler applied to its argument text; `prompt` is the prompt of the command running it. */
  function Run(action: Action, prompt: string, context: Option<CommandView>, commands: seq<CommandView>,
               devices: Option<seq<DeviceEntry>>, args: string): (r: Effect)
    ensures !r.reply.Exit?
    ensures !action.ConnectDevice? ==> r.prompt == prompt
    ensures r.context != context ==>
      (action.ConnectDevice? && r.context == Some(SessionCommand(args))) || (action.DeviceSession? && r.context.None?)
  {
    match action
    case ListDevices =>
      Effect(prompt, context, if devices.None? then NullPointer else Output(ListText(devices.value)))
    case InspectDevice =>
      Effect(prompt, context, Output(InspectText(devices, args)))
    case ConnectDevice =>
      Effect(SessionPrompt(args), Some(SessionCommand(args)), Output("connect to: " + args))
    case Help =>
      Effect(prompt, context, Output(HelpText(commands)))
    case DeviceSession(id) =>
      if IsCtrlD(args) then Effect(prompt, None, Output("disconnect from " + id))
      else Effect(prompt, context, Output(id + "(" + args + ")"))
  }

  /** Command.execute: drop the name and one space, then the line breaks, and run the handler. */
  function CommandExecute(c: CommandView, context: Option<CommandView>, commands: seq<CommandView>,
                          devices: Option<seq<DeviceEntry>>, cmd: string): (r: Effect)
    ensures !r.reply.Exit?
    ensures !c.action.ConnectDevice? ==> r.prompt == c.prompt
    ensures c.action.ConnectDevice? ==> r.context == Some(SessionCommand(Args(c.name, cmd)))
    ensures r.context != context && !c.action.ConnectDevice? ==> c.action.DeviceSession? && r.context.None?
  {
    Run(c.action, c.prompt, context, commands, devices, Args(c.name, cmd))
  }

  /** Commander.exec: a bare line end only re-prompts; otherwise the result, a line feed and the prompt. */
  function Exec(c: CommandView, context: Option<CommandView>, commands: seq<CommandView>,
                devices: Option<seq<DeviceEntry>>, cmd: string): (r: Effect)
    ensures !r.reply.Exit?
    ensures r.reply.Output? ==> |r.prompt| <= |r.reply.text| && r.reply.text[|r.reply.text| - |r.prompt|..] == r.prompt
    ensures IsLineEnd(cmd) ==> r.prompt == c.prompt && r.context == context
  {
    if IsLineEnd(cmd) then Effect(c.prompt, context, Output(c.prompt))
    else
      var e := CommandExecute(c, context, commands, devices, cmd);
      if e.reply.Output? then e.(reply := Output(e.reply.text + "\n" + e.prompt)) else e
  }

  /** The filter-and-findFirst of execMatching: the first command whose name is a prefix of the input. */
  function FirstMatch(commands: seq<CommandView>, cmd: string): (r: Option<nat>)
    ensures r.Some? ==> r.value < |commands| && commands[r.value].name <= cmd
    ensures r.Some? ==> forall j :: 0 <= j < r.value ==> !(commands[j].name <= cmd)
    ensures r.None? <==> forall j :: 0 <= j < |commands| ==> !(commands[j].name <= cmd)
  {
    if commands == [] then None
    else if commands[0].name <= cmd then Some(0)
    else match FirstMatch(commands[1..], cmd)
      case None => None
      case Some(k) => Some(k + 1)
  }

  /**
   * Commander.execMatching. The fallback handleUnknownCmd(cmd) is an argument of orElse, so it is
   * evaluated after a matching command has run; only an exception out of that command stops it.
   */
  function ExecMatching(st: ShellState, devices: Option<seq<DeviceEntry>>, cmd: string): (r: Response)
    ensures |r.state.commands| == |st.commands|
    ensures forall j :: 0 <= j < |st.commands| ==> r.state.commands[j].(prompt := st.commands[j].prompt) == st.commands[j]
    ensures forall j :: 0 <= j < |st.commands| && r.state.commands[j] != st.commands[j] ==> FirstMatch(st.commands, cmd) == Some(j)
    ensures FirstMatch(st.commands, cmd).None? ==> r.state == st
    ensures r.reply.Exit? ==> IsCtrlD(cmd) && r.reply.message == "bye"
  {
    match FirstMatch(st.commands, cmd)
    case None => Response(st, HandleUnknownCmd(cmd))
    case Some(i) =>
      var e := Exec(st.commands[i], st.context, st.commands, devices, cmd);
      var st' := ShellState(e.context, st.commands[i := st.commands[i].(prompt := e.prompt)]);
      if e.reply.NullPointer? then Response(st', e.reply)
      else
        var u := HandleUnknownCmd(cmd);
        if u.Exit? then Response(st', u) else Response(st', e.reply)
  }

  /** Commander.execute: the context, when there is one, takes every input; else the registered commands. */
  function Execute(st: ShellState, devices: Option<seq<DeviceEntry>>, cmd: string): (r: Response)
    ensures |r.state.commands| == |st.commands|
    ensures forall j :: 0 <= j < |st.commands| ==> r.state.commands[j].(prompt := st.commands[j].prompt) == st.commands[j]
    ensures st.context.Some? ==> r.state.commands == st.commands
    ensures r.reply.Exit? ==> st.context.None? && IsCtrlD(cmd)
  {
    match st.context
    case Some(c) =>
      var e := Exec(c, st.context, st.commands, devices, cmd);
      Response(ShellState(e.context, st.commands), e.reply)
    case None => ExecMatching(st, devices, cmd)
  }

  /**
   * The states Commander reaches: the registered commands keep their names, descriptions and
   * handlers; only "device connect" ever changes its prompt; a context is a device session.
   */
  ghost predicate WellFormed(st: ShellState)
  {
    |st.commands| == |Registry()| &&
    (forall i :: 0 <= i < |Registry()| ==> st.commands[i].(prompt := DefaultPrompt) == Registry()[i]) &&
    (forall i :: 0 <= i < |Registry()| && i != ConnectIndex ==> st.commands[i].prompt == DefaultPrompt) &&
    (st.context.Some? ==>
      st.context.value.action.DeviceSession? &&
      st.context.value == SessionCommand(st.context.value.action.deviceId))
  }
}
