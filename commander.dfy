/**
 * Commander and its Command objects as classes. A Command's prompt is a field the connect handler
 * overwrites; the Commander's context is a field the connect and Ctrl-D handlers set and clear.
 * Each method is proved to produce the state and reply the functions of CommanderSpec prescribe.
 */
module Scpi {
  import opened Wrappers
  import opened ScpiStrings
  import opened CommanderSpec
  import CommanderProperties

  /** One command: a name, a description, a handler and a prompt that starts as "$ ". */
  class Command {
    const name: string
    const description: string
    const action: Action
    var prompt: string

    /** Command.of. */
    constructor Of(name: string, description: string, action: Action)
      ensures this.name == name && this.description == description && this.action == action
      ensures prompt == DefaultPrompt
    {
      this.name := name;
      this.description := description;
      this.action := action;
      prompt := DefaultPrompt;
    }

    function View(): CommandView
      reads this
    {
      CommandView(name, description, action, prompt)
    }

    method SetPrompt(p: string)
      modifies this`prompt
      ensures prompt == p
    {
      prompt := p;
    }

    /** The "device connect" handler: this command and a new context both get the device's prompt. */
    method Connect(owner: Commander, deviceId: string) returns (r: Reply)
      modifies this`prompt, owner`context
      ensures prompt == SessionPrompt(deviceId)
      ensures owner.context.Some? && fresh(owner.context.value)
      ensures owner.Context() == Some(SessionCommand(deviceId))
      ensures r == Output("connect to: " + deviceId)
    {
      var p := SessionPrompt(deviceId);
      SetPrompt(p);
      var contextCmd := new Command.Of("", "", DeviceSession(deviceId));
      contextCmd.SetPrompt(p);
      owner.context := Some(contextCmd);
      r := Output("connect to: " + deviceId);
    }

    /** Command.execute: rewrite the input into the argument text and apply the handler. */
    method Execute(owner: Commander, cmd: string) returns (r: Reply)
      modifies this`prompt, owner`context
      ensures Effect(prompt, owner.Context(), r) ==
        CommandExecute(old(View()), old(owner.Context()), old(owner.Views()), owner.devices, cmd)
      ensures owner.context.Some? && owner.context != old(owner.context) ==> fresh(owner.context.value)
    {
      var args := Args(name, cmd);
      match action
      case ListDevices =>
        if owner.devices.None? {
          r := NullPointer;
        } else {
          r := Output(ListText(owner.devices.value));
        }
      case InspectDevice =>
        r := Output(InspectText(owner.devices, args));
      case ConnectDevice =>
        r := Connect(owner, args);
      case Help =>
        r := Output(HelpText(owner.Views()));
      case DeviceSession(id) =>
        if IsCtrlD(args) {
          owner.context := None;
          r := Output("disconnect from " + id);
        } else {
          r := Output(id + "(" + args + ")");
        }
    }
  }

  /** The console: the device configuration, the registered commands and the optional context. */
  class Commander {
    const devices: Option<seq<DeviceEntry>>
    const commands: seq<Command>
    var context: Option<Command>

    /** The context command, if any, as a value. */
    function Context(): Option<CommandView>
      reads this, if context.Some? then {context.value} else {}
    {
      if context.Some? then Some(context.value.View()) else None
    }

    /** The registered commands as values, in registration order. */
    function Views(): seq<CommandView>
      reads commands
    {
      seq(|commands|, i reads commands requires 0 <= i < |commands| => commands[i].View())
    }

    function State(): ShellState
      reads this, commands, if context.Some? then {context.value} else {}
    {
      ShellState(Context(), Views())
    }

    /** The state has the shape every input keeps, the commands are distinct and the context is none of them. */
    ghost predicate Valid()
      reads this, commands, if context.Some? then {context.value} else {}
    {
      WellFormed(State()) &&
      (forall i, j :: 0 <= i < j < |commands| ==> commands[i] != commands[j]) &&
      (context.Some? ==> context.value !in commands)
    }

    /** The four registered commands, freshly made, in registration order. */
    static method Register() returns (cs: seq<Command>)
      ensures |cs| == |Registry()|
      ensures forall i :: 0 <= i < |cs| ==> fresh(cs[i]) && cs[i].View() == Registry()[i]
      ensures forall i, j :: 0 <= i < j < |cs| ==> cs[i] != cs[j]
    {
      var reg := Registry();
      var list := new Command.Of(reg[0].name, reg[0].description, reg[0].action);
      var inspect := new Command.Of(reg[1].name, reg[1].description, reg[1].action);
      var connect := new Command.Of(reg[2].name, reg[2].description, reg[2].action);
      var help := new Command.Of(reg[3].name, reg[3].description, reg[3].action);
      cs := [list, inspect, connect, help];
    }

    /** The constructor registers the four commands, in order, each with the default prompt. */
    constructor (devices: Option<seq<DeviceEntry>>)
      ensures this.devices == devices
      ensures Valid() && State() == Initial()
    {
      this.devices := devices;
      var cs := Register();
      commands := cs;
      context := None;
      new;
      assert Views() == Registry();
      CommanderProperties.InitialWellFormed();
    }

    /** Commander.exec: a bare line end gives the prompt; else the result, a line feed and the prompt. */
    method Exec(c: Command, cmd: string) returns (r: Reply)
      modifies c`prompt, this`context
      ensures Effect(c.prompt, Context(), r) ==
        CommanderSpec.Exec(old(c.View()), old(Context()), old(Views()), devices, cmd)
      ensures context.Some? && context != old(context) ==> fresh(context.value)
    {
      if IsLineEnd(cmd) {
        r := Output(c.prompt);
      } else {
        r := c.Execute(this, cmd);
        if r.Output? {
          r := Output(r.text + "\n" + c.prompt);
        }
      }
    }

    /** Commander.execMatching: run the first command whose name starts the input, then the fallback. */
    method ExecMatching(cmd: string) returns (r: Reply)
      requires Valid()
      modifies this`context, commands
      ensures Response(State(), r) == CommanderSpec.ExecMatching(old(State()), devices, cmd)
      ensures context.Some? && context != old(context) ==> fresh(context.value)
    {
      var m := FirstMatch(Views(), cmd);
      match m
      case None =>
        r := HandleUnknownCmd(cmd);
      case Some(i) =>
        ghost var before := Views();
        r := Exec(commands[i], cmd);
        assert Views() == before[i := before[i].(prompt := commands[i].prompt)] by {
          forall k | 0 <= k < |commands|
            ensures Views()[k] == before[i := before[i].(prompt := commands[i].prompt)][k]
          {
            assert k != i ==> commands[k] != commands[i];
          }
        }
        if !r.NullPointer? {
          var u := HandleUnknownCmd(cmd);
          if u.Exit? {
            r := u;
          }
        }
    }

    /** Commander.execute: the context takes the input if there is one; else the registered commands. */
    method Execute(cmd: string) returns (r: Reply)
      requires Valid()
      modifies this`context, commands, if context.Some? then {context.value} else {}
      ensures Valid()
      ensures Response(State(), r) == CommanderSpec.Execute(old(State()), devices, cmd)
    {
      CommanderProperties.ExecutePreservesWellFormed(State(), devices, cmd);
      match context
      case Some(c) =>
        ghost var before := Views();
        r := Exec(c, cmd);
        assert Views() == before;
      case None =>
        r := ExecMatching(cmd);
    }
  }
}
