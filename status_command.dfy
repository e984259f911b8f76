/**
 * The `/status` slash command: the `estado` option picks one status
 * manager wrapper, `mensaje` is passed on where the wrapper takes a
 * message, and the deferred reply is edited to echo the choice. A failing
 * `editReply` after a successful `deferReply` is caught and answered with
 * the error text; a failing `deferReply` leaves nothing to edit, so the
 * catch's own `editReply` throws too and the exception reaches the
 * command handler.
 */
module StatusCommand {
  import opened Wrappers
  import opened Text
  import CommandHandler
  import BotStatus

  /** The command as the loader sees it: named `status`, administrators only, a 10-second cooldown. */
  const Definition: CommandHandler.CommandModule :=
    CommandHandler.CommandModule(Some(CommandHandler.CommandData("status", true)), true, Some(10))

  /** The values the required `estado` option offers. */
  const EstadoChoices: seq<string> := ["online", "offline", "maintenance", "restarting", "error"]

  const MaintenanceDefault: string := "El bot está en mantenimiento"
  const ErrorDefault: string := "El bot ha encontrado un error"
  const ErrorReply: string := "❌ Hubo un error cambiando el estado del bot"

  /** The wrappers of the status manager. */
  datatype StatusCall = SetOnline | SetOffline | SetMaintenance(message: string) | SetRestarting | SetError(message: string)

  /** `mensaje` is truthy: present and not empty. */
  predicate HasMensaje(mensaje: Option<string>) {
    mensaje.Some? && mensaje.value != ""
  }

  /** `mensaje || fallback`. */
  function MessageOr(mensaje: Option<string>, fallback: string): (r: string)
    ensures HasMensaje(mensaje) ==> r == mensaje.value
    ensures !HasMensaje(mensaje) ==> r == fallback
  {
    if HasMensaje(mensaje) then mensaje.value else fallback
  }

  /** The `switch` on `estado`; it has no default, so any other value calls nothing. */
  function CallFor(estado: string, mensaje: Option<string>): (r: Option<StatusCall>)
    ensures r.Some? <==> estado in EstadoChoices
  {
    match estado
    case "online" => Some(SetOnline)
    case "offline" => Some(SetOffline)
    case "maintenance" => Some(SetMaintenance(MessageOr(mensaje, MaintenanceDefault)))
    case "restarting" => Some(SetRestarting)
    case "error" => Some(SetError(MessageOr(mensaje, ErrorDefault)))
    case _ => None
  }

  /** The `updateStatus` arguments each wrapper passes. */
  function Request(call: StatusCall): (BotStatus.Status, Option<string>) {
    match call
    case SetOnline => (BotStatus.Online, None)
    case SetOffline => (BotStatus.Offline, None)
    case SetMaintenance(m) => (BotStatus.Maintenance, Some(m))
    case SetRestarting => (BotStatus.Restarting, Some(BotStatus.RestartingNotice))
    case SetError(m) => (BotStatus.Error, Some(m))
  }

  /**
   * Each choice sets the status it names. MAINTENANCE and ERROR always carry
   * a non-empty message (the user's, else a fixed default), so their embed
   * always has the message field; ONLINE, OFFLINE and RESTARTING ignore
   * `mensaje`.
   */
  lemma ChoiceSetsNamedStatus(estado: string, mensaje: Option<string>)
    requires estado in EstadoChoices
    ensures BotStatus.EnumValue(Request(CallFor(estado, mensaje).value).0) == estado
    ensures estado in {"online", "offline", "restarting"} ==> CallFor(estado, mensaje) == CallFor(estado, None)
    ensures estado in {"maintenance", "error"} ==> BotStatus.HasCustomMessage(Request(CallFor(estado, mensaje).value).1)
    ensures estado in {"maintenance", "error"} && HasMensaje(mensaje) ==>
      Request(CallFor(estado, mensaje).value).1 == mensaje
  {
  }

  /** `✅ Estado cambiado a: **estado**`, plus the message line when `mensaje` is truthy. */
  function SuccessReply(estado: string, mensaje: Option<string>): string {
    "✅ Estado cambiado a: **" + estado + "**" + (if HasMensaje(mensaje) then "\n📝 Mensaje: " + mensaje.value else "")
  }

  /** Which of the command's Discord requests throws, if any. */
  datatype FailPoint = NoFailure | DeferFails | EditFails

  /**
   * What an execution does: the manager call made, the text the deferred
   * reply is edited to (none when nothing was deferred), whether
   * `commandExecuted` is logged, and how `execute` ends for the command handler.
   */
  datatype Outcome = Outcome(call: Option<StatusCall>, reply: Option<string>, logged: bool,
                             handler: CommandHandler.HandlerOutcome)

  /**
   * `execute`. A failing `deferReply` leaves nothing to edit, so the catch's
   * own `editReply` throws too and the exception leaves `execute`.
   */
  function Execute(estado: string, mensaje: Option<string>, failure: FailPoint): Outcome {
    if failure == DeferFails then Outcome(None, None, false, CommandHandler.Throws(false, false))
    else if failure == EditFails then Outcome(CallFor(estado, mensaje), Some(ErrorReply), false, CommandHandler.Completes)
    else Outcome(CallFor(estado, mensaje), Some(SuccessReply(estado, mensaje)), true, CommandHandler.Completes)
  }

  /**
   * With the Discord requests working, every `estado`, recognised or not,
   * gets the success reply echoing it, and the reply carries the message
   * line exactly when `mensaje` is truthy, even for statuses that ignore
   * it; a failing `editReply` gives the error reply; a failing `deferReply`
   * edits nothing and throws out of `execute` without having replied or deferred.
   */
  lemma ExecuteOutcome(estado: string, mensaje: Option<string>, failure: FailPoint)
    ensures var o := Execute(estado, mensaje, failure);
            && (o.call.Some? <==> estado in EstadoChoices && failure != DeferFails)
            && (o.call.Some? ==> o.call == CallFor(estado, mensaje))
            && (o.logged <==> failure == NoFailure)
            && (failure == NoFailure && HasMensaje(mensaje) ==>
                  o.reply == Some("✅ Estado cambiado a: **" + estado + "**" + "\n📝 Mensaje: " + mensaje.value))
            && (failure == NoFailure && !HasMensaje(mensaje) ==> o.reply == Some("✅ Estado cambiado a: **" + estado + "**"))
            && (failure == NoFailure ==> StartsWith(o.reply.value, "✅ Estado cambiado a: **" + estado + "**"))
            && (failure == EditFails ==> o.reply == Some(ErrorReply))
            && (o.reply.None? <==> failure == DeferFails)
            && (o.handler.Throws? <==> failure == DeferFails)
            && (o.handler.Throws? ==> !o.handler.replied && !o.handler.deferred)
  {
    var head := "✅ Estado cambiado a: **" + estado + "**";
    if failure == NoFailure {
      var o := Execute(estado, mensaje, failure);
      if HasMensaje(mensaje) {
        assert head + ("\n📝 Mensaje: " + mensaje.value) == head + "\n📝 Mensaje: " + mensaje.value;
      } else {
        assert head + "" == head;
      }
      assert o.reply.value[..|head|] == head;
    }
  }

  /**
   * Only a failing `deferReply` reaches the command handler, which, seeing
   * no response yet, answers with its generic error as a fresh ephemeral reply.
   */
  lemma DeferFailureReachesHandler(estado: string, mensaje: Option<string>, failure: FailPoint)
    ensures CommandHandler.RunHandler(Execute(estado, mensaje, failure).handler) ==
      if failure == DeferFails then CommandHandler.Failed(CommandHandler.Reply(CommandHandler.GenericFailure, true))
      else CommandHandler.Completed
  {
  }

  /** The loader accepts the command, and the handler gates it with a 10-second cooldown. */
  lemma DefinitionIsGated()
    ensures CommandHandler.IsValidCommand(Definition)
    ensures CommandHandler.NameOf(Definition) == "status" && Definition.data.value.adminOnly
    ensures CommandHandler.HasCooldown(Definition) && CommandHandler.CooldownMillis(Definition) == 10000
  {
  }
}
