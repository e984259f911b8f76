/**
 * The `/changelog` slash command: the `tipo` option picks one changelog
 * manager call, and the deferred reply is edited to say what was sent.
 * The manager's own failures never reach the command. A failing
 * `editReply` after a successful `deferReply` is caught and answered with
 * the error text; a failing `deferReply` leaves nothing to edit, so the
 * catch's own `editReply` throws too and the exception reaches the
 * command handler.
 */
module ChangelogCommand {
  import opened Wrappers
  import CommandHandler
  import ChangelogManager

  /** The command as the loader sees it: named `changelog`, administrators only, a 10-second cooldown. */
  const Definition: CommandHandler.CommandModule :=
    CommandHandler.CommandModule(Some(CommandHandler.CommandData("changelog", true)), true, Some(10))

  /** The values the required `tipo` option offers. */
  const TipoChoices: seq<string> := ["last", "history", "weekly", "release"]

  const LastReply: string := "✅ Changelog del último commit enviado exitosamente."
  const HistoryReply: string := "✅ Changelog con historial de 5 commits enviado exitosamente."
  const WeeklyReply: string := "✅ Changelog semanal enviado exitosamente."
  const ReleaseReply: string := "✅ Changelog de release enviado exitosamente."
  const UnknownReply: string := "❌ Tipo de changelog no reconocido."
  const ErrorReply: string := "❌ Hubo un error al enviar el changelog."

  /** Which of the command's Discord requests throws, if any. */
  datatype FailPoint = NoFailure | DeferFails | EditFails

  /**
   * What an execution does: the manager call made, the text the deferred
   * reply is edited to (none when nothing was deferred), whether
   * `commandExecuted` is logged, and how `execute` ends for the command handler.
   */
  datatype Outcome = Outcome(call: Option<ChangelogManager.ChangelogCall>, reply: Option<string>, logged: bool,
                             handler: CommandHandler.HandlerOutcome)

  /** The `switch` on `tipo`. */
  function CallFor(tipo: string): (r: Option<ChangelogManager.ChangelogCall>)
    ensures r.Some? <==> tipo in TipoChoices
  {
    match tipo
    case "last" => Some(ChangelogManager.SendLastCommit)
    case "history" => Some(ChangelogManager.SendHistory(5))
    case "weekly" => Some(ChangelogManager.SendWeekly)
    case "release" => Some(ChangelogManager.SendRelease)
    case _ => None
  }

  /** What each choice sends: the last commit, or 5, 10 or 20 commits. */
  lemma ChoiceContents()
    ensures ChangelogManager.ContentOf(CallFor("last").value) == ChangelogManager.LastCommitContent
    ensures ChangelogManager.ContentOf(CallFor("history").value) == ChangelogManager.HistoryContent(5)
    ensures ChangelogManager.ContentOf(CallFor("weekly").value) == ChangelogManager.HistoryContent(10)
    ensures ChangelogManager.ContentOf(CallFor("release").value) == ChangelogManager.HistoryContent(20)
  {
  }

  function SuccessReply(call: ChangelogManager.ChangelogCall): string {
    match call
    case SendHistory(_) => HistoryReply
    case SendWeekly => WeeklyReply
    case SendRelease => ReleaseReply
    case _ => LastReply
  }

  /** `execute`. */
  function Execute(tipo: string, failure: FailPoint): Outcome {
    if failure == DeferFails then Outcome(None, None, false, CommandHandler.Throws(false, false))
    else match CallFor(tipo)
      case None => Outcome(None, Some(if failure == EditFails then ErrorReply else UnknownReply), false, CommandHandler.Completes)
      case Some(call) =>
        if failure == EditFails then Outcome(Some(call), Some(ErrorReply), false, CommandHandler.Completes)
        else Outcome(Some(call), Some(SuccessReply(call)), true, CommandHandler.Completes)
  }

  /**
   * A recognised `tipo` makes its manager call and, with the Discord
   * requests working, always gets the reply naming what was sent and the
   * log line; an unrecognised one makes no call, gets the "not recognised"
   * reply and returns before the log line; a failing `editReply` ends in
   * the error reply; a failing `deferReply` edits nothing and throws out
   * of `execute` without having replied or deferred.
   */
  lemma ExecuteOutcome(tipo: string, failure: FailPoint)
    ensures var o := Execute(tipo, failure);
            && (o.call.Some? <==> tipo in TipoChoices && failure != DeferFails)
            && (o.call.Some? ==> o.call == CallFor(tipo))
            && (o.logged <==> tipo in TipoChoices && failure == NoFailure)
            && (tipo == "last" && failure == NoFailure ==> o.reply == Some(LastReply))
            && (tipo == "history" && failure == NoFailure ==> o.reply == Some(HistoryReply))
            && (tipo == "weekly" && failure == NoFailure ==> o.reply == Some(WeeklyReply))
            && (tipo == "release" && failure == NoFailure ==> o.reply == Some(ReleaseReply))
            && (failure == NoFailure && tipo !in TipoChoices ==> o.reply == Some(UnknownReply))
            && (failure == EditFails ==> o.reply == Some(ErrorReply))
            && (o.reply.None? <==> failure == DeferFails)
            && (o.handler.Throws? <==> failure == DeferFails)
            && (o.handler.Throws? ==> !o.handler.replied && !o.handler.deferred)
  {
  }

  /**
   * Only a failing `deferReply` reaches the command handler, which, seeing
   * no response yet, answers with its generic error as a fresh ephemeral reply.
   */
  lemma DeferFailureReachesHandler(tipo: string, failure: FailPoint)
    ensures CommandHandler.RunHandler(Execute(tipo, failure).handler) ==
      if failure == DeferFails then CommandHandler.Failed(CommandHandler.Reply(CommandHandler.GenericFailure, true))
      else CommandHandler.Completed
  {
  }

  /** The loader accepts the command, and the handler gates it with a 10-second cooldown. */
  lemma DefinitionIsGated()
    ensures CommandHandler.IsValidCommand(Definition)
    ensures CommandHandler.NameOf(Definition) == "changelog" && Definition.data.value.adminOnly
    ensures CommandHandler.HasCooldown(Definition) && CommandHandler.CooldownMillis(Definition) == 10000
  {
  }
}
