/**
 * The `statusUpdate` event: on every client-ready event, publish a fixed
 * "Online" status embed to the status channel by find-or-create over the
 * last 10 messages. It keeps no state of its own and has its own copy of
 * the uptime rendering.
 */
module StatusUpdate {
  import opened Wrappers
  import opened Text
  import opened Embeds
  import BotStatus
  import EventHandler

  /** The module-level `formatUptime`, a copy of the manager's. */
  function FormatUptime(seconds: nat): string {
    var days := seconds / 86400;
    var hours := (seconds % 86400) / 3600;
    var minutes := (seconds % 3600) / 60;
    var secs := seconds % 60;
    if days > 0 then NatToString(days) + "d " + NatToString(hours) + "h " + NatToString(minutes) + "m"
    else if hours > 0 then NatToString(hours) + "h " + NatToString(minutes) + "m " + NatToString(secs) + "s"
    else if minutes > 0 then NatToString(minutes) + "m " + NatToString(secs) + "s"
    else NatToString(secs) + "s"
  }

  /** The two copies agree on every input. */
  lemma FormatUptimeAgrees(seconds: nat)
    ensures FormatUptime(seconds) == BotStatus.FormatUptime(seconds)
  {
  }

  /** The embed the event publishes: always green, always "Online", six inline fields. */
  function OnlineEmbed(snap: BotStatus.Snapshot): (e: Embed)
    ensures e.title == Some(StatusTitle) && e.color == 0x00ff00
    ensures |e.fields| == 6 && forall i :: 0 <= i < 6 ==> e.fields[i].inline
    ensures e.fields[0] == Field("🟢 Status", "**Online**", true)
  {
    Embed(Some(StatusTitle), 0x00ff00, None, [
      Field("🟢 Status", "**Online**", true),
      Field("⏰ Uptime", FormatUptime(snap.uptimeSeconds), true),
      Field("📊 Servidores", BotStatus.Counter(snap.guildCount, "servidores"), true),
      Field("👥 Usuarios", BotStatus.Counter(snap.userCount, "usuarios"), true),
      Field("💾 Memoria", NatToString(snap.heapMegabytes) + " MB", true),
      Field("🔧 Comandos", BotStatus.Counter(snap.commandCount, "comandos"), true)
    ])
  }

  /**
   * The event's embed is the manager's ONLINE embed without a message,
   * except for the status field: same title, colour and figures, but the
   * label `**Online**` under `🟢 Status` instead of `**🟢 Online**` under
   * `🔄 Status`.
   */
  lemma OnlineEmbedMatchesManager(snap: BotStatus.Snapshot)
    ensures var e, m := OnlineEmbed(snap), BotStatus.CreateStatusEmbed(BotStatus.Online, None, snap);
            e.title == m.title && e.color == m.color && e.fields[1..] == m.fields[1..] && e.fields[0] != m.fields[0]
  {
    FormatUptimeAgrees(snap.uptimeSeconds);
    var e, m := OnlineEmbed(snap), BotStatus.CreateStatusEmbed(BotStatus.Online, None, snap);
    assert forall i :: 1 <= i < 6 ==> e.fields[i] == m.fields[i];
    assert e.fields[0].value != m.fields[0].value by {
      assert |e.fields[0].value| != |m.fields[0].value|;
    }
  }

  /** The page size `updateStatusMessage` fetches. */
  const StatusSearchLimit: nat := 10

  /**
   * `updateStatusMessage`: edit the newest status message among the last
   * 10, else send one. A failing Discord request (`apiFails`) is caught and
   * changes nothing.
   */
  method UpdateStatusMessage(channel: TextChannel, embed: Embed, botId: string, apiFails: bool, newId: string)
    modifies channel
    ensures apiFails ==> channel.messages == old(channel.messages)
    ensures !apiFails ==> channel.messages == PublishStatus(old(channel.messages), botId, embed, StatusSearchLimit, newId).history
  {
    if apiFails {
      return;
    }
    var found := FindStatusMessage(channel.messages, botId, StatusSearchLimit);
    if found.Some? {
      channel.messages := channel.messages[found.value := channel.messages[found.value].(embeds := [embed])];
    } else {
      channel.messages := [Message(newId, botId, [embed])] + channel.messages;
    }
  }

  /**
   * `execute`: with no channel configured (`bot_status_id` unset or empty)
   * or none fetched (`channel == null`), nothing happens; otherwise the
   * Online embed is published.
   */
  method Execute(statusChannelId: string, channel: TextChannel?, snap: BotStatus.Snapshot, botId: string,
                 apiFails: bool, newId: string)
    modifies channel
    ensures channel != null && (statusChannelId == "" || apiFails) ==> channel.messages == old(channel.messages)
    ensures channel != null && statusChannelId != "" && !apiFails ==>
      channel.messages == PublishStatus(old(channel.messages), botId, OnlineEmbed(snap), StatusSearchLimit, newId).history
  {
    if statusChannelId == "" {
      return;
    }
    if channel == null {
      return;
    }
    var statusEmbed := OnlineEmbed(snap);
    UpdateStatusMessage(channel, statusEmbed, botId, apiFails, newId);
  }

  /** The default export: named after the library's client-ready event, `once: false`, with an `execute`. */
  function Definition(clientReady: string): EventHandler.EventDef {
    EventHandler.EventDef(Some(clientReady), Some(false), true)
  }

  /** Loaded from its file, the event is subscribed with `on`, so it runs on every client-ready event. */
  lemma SubscribedOnEveryReady(clientReady: string)
    ensures EventHandler.Subscriptions([EventHandler.EventFile("statusUpdate.ts", Definition(clientReady))])
      == [EventHandler.Subscription(clientReady, EventHandler.On)]
  {
    var f := EventHandler.EventFile("statusUpdate.ts", Definition(clientReady));
    EventHandler.SingleFile(f);
    assert EndsWith(f.fileName, ".ts") by {
      assert f.fileName[|f.fileName| - 3..] == ".ts";
    }
  }
}
