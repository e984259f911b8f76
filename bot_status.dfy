/**
 * `BotStatusManager`: the status embed the bot keeps in one channel, the
 * uptime rendering, the status table, and the find-or-create that edits
 * the bot's last status message instead of posting a new one each time.
 *
 * The process figures the embed shows (uptime, guild, user and command
 * counts, heap size in whole megabytes) arrive as a `Snapshot`; the ids
 * Discord assigns to new messages arrive as inputs.
 */
module BotStatus {
  import opened Wrappers
  import opened Text
  import opened Embeds

  /** The `BotStatus` enum. */
  datatype Status = Online | Offline | Maintenance | Restarting | Error

  /** The string each enum member stands for. */
  function EnumValue(status: Status): string {
    match status
    case Online => "online"
    case Offline => "offline"
    case Maintenance => "maintenance"
    case Restarting => "restarting"
    case Error => "error"
  }

  /** Distinct members stand for distinct strings. */
  lemma EnumValueInjective(s: Status, t: Status)
    ensures EnumValue(s) == EnumValue(t) <==> s == t
  {
  }

  datatype StatusConfig = StatusConfig(name: string, color: nat)

  /** `getStatusConfig`; its `default` branch is unreachable, every enum member having a case. */
  function StatusConfigOf(status: Status): StatusConfig {
    match status
    case Online => StatusConfig("🟢 Online", 0x00ff00)
    case Offline => StatusConfig("🔴 Offline", 0xff0000)
    case Maintenance => StatusConfig("🟡 Mantenimiento", 0xffff00)
    case Restarting => StatusConfig("🔄 Reiniciando", 0x0099ff)
    case Error => StatusConfig("❌ Error", 0xff0000)
  }

  /**
   * Every status has its own label, and only OFFLINE and ERROR share a
   * colour (red, `0xff0000`).
   */
  lemma StatusConfigTable(s: Status, t: Status)
    ensures StatusConfigOf(s).name == StatusConfigOf(t).name <==> s == t
    ensures StatusConfigOf(s).color == StatusConfigOf(t).color <==> s == t || ({s, t} == {Offline, Error})
    ensures StatusConfigOf(s).color == 0xff0000 <==> s == Offline || s == Error
  {
  }

  // ---------------------------------------------------------------------------
  // Uptime
  // ---------------------------------------------------------------------------

  datatype Uptime = Uptime(days: nat, hours: nat, minutes: nat, secs: nat)

  /** The floored unit conversion at the head of `formatUptime`. */
  function UptimeParts(seconds: nat): (u: Uptime)
    ensures u.days * 86400 + u.hours * 3600 + u.minutes * 60 + u.secs == seconds
    ensures u.hours < 24 && u.minutes < 60 && u.secs < 60
  {
    UnitSplit(seconds);
    Uptime(seconds / 86400, (seconds % 86400) / 3600, (seconds % 3600) / 60, seconds % 60)
  }

  /** Days, then hours of the rest, then minutes of the rest: each remainder is the next unit's input. */
  lemma UnitSplit(seconds: nat)
    ensures (seconds / 86400) * 86400 + ((seconds % 86400) / 3600) * 3600
            + ((seconds % 3600) / 60) * 60 + seconds % 60 == seconds
    ensures (seconds % 86400) / 3600 < 24 && (seconds % 3600) / 60 < 60
  {
    var d, r := seconds / 86400, seconds % 86400;
    var h, r2 := r / 3600, r % 3600;
    var m, s := r2 / 60, r2 % 60;
    assert seconds == (d * 24 + h) * 3600 + r2;
    SplitAt(d * 24 + h, r2, 3600);
    assert seconds == ((d * 24 + h) * 60 + m) * 60 + s;
    SplitAt((d * 24 + h) * 60 + m, s, 60);
  }

  /** Division by a unit recovers the count of whole units and the remainder. */
  lemma SplitAt(q: nat, r: nat, unit: nat)
    requires unit == 3600 || unit == 60
    requires r < unit
    ensures (q * unit + r) / unit == q && (q * unit + r) % unit == r
  {
  }

  /** The conversion is the only split of `seconds` into days and bounded hours, minutes and seconds. */
  lemma UptimePartsUnique(seconds: nat, u: Uptime)
    requires u.days * 86400 + u.hours * 3600 + u.minutes * 60 + u.secs == seconds
    requires u.hours < 24 && u.minutes < 60 && u.secs < 60
    ensures UptimeParts(seconds) == u
  {
    var v := UptimeParts(seconds);
    assert v.days == u.days;
    assert v.hours == u.hours;
    assert v.minutes == u.minutes;
  }

  /** `formatUptime`: the first non-zero unit, checked in the order days, hours, minutes, picks the form. */
  function FormatUptime(seconds: nat): string {
    var u := UptimeParts(seconds);
    if u.days > 0 then NatToString(u.days) + "d " + NatToString(u.hours) + "h " + NatToString(u.minutes) + "m"
    else if u.hours > 0 then NatToString(u.hours) + "h " + NatToString(u.minutes) + "m " + NatToString(u.secs) + "s"
    else if u.minutes > 0 then NatToString(u.minutes) + "m " + NatToString(u.secs) + "s"
    else NatToString(u.secs) + "s"
  }

  /**
   * Under a minute only the seconds are shown; from a minute to an hour,
   * minutes and seconds; from an hour to a day, hours, minutes and seconds;
   * from a day on, days, hours and minutes, the seconds dropped, so all
   * instants of one minute read alike.
   */
  lemma FormatUptimeForms(seconds: nat)
    ensures seconds < 60 ==> FormatUptime(seconds) == NatToString(seconds) + "s"
    ensures 60 <= seconds < 3600 ==>
      FormatUptime(seconds) == NatToString(seconds / 60) + "m " + NatToString(seconds % 60) + "s"
    ensures 3600 <= seconds < 86400 ==>
      FormatUptime(seconds) == NatToString(seconds / 3600) + "h " + NatToString(seconds % 3600 / 60) + "m " + NatToString(seconds % 60) + "s"
    ensures seconds >= 86400 ==>
      FormatUptime(seconds) == NatToString(seconds / 86400) + "d " + NatToString(seconds % 86400 / 3600) + "h " + NatToString(seconds % 3600 / 60) + "m"
    ensures seconds >= 86400 ==> FormatUptime(seconds) == FormatUptime(seconds - seconds % 60)
  {
    if 60 <= seconds < 3600 {
      UptimePartsUnique(seconds, Uptime(0, 0, seconds / 60, seconds % 60));
    } else if 3600 <= seconds < 86400 {
      HoursForm(seconds);
    } else if seconds >= 86400 {
      DaysFormDropsSeconds(seconds);
    }
  }

  lemma HoursForm(seconds: nat)
    requires 3600 <= seconds < 86400
    ensures UptimeParts(seconds) == Uptime(0, seconds / 3600, seconds % 3600 / 60, seconds % 60)
  {
    UnitSplit(seconds);
    UptimePartsUnique(seconds, Uptime(0, seconds / 3600, seconds % 3600 / 60, seconds % 60));
  }

  lemma DaysFormDropsSeconds(seconds: nat)
    requires seconds >= 86400
    ensures FormatUptime(seconds) == FormatUptime(seconds - seconds % 60)
  {
    var u := UptimeParts(seconds);
    UptimePartsUnique(seconds - seconds % 60, Uptime(u.days, u.hours, u.minutes, 0));
  }

  /** The leading number of a rendering under a day, the unit letter after it, and what follows. */
  function Lead(u: Uptime): nat {
    if u.hours > 0 then u.hours else if u.minutes > 0 then u.minutes else u.secs
  }

  function UnitLetter(u: Uptime): char {
    if u.hours > 0 then 'h' else if u.minutes > 0 then 'm' else 's'
  }

  function MinutesSeconds(minutes: nat, secs: nat): string {
    NatToString(minutes) + "m " + NatToString(secs) + "s"
  }

  function AfterLetter(u: Uptime): string {
    if u.hours > 0 then " " + MinutesSeconds(u.minutes, u.secs)
    else if u.minutes > 0 then " " + NatToString(u.secs) + "s"
    else ""
  }

  lemma BelowDayShape(seconds: nat)
    requires seconds < 86400
    ensures var u := UptimeParts(seconds);
            FormatUptime(seconds) == NatToString(Lead(u)) + ([UnitLetter(u)] + AfterLetter(u))
  {
    var u := UptimeParts(seconds);
    var h, m, s := NatToString(u.hours), NatToString(u.minutes), NatToString(u.secs);
    if u.hours > 0 {
      assert h + "h " + m + "m " + s + "s" == h + (['h'] + (" " + (m + "m " + s + "s")));
    } else if u.minutes > 0 {
      assert m + "m " + s + "s" == m + (['m'] + (" " + s + "s"));
    } else {
      assert s + "s" == s + (['s'] + "");
    }
  }

  /** Below a day the rendering loses nothing: different uptimes read differently. */
  lemma FormatUptimeInjectiveBelowDay(a: nat, b: nat)
    requires a < 86400 && b < 86400
    requires FormatUptime(a) == FormatUptime(b)
    ensures a == b
  {
    var ua, ub := UptimeParts(a), UptimeParts(b);
    BelowDayShape(a);
    BelowDayShape(b);
    NumberThenText(Lead(ua), [UnitLetter(ua)] + AfterLetter(ua), Lead(ub), [UnitLetter(ub)] + AfterLetter(ub));
    assert UnitLetter(ua) == UnitLetter(ub) by {
      assert ([UnitLetter(ua)] + AfterLetter(ua))[0] == UnitLetter(ua);
      assert ([UnitLetter(ub)] + AfterLetter(ub))[0] == UnitLetter(ub);
    }
    assert AfterLetter(ua) == AfterLetter(ub) by {
      assert AfterLetter(ua) == ([UnitLetter(ua)] + AfterLetter(ua))[1..];
      assert AfterLetter(ub) == ([UnitLetter(ub)] + AfterLetter(ub))[1..];
    }
    SameFormSameParts(ua, ub);
  }

  /** Two renderings under a day with the same unit letter and the same tail come from the same split. */
  lemma SameFormSameParts(ua: Uptime, ub: Uptime)
    requires UnitLetter(ua) == UnitLetter(ub) && AfterLetter(ua) == AfterLetter(ub) && Lead(ua) == Lead(ub)
    requires ua.days == 0 && ub.days == 0
    ensures ua == ub
  {
    if ua.hours > 0 {
      assert MinutesSeconds(ua.minutes, ua.secs) == AfterLetter(ua)[1..];
      assert MinutesSeconds(ub.minutes, ub.secs) == AfterLetter(ub)[1..];
      MinutesSecondsInjective(ua.minutes, ua.secs, ub.minutes, ub.secs);
    } else if ua.minutes > 0 {
      assert NatToString(ua.secs) + "s" == AfterLetter(ua)[1..];
      assert NatToString(ub.secs) + "s" == AfterLetter(ub)[1..];
      NumberThenText(ua.secs, "s", ub.secs, "s");
    }
  }

  lemma MinutesSecondsInjective(m1: nat, s1: nat, m2: nat, s2: nat)
    requires MinutesSeconds(m1, s1) == MinutesSeconds(m2, s2)
    ensures m1 == m2 && s1 == s2
  {
    var t1, t2 := NatToString(s1) + "s", NatToString(s2) + "s";
    assert MinutesSeconds(m1, s1) == NatToString(m1) + ("m " + t1);
    assert MinutesSeconds(m2, s2) == NatToString(m2) + ("m " + t2);
    NumberThenText(m1, "m " + t1, m2, "m " + t2);
    assert t1 == ("m " + t1)[2..];
    assert t2 == ("m " + t2)[2..];
    NumberThenText(s1, "s", s2, "s");
  }

  // ---------------------------------------------------------------------------
  // The status embed
  // ---------------------------------------------------------------------------

  /** The process and client figures the embed reports. */
  datatype Snapshot = Snapshot(uptimeSeconds: nat, guildCount: nat, userCount: nat, heapMegabytes: nat, commandCount: nat)

  /** `**n** label`, the counter fields' value. */
  function Counter(n: nat, unit: string): string {
    "**" + NatToString(n) + "** " + unit
  }

  /** `customMessage` is truthy: present and not empty. */
  predicate HasCustomMessage(customMessage: Option<string>) {
    customMessage.Some? && customMessage.value != ""
  }

  /** `createStatusEmbed`: six inline fields in a fixed order, then the custom message when there is one. */
  function CreateStatusEmbed(status: Status, customMessage: Option<string>, snap: Snapshot): (e: Embed)
    ensures e.title == Some(StatusTitle) && e.color == StatusConfigOf(status).color
    ensures |e.fields| == (if HasCustomMessage(customMessage) then 7 else 6)
    ensures forall i :: 0 <= i < 6 ==> e.fields[i].inline
    ensures e.fields[0] == Field("🔄 Status", "**" + StatusConfigOf(status).name + "**", true)
    ensures e.fields[1] == Field("⏰ Uptime", FormatUptime(snap.uptimeSeconds), true)
    ensures e.fields[2] == Field("📊 Servidores", Counter(snap.guildCount, "servidores"), true)
    ensures e.fields[3] == Field("👥 Usuarios", Counter(snap.userCount, "usuarios"), true)
    ensures e.fields[4] == Field("💾 Memoria", NatToString(snap.heapMegabytes) + " MB", true)
    ensures e.fields[5] == Field("🔧 Comandos", Counter(snap.commandCount, "comandos"), true)
    ensures HasCustomMessage(customMessage) ==> e.fields[6] == Field("📝 Mensaje", customMessage.value, false)
  {
    var config := StatusConfigOf(status);
    var fields := [
      Field("🔄 Status", "**" + config.name + "**", true),
      Field("⏰ Uptime", FormatUptime(snap.uptimeSeconds), true),
      Field("📊 Servidores", Counter(snap.guildCount, "servidores"), true),
      Field("👥 Usuarios", Counter(snap.userCount, "usuarios"), true),
      Field("💾 Memoria", NatToString(snap.heapMegabytes) + " MB", true),
      Field("🔧 Comandos", Counter(snap.commandCount, "comandos"), true)
    ];
    var message := if HasCustomMessage(customMessage) then [Field("📝 Mensaje", customMessage.value, false)] else [];
    Embed(Some(StatusTitle), config.color, None, fields + message)
  }

  /** Two embeds with different statuses differ in their status field; the message never changes the first six fields. */
  lemma StatusEmbedDeterminesStatus(s: Status, t: Status, m1: Option<string>, m2: Option<string>, snap: Snapshot)
    ensures CreateStatusEmbed(s, m1, snap).fields[..6] == CreateStatusEmbed(s, m2, snap).fields[..6]
    ensures CreateStatusEmbed(s, m1, snap).fields[0] == CreateStatusEmbed(t, m2, snap).fields[0] <==> s == t
  {
    StatusConfigTable(s, t);
    var e1, e2 := CreateStatusEmbed(s, m1, snap), CreateStatusEmbed(s, m2, snap);
    assert forall i :: 0 <= i < 6 ==> e1.fields[i] == e2.fields[i];
    var n1, n2 := StatusConfigOf(s).name, StatusConfigOf(t).name;
    var w1, w2 := "**" + n1 + "**", "**" + n2 + "**";
    assert w1[2..|n1| + 2] == n1;
    assert w2[2..|n2| + 2] == n2;
  }

  /** The page size `sendOrUpdateStatus` fetches. */
  const StatusSearchLimit: nat := 20

  /** The fixed notice `setRestarting` publishes. */
  const RestartingNotice: string := "El bot se está reiniciando..."

  /**
   * The manager. `statusChannelId` is `process.env.bot_status_id || ''`;
   * `botId` is the id of the logged-in bot user.
   */
  class BotStatusManager {
    const botId: string
    const statusChannelId: string
    var statusMessageId: Option<string>

    constructor (botId: string, statusChannelId: string)
      ensures this.botId == botId && this.statusChannelId == statusChannelId
      ensures statusMessageId == None
    {
      this.botId := botId;
      this.statusChannelId := statusChannelId;
      statusMessageId := None;
    }

    /**
     * `sendOrUpdateStatus`: edit the newest status message among the last
     * 20, else send one; record its id. A failing Discord request
     * (`apiFails`) is caught: nothing changes.
     */
    method SendOrUpdateStatus(channel: TextChannel, embed: Embed, apiFails: bool, newId: string)
      modifies this`statusMessageId, channel
      ensures apiFails ==> statusMessageId == old(statusMessageId) && channel.messages == old(channel.messages)
      ensures !apiFails ==>
        var p := PublishStatus(old(channel.messages), botId, embed, StatusSearchLimit, newId);
        channel.messages == p.history && statusMessageId == Some(p.messageId)
    {
      if apiFails {
        return;
      }
      var found := FindStatusMessage(channel.messages, botId, StatusSearchLimit);
      if found.Some? {
        var statusMessage := channel.messages[found.value];
        channel.messages := channel.messages[found.value := statusMessage.(embeds := [embed])];
        statusMessageId := Some(statusMessage.id);
      } else {
        channel.messages := [Message(newId, botId, [embed])] + channel.messages;
        statusMessageId := Some(newId);
      }
    }

    /**
     * `updateStatus`: with no channel configured, or a channel that cannot
     * be fetched (`channel == null`), nothing happens; otherwise the status
     * embed is published by find-or-create.
     */
    method UpdateStatus(status: Status, customMessage: Option<string>, snap: Snapshot,
                        channel: TextChannel?, apiFails: bool, newId: string)
      modifies this`statusMessageId, channel
      ensures statusChannelId == "" || channel == null || apiFails ==> statusMessageId == old(statusMessageId)
      ensures channel != null && (statusChannelId == "" || apiFails) ==> channel.messages == old(channel.messages)
      ensures statusChannelId != "" && channel != null && !apiFails ==>
        var p := PublishStatus(old(channel.messages), botId, CreateStatusEmbed(status, customMessage, snap), StatusSearchLimit, newId);
        channel.messages == p.history && statusMessageId == Some(p.messageId)
    {
      if statusChannelId == "" {
        return;
      }
      if channel == null {
        return;
      }
      var embed := CreateStatusEmbed(status, customMessage, snap);
      SendOrUpdateStatus(channel, embed, apiFails, newId);
    }

    method SetOnline(snap: Snapshot, channel: TextChannel?, apiFails: bool, newId: string)
      modifies this`statusMessageId, channel
      ensures statusChannelId == "" || channel == null || apiFails ==> statusMessageId == old(statusMessageId)
      ensures channel != null && (statusChannelId == "" || apiFails) ==> channel.messages == old(channel.messages)
      ensures statusChannelId != "" && channel != null && !apiFails ==>
        var p := PublishStatus(old(channel.messages), botId, CreateStatusEmbed(Online, None, snap), StatusSearchLimit, newId);
        channel.messages == p.history && statusMessageId == Some(p.messageId)
    {
      UpdateStatus(Online, None, snap, channel, apiFails, newId);
    }

    method SetOffline(snap: Snapshot, channel: TextChannel?, apiFails: bool, newId: string)
      modifies this`statusMessageId, channel
      ensures statusChannelId == "" || channel == null || apiFails ==> statusMessageId == old(statusMessageId)
      ensures channel != null && (statusChannelId == "" || apiFails) ==> channel.messages == old(channel.messages)
      ensures statusChannelId != "" && channel != null && !apiFails ==>
        var p := PublishStatus(old(channel.messages), botId, CreateStatusEmbed(Offline, None, snap), StatusSearchLimit, newId);
        channel.messages == p.history && statusMessageId == Some(p.messageId)
    {
      UpdateStatus(Offline, None, snap, channel, apiFails, newId);
    }

    method SetMaintenance(message: string, snap: Snapshot, channel: TextChannel?, apiFails: bool, newId: string)
      modifies this`statusMessageId, channel
      ensures statusChannelId == "" || channel == null || apiFails ==> statusMessageId == old(statusMessageId)
      ensures channel != null && (statusChannelId == "" || apiFails) ==> channel.messages == old(channel.messages)
      ensures statusChannelId != "" && channel != null && !apiFails ==>
        var p := PublishStatus(old(channel.messages), botId, CreateStatusEmbed(Maintenance, Some(message), snap), StatusSearchLimit, newId);
        channel.messages == p.history && statusMessageId == Some(p.messageId)
    {
      UpdateStatus(Maintenance, Some(message), snap, channel, apiFails, newId);
    }

    method SetRestarting(snap: Snapshot, channel: TextChannel?, apiFails: bool, newId: string)
      modifies this`statusMessageId, channel
      ensures statusChannelId == "" || channel == null || apiFails ==> statusMessageId == old(statusMessageId)
      ensures channel != null && (statusChannelId == "" || apiFails) ==> channel.messages == old(channel.messages)
      ensures statusChannelId != "" && channel != null && !apiFails ==>
        var p := PublishStatus(old(channel.messages), botId, CreateStatusEmbed(Restarting, Some(RestartingNotice), snap), StatusSearchLimit, newId);
        channel.messages == p.history && statusMessageId == Some(p.messageId)
    {
      UpdateStatus(Restarting, Some(RestartingNotice), snap, channel, apiFails, newId);
    }

    method SetError(message: string, snap: Snapshot, channel: TextChannel?, apiFails: bool, newId: string)
      modifies this`statusMessageId, channel
      ensures statusChannelId == "" || channel == null || apiFails ==> statusMessageId == old(statusMessageId)
      ensures channel != null && (statusChannelId == "" || apiFails) ==> channel.messages == old(channel.messages)
      ensures statusChannelId != "" && channel != null && !apiFails ==>
        var p := PublishStatus(old(channel.messages), botId, CreateStatusEmbed(Error, Some(message), snap), StatusSearchLimit, newId);
        channel.messages == p.history && statusMessageId == Some(p.messageId)
    {
      UpdateStatus(Error, Some(message), snap, channel, apiFails, newId);
    }
  }

  /**
   * What the wrappers publish: ONLINE and OFFLINE carry no message field,
   * RESTARTING always carries the fixed notice, and MAINTENANCE and ERROR
   * carry theirs exactly when it is not empty.
   */
  lemma WrapperEmbeds(message: string, snap: Snapshot)
    ensures |CreateStatusEmbed(Online, None, snap).fields| == 6
    ensures |CreateStatusEmbed(Offline, None, snap).fields| == 6
    ensures CreateStatusEmbed(Restarting, Some(RestartingNotice), snap).fields[6].value == RestartingNotice
    ensures |CreateStatusEmbed(Maintenance, Some(message), snap).fields| == 7 <==> message != ""
    ensures |CreateStatusEmbed(Error, Some(message), snap).fields| == 7 <==> message != ""
  {
  }

  /**
   * The recorded id always names the status message the next update will
   * find and edit, so repeated updates keep a single status message.
   */
  lemma RecordedIdIsFound(history: seq<Message>, botId: string, status: Status, customMessage: Option<string>,
                          snap: Snapshot, newId: string)
    ensures var p := PublishStatus(history, botId, CreateStatusEmbed(status, customMessage, snap), StatusSearchLimit, newId);
            var f := FindStatusMessage(p.history, botId, StatusSearchLimit);
            f.Some? && p.history[f.value].id == p.messageId
  {
    PublishedIsFound(history, botId, CreateStatusEmbed(status, customMessage, snap), StatusSearchLimit, newId);
  }
}
