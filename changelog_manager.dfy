/**
 * `ChangelogManager`: posts a changelog embed (the last commit, or a list
 * of recent commits) to the changelog channel, reading commits through
 * `GitInfo`. Errors never reach the caller; a send that cannot happen only
 * logs, which the model leaves out.
 *
 * The `<t:…>` tags need a date's epoch seconds. Date parsing is the
 * platform's: it arrives as a `DateTable` of the date strings `new Date`
 * understands, with their epoch seconds; any other string gives `NaN`.
 */
module ChangelogManager {
  import opened Wrappers
  import opened Text
  import opened Embeds
  import opened GitInfo

  /** The colour of every changelog embed ("Discord blue"). */
  const ChangelogColor: nat := 0x5865f2

  const LastCommitTitle: string := "📝 Changelog - Último Commit"
  const HistoryTitle: string := "📝 Changelog - Historial de Commits"

  /** The largest number of commit fields a history embed carries. */
  const MaxCommitFields: nat := 20

  /** `sendCommitHistoryChangelog`'s default limit, and the limits of the weekly and release wrappers. */
  const WeeklyLimit: nat := 10
  const ReleaseLimit: nat := 20

  /** `remoteUrl` is truthy: present and not empty. */
  predicate HasRemote(repo: RepoInfo) {
    repo.remoteUrl.Some? && repo.remoteUrl.value != ""
  }

  /** The web link as written: `remoteUrl.replace('.git', '')`, which drops the FIRST `.git` wherever it is. */
  function RepoLinkAsWritten(url: string): string {
    ReplaceFirst(url, ".git", "")
  }

  /**
   * A remote whose repository name contains `.git` (a `<user>.github.io`
   * pages repository) loses the `.git` of `.github` instead of the suffix:
   * `…/u.github.io.git` becomes `…/uhub.io.git`.
   */
  lemma AsWrittenManglesPagesRepo(p: string)
    requires !Contains(p, ".git")
    ensures RepoLinkAsWritten(p + ".github.io.git") == p + "hub.io.git"
    ensures RepoLink(p + ".github.io.git") == p + ".github.io"
  {
    assert ".git" + "hub.io.git" == ".github.io.git";
    AppendAssoc(p, ".git", "hub.io.git");
    ReplaceAfterPrefix(p, "hub.io.git");
    assert ".github.io" + ".git" == ".github.io.git";
    AppendAssoc(p, ".github.io", ".git");
    RepoLinkStripsSuffix(p + ".github.io");
  }

  /**
   * On a remote with no `.git` before its end, the link as written and the
   * corrected one agree: the URL without its `.git` suffix, or the URL itself.
   */
  lemma AsWrittenAgreesOnPlainRemotes(p: string)
    requires !Contains(p, ".git")
    ensures RepoLinkAsWritten(p + ".git") == RepoLink(p + ".git") == p
    ensures RepoLinkAsWritten(p) == RepoLink(p) == p
  {
    ReplaceAfterPrefix(p, "");
    assert p + ".git" + "" == p + ".git";
    RepoLinkStripsSuffix(p);
    if EndsWith(p, ".git") {
      assert OccursAt(p, ".git", |p| - 4);
    }
  }

  /** Concatenation regroups; stated on variables so literals need not be compared character by character. */
  lemma AppendAssoc(a: string, b: string, c: string)
    ensures a + (b + c) == a + b + c
  {
  }

  /** Replacing the first `.git` of `p + ".git" + t`, with none inside `p`, gives `p + t`. */
  lemma ReplaceAfterPrefix(p: string, t: string)
    requires !Contains(p, ".git")
    ensures RepoLinkAsWritten(p + ".git" + t) == p + t
  {
    var s := p + ".git" + t;
    GitFirstAfter(p, t);
    assert s[..|p|] == p;
    assert s[|p| + 4..] == t;
  }

  /** In `p + ".git" + t`, with no `.git` inside `p`, the first `.git` is the one right after `p`. */
  lemma GitFirstAfter(p: string, t: string)
    requires !Contains(p, ".git")
    ensures IndexOf(p + ".git" + t, ".git") == Some(|p|)
  {
    var s := p + ".git" + t;
    assert OccursAt(s, ".git", |p|) by {
      assert s[|p|..|p| + 4] == ".git";
    }
    forall j | 0 <= j < |p|
      ensures !OccursAt(s, ".git", j)
    {
      if j + 4 <= |p| {
        assert s[j..j + 4] == p[j..j + 4];
        assert !OccursAt(p, ".git", j);
      } else {
        assert s[|p|] == '.';
        assert s[j..j + 4][|p| - j] == s[|p|];
      }
    }
    FirstOccurrence(s, ".git", |p|);
  }

  /** The web link: the remote without its trailing `.git`. */
  function RepoLink(url: string): (link: string)
    ensures EndsWith(url, ".git") ==> link + ".git" == url
    ensures !EndsWith(url, ".git") ==> link == url
  {
    if EndsWith(url, ".git") then url[..|url| - 4] else url
  }

  /** Stripping is undone by putting the suffix back, and a link never gains characters. */
  lemma RepoLinkStripsSuffix(base: string)
    ensures RepoLink(base + ".git") == base
    ensures |RepoLink(base)| <= |base|
  {
    assert (base + ".git")[|base|..] == ".git";
  }

  /** The repository field, present iff `remoteUrl` is truthy; `path` follows the link. */
  function RepositoryField(repo: RepoInfo, path: string): (r: seq<Field>)
    ensures |r| == (if HasRemote(repo) then 1 else 0)
    ensures HasRemote(repo) ==> r[0] == Field("🔗 Repositorio", "[Ver en GitHub](" + RepoLink(repo.remoteUrl.value) + path + ")", false)
  {
    if HasRemote(repo) then [Field("🔗 Repositorio", "[Ver en GitHub](" + RepoLink(repo.remoteUrl.value) + path + ")", false)]
    else []
  }

  type DateTable = map<string, nat>

  /** `Math.floor(new Date(date).getTime() / 1000)` as text. */
  function EpochText(dates: DateTable, date: string): string {
    if date in dates then NatToString(dates[date]) else "NaN"
  }

  /** A Discord timestamp tag `<t:seconds:style>`. */
  function TimeTag(dates: DateTable, date: string, style: string): string {
    "<t:" + EpochText(dates, date) + ":" + style + ">"
  }

  /** `createChangelogEmbed`: five fields in a fixed order, then the link to the commit when there is a remote. */
  function CommitEmbed(commit: GitCommit, repo: RepoInfo, dates: DateTable): (e: Embed)
    ensures e.title == Some(LastCommitTitle) && e.color == ChangelogColor && e.description.None?
    ensures |e.fields| == (if HasRemote(repo) then 6 else 5)
    ensures e.fields[0] == Field("🔖 Commit", "`" + commit.shortHash + "`", true)
    ensures e.fields[1] == Field("👤 Autor", commit.author, true)
    ensures e.fields[2] == Field("📅 Fecha", TimeTag(dates, commit.date, "F"), true)
    ensures e.fields[3] == Field("🌿 Rama", "`" + commit.branch + "`", true)
    ensures e.fields[4] == Field("📝 Mensaje", FormatCommitMessage(commit.message), false)
    ensures HasRemote(repo) ==> e.fields[5] == RepositoryField(repo, "/commit/" + commit.hash)[0]
    ensures HasRemote(repo) ==> e.fields[5].value == "[Ver en GitHub](" + RepoLink(repo.remoteUrl.value) + "/commit/" + commit.hash + ")"
  {
    Embed(Some(LastCommitTitle), ChangelogColor, None, [
      Field("🔖 Commit", "`" + commit.shortHash + "`", true),
      Field("👤 Autor", commit.author, true),
      Field("📅 Fecha", TimeTag(dates, commit.date, "F"), true),
      Field("🌿 Rama", "`" + commit.branch + "`", true),
      Field("📝 Mensaje", FormatCommitMessage(commit.message), false)
    ] + RepositoryField(repo, "/commit/" + commit.hash))
  }

  /** The field one commit gets in the history embed. */
  function CommitLine(commit: GitCommit, dates: DateTable): Field {
    Field("`" + commit.shortHash + "` " + FormatCommitMessage(commit.message),
          "👤 " + commit.author + " • " + TimeTag(dates, commit.date, "R"), false)
  }

  /** One field per commit, in order. */
  function CommitLines(commits: seq<GitCommit>, dates: DateTable): (r: seq<Field>)
    ensures |r| == |commits|
    ensures forall i :: 0 <= i < |commits| ==> r[i] == CommitLine(commits[i], dates)
  {
    seq(|commits|, i requires 0 <= i < |commits| => CommitLine(commits[i], dates))
  }

  /** A list with one commit line per commit, in order, is the commit lines of those commits. */
  lemma CommitLinesOf(commits: seq<GitCommit>, dates: DateTable, fields: seq<Field>)
    requires |fields| == |commits|
    requires forall k :: 0 <= k < |commits| ==> fields[k] == CommitLine(commits[k], dates)
    ensures fields == CommitLines(commits, dates)
  {
  }

  /** `Últimos **n** commits:`. */
  function HistoryDescription(count: nat): string {
    "Últimos **" + NatToString(count) + "** commits:"
  }

  /** `createHistoryChangelogEmbed`, as a value. */
  function HistoryEmbed(commits: seq<GitCommit>, repo: RepoInfo, dates: DateTable): Embed {
    var shown := commits[..Min(|commits|, MaxCommitFields)];
    Embed(Some(HistoryTitle), ChangelogColor, Some(HistoryDescription(|commits|)),
          CommitLines(shown, dates) + RepositoryField(repo, ""))
  }

  /**
   * The history embed has one field per commit, in input order, for at most
   * the first 20 commits, then the repository field when there is a remote;
   * its description counts ALL the commits, shown or not.
   */
  lemma HistoryEmbedLayout(commits: seq<GitCommit>, repo: RepoInfo, dates: DateTable)
    ensures var e := HistoryEmbed(commits, repo, dates);
            && |e.fields| == Min(|commits|, MaxCommitFields) + (if HasRemote(repo) then 1 else 0)
            && (forall i :: 0 <= i < Min(|commits|, MaxCommitFields) ==> e.fields[i] == CommitLine(commits[i], dates))
            && (HasRemote(repo) ==> e.fields[|e.fields| - 1] == RepositoryField(repo, "")[0])
            && (HasRemote(repo) ==> e.fields[|e.fields| - 1].name == "🔗 Repositorio")
            && e.title == Some(HistoryTitle) && e.color == ChangelogColor
            && e.description == Some(HistoryDescription(|commits|))
  {
  }

  /**
   * `createHistoryChangelogEmbed`: the bounded loop that adds one field per
   * commit, then the repository field.
   */
  method BuildHistoryEmbed(commits: seq<GitCommit>, repo: RepoInfo, dates: DateTable) returns (embed: Embed)
    ensures embed == HistoryEmbed(commits, repo, dates)
  {
    var fields: seq<Field> := [];
    var maxCommits := Min(|commits|, MaxCommitFields);
    var i := 0;
    while i < maxCommits
      invariant 0 <= i <= maxCommits
      invariant |fields| == i
      invariant forall k :: 0 <= k < i ==> fields[k] == CommitLine(commits[k], dates)
    {
      fields := fields + [CommitLine(commits[i], dates)];
      i := i + 1;
    }
    CommitLinesOf(commits[..maxCommits], dates, fields);
    embed := Embed(Some(HistoryTitle), ChangelogColor, Some(HistoryDescription(|commits|)), fields + RepositoryField(repo, ""));
  }

  /** Posting an embed: one new message, authored by the bot, in front of the history. */
  function Sent(history: seq<Message>, botId: string, embed: Embed, newId: string): seq<Message> {
    [Message(newId, botId, [embed])] + history
  }

  /**
   * The manager. `changelogChannelId` is `process.env.chanelog_id || ''`;
   * `botId` is the id of the logged-in bot user. `sendFails` stands for a
   * failing `send`, which is caught and changes nothing.
   */
  class ChangelogManager {
    const botId: string
    const changelogChannelId: string

    constructor (botId: string, changelogChannelId: string)
      ensures this.botId == botId && this.changelogChannelId == changelogChannelId
    {
      this.botId := botId;
      this.changelogChannelId := changelogChannelId;
    }

    /**
     * `sendLastCommitChangelog`: no channel configured, no channel fetched,
     * or no readable last commit means nothing is sent; otherwise one
     * message with the commit embed is.
     */
    method SendLastCommitChangelog(git: Git, channel: TextChannel?, dates: DateTable, sendFails: bool, newId: string)
      modifies channel
      ensures channel != null && (changelogChannelId == "" || LastCommit(git).None? || sendFails) ==>
        channel.messages == old(channel.messages)
      ensures channel != null && changelogChannelId != "" && LastCommit(git).Some? && !sendFails ==>
        channel.messages == Sent(old(channel.messages), botId, CommitEmbed(LastCommit(git).value, RepositoryInfo(git), dates), newId)
    {
      if changelogChannelId == "" {
        return;
      }
      if channel == null {
        return;
      }
      var lastCommit := LastCommit(git);
      if lastCommit.None? {
        return;
      }
      var embed := CommitEmbed(lastCommit.value, RepositoryInfo(git), dates);
      if sendFails {
        return;
      }
      channel.messages := [Message(newId, botId, [embed])] + channel.messages;
    }

    /**
     * `sendCommitHistoryChangelog(limit)`: nothing is sent without a channel
     * or when the history is empty (the all-or-nothing read failed, or
     * `limit` is 0); otherwise one message with the history embed is.
     */
    method SendCommitHistoryChangelog(limit: nat, git: Git, channel: TextChannel?, dates: DateTable,
                                      sendFails: bool, newId: string)
      modifies channel
      ensures channel != null && (changelogChannelId == "" || History(git, limit) == [] || sendFails) ==>
        channel.messages == old(channel.messages)
      ensures channel != null && changelogChannelId != "" && History(git, limit) != [] && !sendFails ==>
        channel.messages == Sent(old(channel.messages), botId, HistoryEmbed(History(git, limit), RepositoryInfo(git), dates), newId)
    {
      if changelogChannelId == "" {
        return;
      }
      if channel == null {
        return;
      }
      var commits := CommitHistory(git, limit);
      if |commits| == 0 {
        return;
      }
      var embed := BuildHistoryEmbed(commits, RepositoryInfo(git), dates);
      if sendFails {
        return;
      }
      channel.messages := [Message(newId, botId, [embed])] + channel.messages;
    }

    /** `sendNewCommitChangelog`: the last-commit changelog under another name. */
    method SendNewCommitChangelog(git: Git, channel: TextChannel?, dates: DateTable, sendFails: bool, newId: string)
      modifies channel
      ensures channel != null && (changelogChannelId == "" || LastCommit(git).None? || sendFails) ==>
        channel.messages == old(channel.messages)
      ensures channel != null && changelogChannelId != "" && LastCommit(git).Some? && !sendFails ==>
        channel.messages == Sent(old(channel.messages), botId, CommitEmbed(LastCommit(git).value, RepositoryInfo(git), dates), newId)
    {
      SendLastCommitChangelog(git, channel, dates, sendFails, newId);
    }

    /** `sendWeeklyChangelog`: the history changelog of the last 10 commits. */
    method SendWeeklyChangelog(git: Git, channel: TextChannel?, dates: DateTable, sendFails: bool, newId: string)
      modifies channel
      ensures channel != null && (changelogChannelId == "" || !AllReadable(git, WeeklyLimit) || sendFails) ==>
        channel.messages == old(channel.messages)
      ensures channel != null && changelogChannelId != "" && AllReadable(git, WeeklyLimit) && !sendFails ==>
        channel.messages == Sent(old(channel.messages), botId, HistoryEmbed(History(git, WeeklyLimit), RepositoryInfo(git), dates), newId)
    {
      HistoryShape(git, WeeklyLimit);
      SendCommitHistoryChangelog(WeeklyLimit, git, channel, dates, sendFails, newId);
    }

    /** `sendReleaseChangelog`: the history changelog of the last 20 commits. */
    method SendReleaseChangelog(git: Git, channel: TextChannel?, dates: DateTable, sendFails: bool, newId: string)
      modifies channel
      ensures channel != null && (changelogChannelId == "" || !AllReadable(git, ReleaseLimit) || sendFails) ==>
        channel.messages == old(channel.messages)
      ensures channel != null && changelogChannelId != "" && AllReadable(git, ReleaseLimit) && !sendFails ==>
        channel.messages == Sent(old(channel.messages), botId, HistoryEmbed(History(git, ReleaseLimit), RepositoryInfo(git), dates), newId)
    {
      HistoryShape(git, ReleaseLimit);
      SendCommitHistoryChangelog(ReleaseLimit, git, channel, dates, sendFails, newId);
    }
  }

  /** The public entry points: `sendNewCommitChangelog`, the history with its default, `sendWeeklyChangelog`, `sendReleaseChangelog`. */
  datatype ChangelogCall = SendLastCommit | SendNewCommit | SendHistory(limit: nat) | SendWeekly | SendRelease

  /** What a call sends: the last commit, or a history of some length. */
  datatype ChangelogContent = LastCommitContent | HistoryContent(limit: nat)

  /**
   * The delegation of the public wrappers (`sendNewCommitChangelog`,
   * `sendWeeklyChangelog`, `sendReleaseChangelog`) as data, for the command's
   * choices: new commit = last commit, weekly = 10 commits, release = 20.
   */
  function ContentOf(call: ChangelogCall): (c: ChangelogContent)
    ensures call == SendWeekly ==> c == HistoryContent(WeeklyLimit)
    ensures call == SendRelease ==> c == HistoryContent(ReleaseLimit)
    ensures c == LastCommitContent <==> call == SendLastCommit || call == SendNewCommit
  {
    match call
    case SendLastCommit => LastCommitContent
    case SendNewCommit => LastCommitContent
    case SendHistory(limit) => HistoryContent(limit)
    case SendWeekly => HistoryContent(WeeklyLimit)
    case SendRelease => HistoryContent(ReleaseLimit)
  }

  /**
   * When the first `limit` commits are all readable, the history embed
   * counts `limit` commits and lists `HEAD`, `HEAD~1`, ... in that order,
   * up to the field cap; otherwise nothing is sent, as the history is empty.
   */
  lemma HistoryEmbedListsCommits(git: Git, limit: nat, repo: RepoInfo, dates: DateTable)
    ensures AllReadable(git, limit) ==>
      var e := HistoryEmbed(History(git, limit), repo, dates);
      && e.description == Some(HistoryDescription(limit))
      && |e.fields| == Min(limit, MaxCommitFields) + (if HasRemote(repo) then 1 else 0)
      && forall i :: 0 <= i < Min(limit, MaxCommitFields) ==> e.fields[i] == CommitLine(CommitAt(git, i).value, dates)
    ensures !AllReadable(git, limit) ==> History(git, limit) == []
  {
    HistoryShape(git, limit);
    HistoryEmbedLayout(History(git, limit), repo, dates);
  }

  /** A release changelog shows every commit it reads: its limit is the field cap. */
  lemma ReleaseShowsAllItReads(git: Git, repo: RepoInfo, dates: DateTable)
    ensures var commits := History(git, ReleaseLimit);
            |HistoryEmbed(commits, repo, dates).fields| == |commits| + (if HasRemote(repo) then 1 else 0)
  {
    HistoryShape(git, ReleaseLimit);
    HistoryEmbedLayout(History(git, ReleaseLimit), repo, dates);
  }
}
