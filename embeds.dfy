/**
 * What the bot sends to Discord, reduced to what the code decides: an embed
 * is a title, a colour, an optional description and a sequence of
 * (name, value, inline) fields; a text channel is its message history,
 * NEWEST FIRST, so that fetching the last `limit` messages is a prefix and
 * `Collection.find` over them picks the newest match. Thumbnails, footers,
 * timestamps and rendering belong to the platform and are left out.
 */
module Embeds {
  import opened Wrappers
  import opened Text

  datatype Field = Field(name: string, value: string, inline: bool)

  datatype Embed = Embed(title: Option<string>, color: nat, description: Option<string>, fields: seq<Field>)

  datatype Message = Message(id: string, authorId: string, embeds: seq<Embed>)

  /** A text channel: its messages, newest first. */
  class TextChannel {
    var messages: seq<Message>

    constructor (messages: seq<Message>)
      ensures this.messages == messages
    {
      this.messages := messages;
    }
  }

  /** The text both status embeds carry in their title and the finder searches for. */
  const StatusMarker: string := "Mizuki Bot Status"
  const StatusTitle: string := "🌙 Mizuki Bot Status"

  lemma StatusTitleHasMarker()
    ensures Contains(StatusTitle, StatusMarker)
  {
    assert OccursAt(StatusTitle, StatusMarker, 2);
  }

  /** A message the bot itself posted whose first embed's title mentions the status marker. */
  predicate IsStatusMessage(m: Message, botId: string) {
    && m.authorId == botId
    && |m.embeds| > 0
    && m.embeds[0].title.Some?
    && Contains(m.embeds[0].title.value, StatusMarker)
  }

  function Min(a: nat, b: nat): nat {
    if a <= b then a else b
  }

  /**
   * `channel.messages.fetch({ limit })` followed by `find`: the index of the
   * newest status message among the `limit` most recent ones.
   */
  function FindStatusMessage(history: seq<Message>, botId: string, limit: nat): (r: Option<nat>)
    ensures r.Some? ==> r.value < Min(limit, |history|) && IsStatusMessage(history[r.value], botId)
    ensures r.Some? ==> forall j :: 0 <= j < r.value ==> !IsStatusMessage(history[j], botId)
    ensures r.None? ==> forall j :: 0 <= j < Min(limit, |history|) ==> !IsStatusMessage(history[j], botId)
  {
    if limit == 0 || history == [] then None
    else if IsStatusMessage(history[0], botId) then Some(0)
    else match FindStatusMessage(history[1..], botId, limit - 1)
      case None => None
      case Some(i) => Some(i + 1)
  }

  datatype Published = Published(history: seq<Message>, messageId: string)

  /**
   * Find-or-create: edit the status message found among the last `limit`
   * messages so that it carries just `embed`, or else send one new message,
   * authored by the bot, whose id the platform chooses (`newId`).
   */
  function PublishStatus(history: seq<Message>, botId: string, embed: Embed, limit: nat, newId: string): Published {
    match FindStatusMessage(history, botId, limit)
    case Some(i) => Published(history[i := history[i].(embeds := [embed])], history[i].id)
    case None => Published([Message(newId, botId, [embed])] + history, newId)
  }

  /**
   * Find-or-create touches exactly one message: either the channel keeps its
   * length and only the found message changes (to carry just the new embed),
   * or exactly one message is added, in front, and everything older stays.
   */
  lemma PublishTouchesOneMessage(history: seq<Message>, botId: string, embed: Embed, limit: nat, newId: string)
    ensures var p := PublishStatus(history, botId, embed, limit, newId);
      match FindStatusMessage(history, botId, limit)
      case Some(i) =>
        && |p.history| == |history|
        && p.history[i] == Message(history[i].id, history[i].authorId, [embed])
        && p.messageId == history[i].id
        && (forall j :: 0 <= j < |history| && j != i ==> p.history[j] == history[j])
      case None =>
        && |p.history| == |history| + 1
        && p.history[0] == Message(newId, botId, [embed])
        && p.messageId == newId
        && p.history[1..] == history
  {
  }

  /**
   * The message find-or-create leaves carrying a status embed is the one
   * the next search finds: the newest status message, whose id is the one
   * recorded.
   */
  lemma PublishedIsFound(history: seq<Message>, botId: string, embed: Embed, limit: nat, newId: string)
    requires limit >= 1
    requires embed.title == Some(StatusTitle)
    ensures var p := PublishStatus(history, botId, embed, limit, newId);
            var f := FindStatusMessage(p.history, botId, limit);
            f.Some? && p.history[f.value].id == p.messageId && p.history[f.value].embeds == [embed]
  {
    StatusTitleHasMarker();
    var p := PublishStatus(history, botId, embed, limit, newId);
    match FindStatusMessage(history, botId, limit)
    case Some(i) =>
      assert IsStatusMessage(p.history[i], botId);
      forall j | 0 <= j < i
        ensures !IsStatusMessage(p.history[j], botId)
      {
        assert p.history[j] == history[j];
      }
      FirstStatusMessageIs(p.history, botId, limit, i);
    case None =>
      assert IsStatusMessage(p.history[0], botId);
      FirstStatusMessageIs(p.history, botId, limit, 0);
  }

  /**
   * Never duplicating: once a status embed has been published, publishing
   * again (with any embed and any fresh id) edits that same message and
   * adds nothing to the channel.
   */
  lemma RepublishFindsSameMessage(history: seq<Message>, botId: string, e1: Embed, e2: Embed,
                                  limit: nat, id1: string, id2: string)
    requires limit >= 1
    requires e1.title == Some(StatusTitle)
    ensures var p1 := PublishStatus(history, botId, e1, limit, id1);
            var p2 := PublishStatus(p1.history, botId, e2, limit, id2);
            |p2.history| == |p1.history| && p2.messageId == p1.messageId
  {
    PublishedIsFound(history, botId, e1, limit, id1);
  }

  lemma FirstStatusMessageIs(history: seq<Message>, botId: string, limit: nat, i: nat)
    requires i < limit && i < |history| && IsStatusMessage(history[i], botId)
    requires forall j :: 0 <= j < i ==> !IsStatusMessage(history[j], botId)
    ensures FindStatusMessage(history, botId, limit) == Some(i)
  {
  }
}
