/**
 * src/server/managers/ChatManager.ts: players' chat lines and system
 * announcements go into the room's message history, and each is also
 * broadcast to every client. A player's line is cut to `CHAT_MAX_LENGTH`
 * characters and the history is kept to `CHAT_HISTORY_SIZE` entries by
 * dropping the oldest; announcements are appended without that trim.
 *
 * The clock (`Date.now()`) is the parameter `now`; the broadcast is
 * recorded in `sent`, and the console logging is not modelled.
 */
module Chat {
  import GameConfig

  /** A `ChatMessage`. */
  datatype ChatMessage = ChatMessage(sender: string, text: string, timestamp: int)

  /** `text.slice(0, CHAT_MAX_LENGTH)`: the first 100 characters, or the whole text if shorter. */
  function CleanText(text: string): (r: string)
    ensures |r| <= GameConfig.ChatMaxLength
    ensures |r| <= |text| && r == text[..|r|]
    ensures |text| <= GameConfig.ChatMaxLength ==> r == text
    ensures |text| > GameConfig.ChatMaxLength ==> |r| == GameConfig.ChatMaxLength
  {
    if |text| <= GameConfig.ChatMaxLength then text else text[..GameConfig.ChatMaxLength]
  }

  /**
   * The history after a player's line: the line goes at the end, and if
   * that makes the history longer than `CHAT_HISTORY_SIZE` the oldest entry
   * is dropped, so a history within the bound stays within it.
   */
  function Posted(history: seq<ChatMessage>, msg: ChatMessage): (r: seq<ChatMessage>)
    ensures |r| > 0 && r[|r| - 1] == msg
    ensures r == history + [msg] || (|history| > 0 && r == history[1..] + [msg])
    ensures |history| < GameConfig.ChatHistorySize ==> r == history + [msg]
    ensures |history| <= GameConfig.ChatHistorySize ==> |r| <= GameConfig.ChatHistorySize
    ensures |history| >= GameConfig.ChatHistorySize ==> |r| == |history|
  {
    var grown := history + [msg];
    if |grown| > GameConfig.ChatHistorySize then grown[1..] else grown
  }

  /** Posting to a full history forgets exactly its oldest entry. */
  lemma FullHistoryDropsOldest(history: seq<ChatMessage>, msg: ChatMessage)
    requires |history| == GameConfig.ChatHistorySize
    ensures Posted(history, msg) == history[1..] + [msg]
    ensures forall k :: 1 <= k < |history| ==> Posted(history, msg)[k - 1] == history[k]
  {
  }

  /** The room's players (session id to username), its history and what was broadcast. */
  class ChatRoom {
    var players: map<string, string>
    var messages: seq<ChatMessage>
    var sent: seq<ChatMessage>

    constructor(players: map<string, string>)
      ensures this.players == players && messages == [] && sent == []
    {
      this.players := players;
      messages, sent := [], [];
    }

    /** Every entry of the history within the bound. */
    predicate Bounded()
      reads this
    {
      |messages| <= GameConfig.ChatHistorySize
    }

    /**
     * `handleChat`: from a known player with a non-empty text, the cut text
     * under the player's username is broadcast and posted; anything else
     * changes nothing.
     */
    method HandleChat(sessionId: string, text: string, now: int)
      modifies this
      ensures players == old(players)
      ensures sessionId !in players || text == "" ==> messages == old(messages) && sent == old(sent)
      ensures sessionId in players && text != "" ==>
        var msg := ChatMessage(players[sessionId], CleanText(text), now);
        messages == Posted(old(messages), msg) && sent == old(sent) + [msg]
      ensures old(Bounded()) ==> Bounded()
    {
      if sessionId in players && text != "" {
        var cleanText := CleanText(text);
        var msg := ChatMessage(players[sessionId], cleanText, now);
        messages := messages + [msg];
        sent := sent + [msg];
        if |messages| > GameConfig.ChatHistorySize {
          messages := messages[1..];
        }
      }
    }

    /** `broadcastSystemMessage` (`sender` defaults to "SYSTEM" there): the announcement is broadcast and appended, with no trim. */
    method BroadcastSystemMessage(text: string, sender: string, now: int)
      modifies this
      ensures players == old(players)
      ensures messages == old(messages) + [ChatMessage(sender, text, now)]
      ensures sent == old(sent) + [ChatMessage(sender, text, now)]
    {
      var msg := ChatMessage(sender, text, now);
      messages := messages + [msg];
      sent := sent + [msg];
    }
  }

  /** An announcement to a full history takes it past the bound that players' lines keep. */
  lemma AnnouncementExceedsBound(history: seq<ChatMessage>, msg: ChatMessage)
    requires |history| == GameConfig.ChatHistorySize
    ensures |history + [msg]| > GameConfig.ChatHistorySize
    ensures |Posted(history, msg)| == GameConfig.ChatHistorySize
  {
  }
}
