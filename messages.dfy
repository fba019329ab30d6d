/** js/messages.js: who the other participant of a conversation is, the
    roles passed to the get-or-create RPC, the labels of the conversation
    list and of the chat, the guards of sending, the audio clock, the
    exclusive audio playback and the contact filter. */
module Messages {
  import opened Wrappers
  import JsStrings
  import Decimal
  import Utils

  datatype Person = Person(id: string, firstname: Option<string>, lastname: Option<string>)

  /** A conversation between a regular user and an admin. */
  datatype Conversation = Conversation(id: string, user: Person, admin: Person)

  /** The person shown for a conversation, in the list and in the chat
      header: the admin when the current user is the conversation's user,
      and the user otherwise. */
  function Counterpart(conv: Conversation, me: string): (p: Person)
    ensures conv.user.id == me ==> p == conv.admin
    ensures conv.user.id != me ==> p == conv.user
  {
    if conv.user.id == me then conv.admin else conv.user
  }

  /** The receiver of a message sent by `me`, chosen from the two ids. */
  function ReceiverId(userId: string, adminId: string, me: string): (r: string)
    ensures r == userId || r == adminId
    ensures userId != adminId && (me == userId || me == adminId) ==> r != me
  {
    if userId == me then adminId else userId
  }

  /** When the current user takes part in a conversation between two
      different people, the person shown is the other participant, and
      messages go to that person. */
  lemma CounterpartIsReceiver(conv: Conversation, me: string)
    requires me == conv.user.id || me == conv.admin.id
    requires conv.user.id != conv.admin.id
    ensures Counterpart(conv, me).id != me
    ensures Counterpart(conv, me).id == ReceiverId(conv.user.id, conv.admin.id, me)
  {
  }

  /** Arguments of fn_get_or_create_admin_conversation. */
  datatype RpcArgs = RpcArgs(pUserId: string, pAdminId: string)

  /** createConversationWith(target, targetIsAdmin): a regular user picks
      an admin (targetIsAdmin) and takes the user role itself; an admin
      picks a user and takes the admin role. */
  function ConversationRpcArgs(me: string, target: string, targetIsAdmin: bool): (a: RpcArgs)
    ensures targetIsAdmin ==> a.pUserId == me && a.pAdminId == target
    ensures !targetIsAdmin ==> a.pUserId == target && a.pAdminId == me
  {
    RpcArgs(if targetIsAdmin then me else target, if targetIsAdmin then target else me)
  }

  /** In the conversation the RPC creates, the messages of the current user
      go to the person picked. */
  lemma {:induction false} CreatedConversationReachesTarget(me: string, target: string, targetIsAdmin: bool)
    requires me != target
    ensures var a := ConversationRpcArgs(me, target, targetIsAdmin);
            ReceiverId(a.pUserId, a.pAdminId, me) == target
  {
    var a := ConversationRpcArgs(me, target, targetIsAdmin);
    if !targetIsAdmin {
      assert a.pUserId == target;
    }
  }

  /** The last-message preview of the conversation list; `escaped` is what
      escapeHtml makes of the last message's content. */
  function PreviewLabel(lastMessageType: Option<string>, escaped: string): (r: string)
    ensures r != []
    ensures lastMessageType == Some("audio") ==> r == "🎤 Message vocal"
    ensures lastMessageType == Some("image") ==> r == "📷 Image"
    ensures lastMessageType == Some("video") ==> r == "🎥 Vidéo"
    ensures lastMessageType !in {Some("audio"), Some("image"), Some("video")} ==>
              (escaped != [] ==> r == escaped) && (escaped == [] ==> r == "💬 Nouveau message")
  {
    if lastMessageType == Some("audio") then "🎤 Message vocal"
    else if lastMessageType == Some("image") then "📷 Image"
    else if lastMessageType == Some("video") then "🎥 Vidéo"
    else if escaped != [] then escaped
    else "💬 Nouveau message"
  }

  /** The delivery tick under a message: only on messages the current
      user sent, two ticks once seen, one once delivered. */
  function StatusTick(isSent: bool, status: string): (r: string)
    ensures r != [] ==> isSent
    ensures r == "✓✓" <==> isSent && status == "seen"
    ensures r == "✓" <==> isSent && status == "delivered"
    ensures r in {"", "✓", "✓✓"}
  {
    if isSent && status == "seen" then "✓✓"
    else if isSent && status == "delivered" then "✓"
    else ""
  }

  /** How the body of a message is rendered. */
  datatype MessageBody =
    | AudioPlayer(url: string)
    | ImageView(url: string)
    | VideoView(url: string)
    | TextBody(text: string)

  /** A media rendering is chosen only for a message that has a media URL
      (non-empty); everything else is shown as text, with '📎 Média' for
      an empty escaped content. */
  function ContentKind(msgType: string, mediaUrl: Option<string>, escaped: string): (b: MessageBody)
    ensures b.AudioPlayer? <==> msgType == "audio" && Utils.Present(mediaUrl)
    ensures b.ImageView? <==> msgType == "image" && Utils.Present(mediaUrl)
    ensures b.VideoView? <==> msgType == "video" && Utils.Present(mediaUrl)
    ensures !b.TextBody? ==> b.url == mediaUrl.value
    ensures b.TextBody? ==> b.text == (if escaped != [] then escaped else "📎 Média")
  {
    if msgType == "audio" && Utils.Present(mediaUrl) then AudioPlayer(mediaUrl.value)
    else if msgType == "image" && Utils.Present(mediaUrl) then ImageView(mediaUrl.value)
    else if msgType == "video" && Utils.Present(mediaUrl) then VideoView(mediaUrl.value)
    else TextBody(if escaped != [] then escaped else "📎 Média")
  }

  /** The two participant ids the send functions look up. */
  datatype Participants = Participants(userId: string, adminId: string)

  /** The row inserted into messages; `media` is the media_url of a voice
      message, which is then also flagged has_media. */
  datatype MessageInsert = MessageInsert(
    conversationId: string, senderId: string, receiverId: string,
    kind: string, content: string, media: Option<string>)

  datatype SendOutcome =
    | Ignored                          // the guard returned before any request
    | Failed                           // a request failed; an alert is shown
    | Inserted(record: MessageInsert)

  /** sendMessage: ignored for an empty trimmed input or without a current
      conversation; otherwise the trimmed text goes to the other
      participant of the looked-up conversation (None: the lookup found
      nothing, and reading its fields throws). */
  function TextMessage(input: string, current: Option<string>, me: string, conv: Option<Participants>): (o: SendOutcome)
    ensures o.Ignored? <==> JsStrings.Trim(input) == [] || !Utils.Present(current)
    ensures o.Failed? <==> !o.Ignored? && conv.None?
    ensures o.Inserted? ==>
              && o.record.conversationId == current.value
              && o.record.senderId == me
              && o.record.receiverId == ReceiverId(conv.value.userId, conv.value.adminId, me)
              && o.record.kind == "text"
              && o.record.content == JsStrings.Trim(input)
              && o.record.content != []
              && o.record.media.None?
  {
    var content := JsStrings.Trim(input);
    if content == [] || !Utils.Present(current) then Ignored
    else match conv
      case None => Failed
      case Some(c) =>
        Inserted(MessageInsert(current.value, me, ReceiverId(c.userId, c.adminId, me), "text", content, None))
  }

  /** sendVoiceMessage: ignored without a current conversation; fails when
      the upload (publicUrl None) or the lookup fails; otherwise an audio
      message with the uploaded file's URL goes to the other participant. */
  function VoiceMessage(current: Option<string>, me: string, publicUrl: Option<string>, conv: Option<Participants>): (o: SendOutcome)
    ensures o.Ignored? <==> !Utils.Present(current)
    ensures o.Failed? <==> Utils.Present(current) && (publicUrl.None? || conv.None?)
    ensures o.Inserted? ==>
              && o.record.conversationId == current.value
              && o.record.senderId == me
              && o.record.receiverId == ReceiverId(conv.value.userId, conv.value.adminId, me)
              && o.record.kind == "audio"
              && o.record.content == "🎤 Message vocal"
              && o.record.media == publicUrl
  {
    if !Utils.Present(current) then Ignored
    else if publicUrl.None? || conv.None? then Failed
    else Inserted(MessageInsert(current.value, me, ReceiverId(conv.value.userId, conv.value.adminId, me),
                                "audio", "🎤 Message vocal", publicUrl))
  }

  /** The chat page: the open conversation and the message input. */
  class Chat {
    var currentConversation: Option<string>
    var input: string

    constructor ()
      ensures currentConversation.None? && input == ""
    {
      currentConversation := None;
      input := "";
    }

    /** loadConversation: the conversation becomes current, and exactly the
        list items carrying its id are highlighted. */
    method LoadConversation(conversationId: string, itemIds: seq<string>, highlighted: array<bool>)
      requires highlighted.Length == |itemIds|
      modifies this, highlighted
      ensures currentConversation == Some(conversationId) && input == old(input)
      ensures forall i :: 0 <= i < |itemIds| ==> highlighted[i] == (itemIds[i] == conversationId)
    {
      currentConversation := Some(conversationId);
      for i := 0 to |itemIds|
        invariant currentConversation == Some(conversationId) && input == old(input)
        invariant forall k :: 0 <= k < i ==> highlighted[k] == (itemIds[k] == conversationId)
      {
        highlighted[i] := itemIds[i] == conversationId;
      }
    }

    /** sendMessage: the outcome of TextMessage on the current input; the
        input is cleared only once the insert succeeded. */
    method SendMessage(me: string, conv: Option<Participants>, insertSucceeds: bool) returns (o: SendOutcome)
      modifies this
      ensures o == TextMessage(old(input), currentConversation, me, conv)
      ensures currentConversation == old(currentConversation)
      ensures input == if o.Inserted? && insertSucceeds then "" else old(input)
    {
      o := TextMessage(input, currentConversation, me, conv);
      if o.Inserted? && insertSucceeds {
        input := "";
      }
    }
  }

  /** The remainder of JavaScript's %: truncated, so it takes the sign of
      the dividend. */
  function JsRem(a: int, b: int): (r: int)
    requires b > 0
    ensures a >= 0 ==> 0 <= r < b && r == a % b
    ensures a < 0 ==> -b < r <= 0 && r == -((-a) % b)
  {
    if a >= 0 then a % b else -((-a) % b)
  }

  /** A clock label m:ss that reads back as `seconds`: whole minutes
      without leading zeros, a colon, then two digits of seconds below 60. */
  predicate AudioClock(r: string, seconds: int) {
    && |r| >= 4
    && r[|r| - 3] == ':'
    && (r[0] != '0' || r[..|r| - 3] == "0")
    && Decimal.AllDigits(r[..|r| - 3])
    && Decimal.AllDigits(r[|r| - 2..])
    && Decimal.ParseNat(r[|r| - 2..]) < 60
    && Decimal.ParseNat(r[..|r| - 3]) * 60 + Decimal.ParseNat(r[|r| - 2..]) == seconds
  }

  /** formatAudioTime on a whole number of seconds (None: NaN). */
  function FormatAudioTime(seconds: Option<int>): (r: string)
    ensures seconds.None? ==> r == "0:00"
    ensures seconds.Some? && seconds.value >= 0 ==> AudioClock(r, seconds.value)
    ensures seconds.Some? && seconds.value < 0 ==> |r| > 0 && r[0] == '-'
  {
    match seconds
    case None => "0:00"
    case Some(s) =>
      var mins := Decimal.IntToString(s / 60);
      var secs := JsStrings.PadStart(Decimal.IntToString(JsRem(s, 60)), 2, '0');
      if s >= 0 then AudioClockOf(s); mins + ":" + secs
      else mins + ":" + secs
  }

  lemma TwoDigits(n: nat)
    requires n < 100
    ensures var p := JsStrings.PadStart(Decimal.NatToString(n), 2, '0');
            |p| == 2 && Decimal.AllDigits(p) && Decimal.ParseNat(p) == n
  {
    var d := Decimal.NatToString(n);
    Decimal.ParseNatToString(n);
    if n < 10 {
      var p := "0" + d;
      assert p[..1] == "0" && p[1..] == d;
      assert Decimal.ParseNat(p[..1]) == 0;
    } else {
      assert |Decimal.NatToString(n / 10)| == 1;
    }
  }

  lemma AudioClockOf(s: nat)
    ensures AudioClock(Decimal.NatToString(s / 60) + ":" + JsStrings.PadStart(Decimal.NatToString(s % 60), 2, '0'), s)
  {
    var mins := Decimal.NatToString(s / 60);
    var secs := JsStrings.PadStart(Decimal.NatToString(s % 60), 2, '0');
    TwoDigits(s % 60);
    Decimal.ParseNatToString(s / 60);
    Decimal.NoLeadingZero(s / 60);
    ClockOfParts(mins, secs, s / 60, s % 60);
  }

  /** A minutes numeral, a colon and two second digits make a clock. */
  lemma ClockOfParts(mins: string, secs: string, m: nat, sec: nat)
    requires |mins| >= 1 && Decimal.AllDigits(mins) && Decimal.ParseNat(mins) == m
    requires mins[0] != '0' || mins == "0"
    requires |secs| == 2 && Decimal.AllDigits(secs) && Decimal.ParseNat(secs) == sec && sec < 60
    ensures AudioClock(mins + ":" + secs, m * 60 + sec)
  {
    var r := mins + ":" + secs;
    assert r[..|r| - 3] == mins;
    assert r[|r| - 2..] == secs;
    assert r[0] == mins[0];
  }

  /** An entry of currentAudioPlayers: the Audio object's source and its
      paused flag. */
  datatype Player = Player(url: string, paused: bool)

  /** At most one player is playing. */
  ghost predicate AtMostOnePlaying(players: map<string, Player>) {
    forall a, b :: a in players && b in players && !players[a].paused && !players[b].paused ==> a == b
  }

  /** The players created so far, by message id. */
  class AudioPlayers {
    var players: map<string, Player>

    ghost predicate Valid()
      reads this
    {
      AtMostOnePlaying(players)
    }

    constructor ()
      ensures Valid() && players == map[]
    {
      players := map[];
    }

    /** toggleAudioPlayback: the message's player (created paused on first
        use) starts and every other playing player is paused, or, when it
        was playing, it is paused and nothing else changes. */
    method TogglePlayback(messageId: string, audioUrl: string)
      requires Valid()
      modifies this
      ensures Valid()
      ensures players.Keys == old(players).Keys + {messageId}
      ensures messageId in old(players) ==> players[messageId].url == old(players)[messageId].url
      ensures messageId !in old(players) ==> players[messageId].url == audioUrl
      ensures messageId in old(players) && !old(players)[messageId].paused ==>
                players == old(players)[messageId := old(players)[messageId].(paused := true)]
      ensures (messageId !in old(players) || old(players)[messageId].paused) ==>
                && !players[messageId].paused
                && forall k :: k in players && k != messageId ==> players[k] == old(players)[k].(paused := true)
    {
      var audio := if messageId in players then players[messageId] else Player(audioUrl, true);
      if messageId !in players {
        players := players[messageId := audio];
      }
      if audio.paused {
        PauseAllExcept(messageId);
        players := players[messageId := audio.(paused := false)];
      } else {
        players := players[messageId := audio.(paused := true)];
      }
    }

    /** The browser stops a player by itself when its playback reaches the
        end or its play() is refused: that player's paused flag becomes
        true, so the next click on the message plays it again. The `ended`
        listener only resets the icon and the progress bar. */
    method PlaybackEnded(messageId: string)
      requires Valid()
      modifies this
      ensures Valid()
      ensures messageId in old(players) ==>
                players == old(players)[messageId := old(players)[messageId].(paused := true)]
      ensures messageId !in old(players) ==> players == old(players)
    {
      if messageId in players {
        players := players[messageId := players[messageId].(paused := true)];
      }
    }

    /** The loop of toggleAudioPlayback over all the players: every one
        but the message's own ends up paused; the set of players and the
        message's own player are untouched. */
    method PauseAllExcept(messageId: string)
      modifies this
      ensures players.Keys == old(players).Keys
      ensures messageId in players ==> players[messageId] == old(players)[messageId]
      ensures forall k :: k in players && k != messageId ==> players[k] == old(players)[k].(paused := true)
    {
      var others := players.Keys;
      ghost var before := players;
      while others != {}
        invariant others <= before.Keys
        invariant players.Keys == before.Keys
        invariant forall k :: k in players && k !in others && k != messageId ==> players[k] == before[k].(paused := true)
        invariant forall k :: k in players && (k in others || k == messageId) ==> players[k] == before[k]
        decreases others
      {
        var k :| k in others;
        if k != messageId && !players[k].paused {
          players := players[k := players[k].(paused := true)];
        }
        others := others - {k};
      }
    }
  }

  /** filterContacts: each contact is shown ('') when its data-name
      matches the query and hidden ('none') otherwise. */
  method FilterContacts(names: seq<string>, display: array<string>, query: string)
    requires display.Length == |names|
    modifies display
    ensures forall i :: 0 <= i < |names| ==> display[i] == (if Utils.MatchesQuery(names[i], query) then "" else "none")
  {
    var lowerQuery := JsStrings.ToLower(query);
    for i := 0 to |names|
      invariant forall k :: 0 <= k < i ==> display[k] == (if Utils.MatchesQuery(names[k], query) then "" else "none")
    {
      var name := JsStrings.ToLower(names[i]);
      display[i] := if JsStrings.Contains(name, lowerQuery) then "" else "none";
    }
  }
}
