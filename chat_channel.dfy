/**
 * The queue and buffer logic of the chat-channel plugin
 * (meteor.plugins.chatchannel.ChatChannelPlugin).
 *
 * Client and configuration reads are parameters; what the plugin does to the
 * client (removing a chat line, asking for the chat box to be rebuilt, clearing
 * the typed text, queueing a console message, saving the recent-chat list) is
 * appended to an ordered trace of `Effect`s.
 */
module ChatChannel {
  import opened Wrappers
  import opened GameStates

  /** Longest recent-chat list kept. */
  const MaxChats: nat := 10
  /** Ticks a join or leave is held back before it is announced. */
  const MessageDelay: int := 10

  datatype ChatType = FriendsChat | ClanChat | GuestChat
  datatype ActivityType = Joined | Left

  /** A channel member; the activity buffer is keyed by it. */
  datatype Member = Member(name: string, rank: int)

  datatype MemberActivity = MemberActivity(activityType: ActivityType, chatType: ChatType, member: Member, tick: int)

  /** A chat line of the client: which node it is and which chat-line buffer it belongs to. */
  datatype MessageNode = MessageNode(handle: nat, lineType: int)

  /** A join/leave line the plugin added: the node, the id the node had then, and the tick. */
  datatype MemberJoinMessage = MemberJoinMessage(node: MessageNode, messageId: int, tick: int)

  datatype InputMode = Friend | Clan | Guest
  datatype ChatMessageType = FriendsChatMessage | ClanChatMessage | ClanGuestChatMessage

  datatype Effect =
    | RemoveLine(node: MessageNode)        // ChatLineBuffer.removeMessageNode
    | RebuildChatbox                       // runScript(BUILD_CHATBOX)
    | ClearTypedText                       // setVar(CHATBOX_TYPED_TEXT, "")
    | QueueWarning(mode: InputMode)        // chatMessageManager.queue(typing-mode notice)
    | SaveChats(chats: seq<string>)        // config.chatsData(toCSV(chats))

  // ---------------------------------------------------------------------------
  // The activity buffer: an insertion-ordered map from member to activity

  function Last<T>(s: seq<T>): T
    requires s != []
  {
    s[|s| - 1]
  }

  function Init<T>(s: seq<T>): seq<T>
    requires s != []
  {
    s[..|s| - 1]
  }

  /** containsKey */
  function HasMember(buf: seq<MemberActivity>, m: Member): (r: bool)
    ensures r <==> exists i :: 0 <= i < |buf| && buf[i].member == m
  {
    if buf == [] then false
    else
      assert forall i :: 0 <= i < |buf| - 1 ==> Init(buf)[i] == buf[i];
      Last(buf).member == m || HasMember(Init(buf), m)
  }

  /** remove: the buffer without the entry of `m`, order kept. */
  function Without(buf: seq<MemberActivity>, m: Member): (r: seq<MemberActivity>)
    ensures |r| <= |buf|
  {
    if buf == [] then []
    else if Last(buf).member == m then Without(Init(buf), m)
    else Without(Init(buf), m) + [Last(buf)]
  }

  ghost predicate UniqueKeys(buf: seq<MemberActivity>)
  {
    forall i, j :: 0 <= i < j < |buf| ==> buf[i].member != buf[j].member
  }

  /** queueJoin / queueLeave: put `a` if its member has no entry, otherwise remove that entry. */
  function Toggle(buf: seq<MemberActivity>, a: MemberActivity): seq<MemberActivity>
  {
    if HasMember(buf, a.member) then Without(buf, a.member) else buf + [a]
  }

  lemma {:induction false} WithoutMembers(buf: seq<MemberActivity>, m: Member, x: Member)
    ensures HasMember(Without(buf, m), x) <==> x != m && HasMember(buf, x)
  {
    if buf != [] {
      WithoutMembers(Init(buf), m, x);
      var w := Without(Init(buf), m);
      if Last(buf).member != m {
        assert Without(buf, m) == w + [Last(buf)];
        assert (w + [Last(buf)])[|w|] == Last(buf);
        assert forall i :: 0 <= i < |w| ==> (w + [Last(buf)])[i] == w[i];
      }
      assert forall i :: 0 <= i < |buf| - 1 ==> Init(buf)[i] == buf[i];
      assert buf[|buf| - 1] == Last(buf);
    }
  }

  lemma {:induction false} WithoutAbsent(buf: seq<MemberActivity>, m: Member)
    requires !HasMember(buf, m)
    ensures Without(buf, m) == buf
  {
    if buf != [] {
      assert buf[|buf| - 1].member != m;
      assert forall i :: 0 <= i < |buf| - 1 ==> Init(buf)[i] == buf[i];
      WithoutAbsent(Init(buf), m);
      assert Init(buf) + [Last(buf)] == buf;
    }
  }

  lemma {:induction false} WithoutKeepsUnique(buf: seq<MemberActivity>, m: Member)
    requires UniqueKeys(buf)
    ensures UniqueKeys(Without(buf, m))
  {
    if buf != [] {
      var init := Init(buf);
      assert forall i :: 0 <= i < |init| ==> init[i] == buf[i];
      WithoutKeepsUnique(init, m);
      if Last(buf).member != m {
        var w := Without(init, m);
        WithoutMembers(init, m, Last(buf).member);
        assert !HasMember(init, Last(buf).member);
        var r := w + [Last(buf)];
        forall i, j | 0 <= i < j < |r| ensures r[i].member != r[j].member {
          if j == |w| {
            assert r[i] == w[i];
          } else {
            assert r[i] == w[i] && r[j] == w[j];
          }
        }
      }
    }
  }

  /**
   * A join and a leave of the same member that had no entry cancel out: the
   * buffer is as it was.
   */
  lemma JoinThenLeaveCancels(buf: seq<MemberActivity>, join: MemberActivity, leave: MemberActivity)
    requires join.member == leave.member && !HasMember(buf, join.member)
    ensures Toggle(Toggle(buf, join), leave) == buf
  {
    var b := buf + [join];
    assert b[|buf|].member == join.member;
    assert Init(b) == buf && Last(b) == join;
    WithoutAbsent(buf, join.member);
  }

  /**
   * A toggle flips whether the member has an entry and leaves the other
   * members' entries, and keeps the buffer a map (one entry per member).
   */
  lemma ToggleFlipsMember(buf: seq<MemberActivity>, a: MemberActivity, x: Member)
    requires UniqueKeys(buf)
    ensures UniqueKeys(Toggle(buf, a))
    ensures HasMember(Toggle(buf, a), x) <==> if x == a.member then !HasMember(buf, x) else HasMember(buf, x)
  {
    if HasMember(buf, a.member) {
      WithoutMembers(buf, a.member, x);
      WithoutKeepsUnique(buf, a.member);
    } else {
      var b := buf + [a];
      assert b[|buf|] == a;
      assert forall i :: 0 <= i < |buf| ==> b[i] == buf[i];
    }
  }

  /** A friends-chat join is queued unless it is part of joining the channel, display is off, or the rank is too low. */
  predicate FriendsJoinShown(joinedTick: int, now: int, showJoinLeave: bool, rank: int, minRank: int)
  {
    joinedTick != now && showJoinLeave && rank >= minRank
  }

  /** clanChannelJoinLeaveEnabled */
  predicate ClanJoinLeaveEnabled(chatType: ChatType, clanShowJoinLeave: bool, guestShowJoinLeave: bool)
  {
    match chatType
    case ClanChat => clanShowJoinLeave
    case GuestChat => guestShowJoinLeave
    case FriendsChat => false
  }

  // ---------------------------------------------------------------------------
  // Draining the activity buffer

  /** An activity old enough to be announced. */
  predicate Stale(a: MemberActivity, now: int)
  {
    a.tick < now - MessageDelay
  }

  /** The entries addActivityMessages keeps, in order. */
  function Kept(buf: seq<MemberActivity>, now: int): (r: seq<MemberActivity>)
    ensures |r| <= |buf|
  {
    if buf == [] then []
    else Kept(Init(buf), now) + (if Stale(Last(buf), now) then [] else [Last(buf)])
  }

  /** The entries addActivityMessages removes and announces, in order. */
  function Drained(buf: seq<MemberActivity>, now: int): (r: seq<MemberActivity>)
    ensures |r| <= |buf|
  {
    if buf == [] then []
    else Drained(Init(buf), now) + (if Stale(Last(buf), now) then [Last(buf)] else [])
  }

  /**
   * addActivityMessages splits the buffer exactly by age: every entry kept is
   * at most MessageDelay ticks old, every entry drained is older, and together
   * they are the buffer (nothing lost or duplicated).
   */
  lemma {:induction false} DrainSplitsByAge(buf: seq<MemberActivity>, now: int)
    ensures forall a :: a in Kept(buf, now) ==> !Stale(a, now)
    ensures forall a :: a in Drained(buf, now) ==> Stale(a, now)
    ensures multiset(Kept(buf, now)) + multiset(Drained(buf, now)) == multiset(buf)
  {
    if buf != [] {
      var init, last := Init(buf), Last(buf);
      DrainSplitsByAge(init, now);
      assert buf == init + [last];
      assert multiset(buf) == multiset(init) + multiset{last};
      if Stale(last, now) {
        assert Kept(buf, now) == Kept(init, now) + [];
        assert Drained(buf, now) == Drained(init, now) + [last];
      } else {
        assert Kept(buf, now) == Kept(init, now) + [last];
        assert Drained(buf, now) == Drained(init, now) + [];
      }
    }
  }

  /** The join messages announcing the drained activities, in buffer order. */
  function Announcements(drained: seq<MemberActivity>, now: int,
                         announce: MemberActivity -> Option<MessageNode>, lineId: nat -> int): seq<MemberJoinMessage>
  {
    if drained == [] then []
    else
      var added := match announce(Last(drained))
        case Some(node) => [MemberJoinMessage(node, lineId(node.handle), now)]
        case None => [];
      Announcements(Init(drained), now, announce, lineId) + added
  }

  lemma {:induction false} AnnouncementsAt(drained: seq<MemberActivity>, now: int,
                                          announce: MemberActivity -> Option<MessageNode>, lineId: nat -> int)
    ensures |Announcements(drained, now, announce, lineId)| <= |drained|
    ensures forall m :: m in Announcements(drained, now, announce, lineId) ==> m.tick == now
  {
    if drained != [] {
      AnnouncementsAt(Init(drained), now, announce, lineId);
    }
  }

  // ---------------------------------------------------------------------------
  // Timing out join messages

  /** Ticks never decrease from the head of the deque to its tail. */
  ghost predicate NonDecreasing(msgs: seq<MemberJoinMessage>)
  {
    forall i, j :: 0 <= i <= j < |msgs| ==> msgs[i].tick <= msgs[j].tick
  }

  predicate Expired(msg: MemberJoinMessage, now: int, timeout: int)
  {
    now > msg.tick + timeout
  }

  /** How many messages timeoutMessages pops: the expired ones before the first unexpired one. */
  function ExpiredPrefix(msgs: seq<MemberJoinMessage>, now: int, timeout: int): (k: nat)
    ensures k <= |msgs|
    ensures forall j :: 0 <= j < k ==> Expired(msgs[j], now, timeout)
    ensures k < |msgs| ==> !Expired(msgs[k], now, timeout)
  {
    if msgs == [] || !Expired(msgs[0], now, timeout) then 0
    else 1 + ExpiredPrefix(msgs[1..], now, timeout)
  }

  /** The messages that are not expired, order kept. */
  function Unexpired(msgs: seq<MemberJoinMessage>, now: int, timeout: int): (r: seq<MemberJoinMessage>)
    ensures |r| <= |msgs|
  {
    if msgs == [] then []
    else (if Expired(msgs[0], now, timeout) then [] else [msgs[0]]) + Unexpired(msgs[1..], now, timeout)
  }

  lemma {:induction false} UnexpiredAll(msgs: seq<MemberJoinMessage>, now: int, timeout: int)
    requires forall j :: 0 <= j < |msgs| ==> !Expired(msgs[j], now, timeout)
    ensures Unexpired(msgs, now, timeout) == msgs
  {
    if msgs != [] {
      UnexpiredAll(msgs[1..], now, timeout);
      assert [msgs[0]] + msgs[1..] == msgs;
    }
  }

  /**
   * The early break of timeoutMessages is sound: in a deque whose ticks never
   * decrease, popping the expired prefix removes every expired message and
   * keeps every other one, in order.
   */
  lemma {:induction false} BreakIsSound(msgs: seq<MemberJoinMessage>, now: int, timeout: int)
    requires NonDecreasing(msgs)
    ensures msgs[ExpiredPrefix(msgs, now, timeout)..] == Unexpired(msgs, now, timeout)
  {
    if msgs != [] {
      if Expired(msgs[0], now, timeout) {
        var tail := msgs[1..];
        assert NonDecreasing(tail) by {
          forall i, j | 0 <= i <= j < |tail| ensures tail[i].tick <= tail[j].tick {
            assert tail[i] == msgs[i + 1] && tail[j] == msgs[j + 1];
          }
        }
        BreakIsSound(tail, now, timeout);
        var e := ExpiredPrefix(tail, now, timeout);
        assert msgs[1 + e..] == tail[e..];
      } else {
        assert forall j :: 0 <= j < |msgs| ==> msgs[0].tick <= msgs[j].tick;
        UnexpiredAll(msgs, now, timeout);
      }
    }
  }

  /** The chat line of an expired message is removed only if the node still holds that message. */
  predicate StillShown(msg: MemberJoinMessage, currentId: nat -> int, buffers: set<int>)
  {
    msg.messageId == currentId(msg.node.handle) && msg.node.lineType in buffers
  }

  /** The line removals made for the popped messages, in order. */
  function Removals(popped: seq<MemberJoinMessage>, currentId: nat -> int, buffers: set<int>): (r: seq<Effect>)
    ensures |r| <= |popped|
  {
    if popped == [] then []
    else
      var removal := if StillShown(Last(popped), currentId, buffers) then [RemoveLine(Last(popped).node)] else [];
      Removals(Init(popped), currentId, buffers) + removal
  }

  lemma {:induction false} RemovalsOnlyShown(popped: seq<MemberJoinMessage>, currentId: nat -> int, buffers: set<int>)
    ensures forall e :: e in Removals(popped, currentId, buffers) ==>
      exists m :: m in popped && StillShown(m, currentId, buffers) && e == RemoveLine(m.node)
  {
    if popped != [] {
      RemovalsOnlyShown(Init(popped), currentId, buffers);
      assert forall m :: m in Init(popped) ==> m in popped;
      assert Last(popped) in popped;
    }
  }

  lemma {:induction false} RemovalsNoWarnings(popped: seq<MemberJoinMessage>, currentId: nat -> int, buffers: set<int>)
    ensures WarningCount(Removals(popped, currentId, buffers)) == 0
  {
    if popped != [] {
      var init := Removals(Init(popped), currentId, buffers);
      RemovalsNoWarnings(Init(popped), currentId, buffers);
      if StillShown(Last(popped), currentId, buffers) {
        WarningCountAppend(init, [RemoveLine(Last(popped).node)]);
        assert Init([RemoveLine(Last(popped).node)]) == [];
      } else {
        assert init + [] == init;
      }
    }
  }

  lemma SuffixNonDecreasing(dropped: seq<MemberJoinMessage>, rest: seq<MemberJoinMessage>)
    requires NonDecreasing(dropped + rest)
    ensures NonDecreasing(rest)
  {
    forall i, j | 0 <= i <= j < |rest| ensures rest[i].tick <= rest[j].tick {
      assert rest[i] == (dropped + rest)[|dropped| + i];
      assert rest[j] == (dropped + rest)[|dropped| + j];
    }
  }

  lemma KeepsWarnings(base: seq<Effect>, popped: seq<MemberJoinMessage>, currentId: nat -> int, buffers: set<int>)
    ensures WarningCount(base + Removals(popped, currentId, buffers)) == WarningCount(base)
    ensures WarningCount(base + Removals(popped, currentId, buffers) + [RebuildChatbox]) == WarningCount(base)
  {
    var removals := Removals(popped, currentId, buffers);
    RemovalsNoWarnings(popped, currentId, buffers);
    WarningCountAppend(base, removals);
    assert Init(base + removals + [RebuildChatbox]) == base + removals;
  }

  /**
   * What timing out the join messages does to the plugin's invariant: the
   * messages left are still in tick order, and removing lines (then
   * rebuilding the chatbox if any went) adds no input warning.
   */
  lemma TimeoutKeepsInvariant(msgs: seq<MemberJoinMessage>, now: int, timeout: int,
                              base: seq<Effect>, currentId: nat -> int, buffers: set<int>)
    requires NonDecreasing(msgs)
    ensures var k := ExpiredPrefix(msgs, now, timeout);
      var removals := Removals(msgs[..k], currentId, buffers);
      && NonDecreasing(msgs[k..])
      && WarningCount(base + removals + (if removals != [] then [RebuildChatbox] else [])) == WarningCount(base)
  {
    var k := ExpiredPrefix(msgs, now, timeout);
    assert msgs == msgs[..k] + msgs[k..];
    SuffixNonDecreasing(msgs[..k], msgs[k..]);
    KeepsWarnings(base, msgs[..k], currentId, buffers);
    var removals := Removals(msgs[..k], currentId, buffers);
    if removals == [] {
      assert base + removals + [] == base + removals;
    }
  }

  lemma {:induction false} ExpiredPrefixOf(dropped: seq<MemberJoinMessage>, rest: seq<MemberJoinMessage>, now: int, timeout: int)
    requires forall j :: 0 <= j < |dropped| ==> Expired(dropped[j], now, timeout)
    requires rest != [] ==> !Expired(rest[0], now, timeout)
    ensures ExpiredPrefix(dropped + rest, now, timeout) == |dropped|
  {
    if dropped != [] {
      assert (dropped + rest)[1..] == dropped[1..] + rest;
      ExpiredPrefixOf(dropped[1..], rest, now, timeout);
    } else {
      assert dropped + rest == rest;
    }
  }

  // ---------------------------------------------------------------------------
  // The recent friends-chat list

  function Lower(c: char): char
  {
    if 'A' <= c <= 'Z' then (c as int - 'A' as int + 'a' as int) as char else c
  }

  /** String.equalsIgnoreCase, on ASCII letters. */
  predicate EqualsIgnoreCase(a: string, b: string)
  {
    |a| == |b| && forall i :: 0 <= i < |a| ==> Lower(a[i]) == Lower(b[i])
  }

  ghost predicate DistinctIgnoringCase(chats: seq<string>)
  {
    forall i, j :: 0 <= i < j < |chats| ==> !EqualsIgnoreCase(chats[i], chats[j])
  }

  /** chats.removeIf(name::equalsIgnoreCase) */
  function WithoutName(chats: seq<string>, name: string): (r: seq<string>)
    ensures |r| <= |chats|
  {
    if chats == [] then []
    else WithoutName(Init(chats), name) + (if EqualsIgnoreCase(name, Last(chats)) then [] else [Last(chats)])
  }

  /** Keep the newest MaxChats entries. */
  function Newest(chats: seq<string>): seq<string>
  {
    if |chats| > MaxChats then chats[|chats| - MaxChats..] else chats
  }

  /** The list updateRecentChat leaves for the normalised name `name`. */
  function RecentChats(chats: seq<string>, name: string): seq<string>
  {
    Newest(WithoutName(chats, name) + [name])
  }

  lemma {:induction false} WithoutNameFrom(chats: seq<string>, name: string)
    ensures forall c :: c in WithoutName(chats, name) ==> c in chats && !EqualsIgnoreCase(name, c)
  {
    if chats != [] {
      WithoutNameFrom(Init(chats), name);
      assert forall c :: c in Init(chats) ==> c in chats;
      assert Last(chats) in chats;
    }
  }

  lemma {:induction false} WithoutNameKeepsDistinct(chats: seq<string>, name: string)
    requires DistinctIgnoringCase(chats)
    ensures DistinctIgnoringCase(WithoutName(chats, name))
  {
    if chats != [] {
      var init := Init(chats);
      assert forall i, j :: 0 <= i < j < |init| ==> init[i] == chats[i] && init[j] == chats[j];
      WithoutNameKeepsDistinct(init, name);
      if !EqualsIgnoreCase(name, Last(chats)) {
        var w := WithoutName(init, name);
        var r := w + [Last(chats)];
        WithoutNameFrom(init, name);
        forall i, j | 0 <= i < j < |r| ensures !EqualsIgnoreCase(r[i], r[j]) {
          if j == |w| {
            assert r[i] == w[i] && w[i] in init;
            var k :| 0 <= k < |init| && init[k] == w[i];
            assert chats[k] == r[i] && chats[|chats| - 1] == r[j];
          } else {
            assert r[i] == w[i] && r[j] == w[j];
          }
        }
      }
    }
  }

  /**
   * After updateRecentChat the name is the newest entry, no other entry equals
   * it ignoring case, at most MaxChats entries remain, and it is the newest
   * MaxChats of (the old list without the name, then the name): the oldest
   * entries are dropped first.
   */
  lemma RecentChatsNewestLast(chats: seq<string>, name: string)
    ensures var r := RecentChats(chats, name);
      var all := WithoutName(chats, name) + [name];
      && 0 < |r| <= MaxChats && r[|r| - 1] == name
      && (forall i :: 0 <= i < |r| - 1 ==> !EqualsIgnoreCase(name, r[i]))
      && |r| == (if |all| > MaxChats then MaxChats else |all|)
      && r == all[|all| - |r|..]
  {
    var w := WithoutName(chats, name);
    var all := w + [name];
    var r := RecentChats(chats, name);
    WithoutNameFrom(chats, name);
    forall i | 0 <= i < |r| - 1 ensures !EqualsIgnoreCase(name, r[i]) {
      var k := |all| - |r| + i;
      assert r[i] == all[k] && k < |w|;
      assert all[k] == w[k] && w[k] in w;
    }
  }

  /** A list without case-insensitive duplicates stays without them. */
  lemma RecentChatsKeepsDistinct(chats: seq<string>, name: string)
    requires DistinctIgnoringCase(chats)
    ensures DistinctIgnoringCase(RecentChats(chats, name))
  {
    var w := WithoutName(chats, name);
    var all := w + [name];
    WithoutNameKeepsDistinct(chats, name);
    WithoutNameFrom(chats, name);
    assert DistinctIgnoringCase(all) by {
      forall i, j | 0 <= i < j < |all| ensures !EqualsIgnoreCase(all[i], all[j]) {
        if j == |w| {
          assert all[i] == w[i] && w[i] in w;
          assert !EqualsIgnoreCase(name, all[i]);
        } else {
          assert all[i] == w[i] && all[j] == w[j];
        }
      }
    }
    var r := RecentChats(chats, name);
    var d := |all| - |r|;
    forall i, j | 0 <= i < j < |r| ensures !EqualsIgnoreCase(r[i], r[j]) {
      assert r[i] == all[d + i] && r[j] == all[d + j];
    }
  }

  // ---------------------------------------------------------------------------
  // Typing mode

  datatype TypingState = TypingState(inputMode: Option<InputMode>, inputWarning: bool)

  /** The effect of one preChatSendpublic callback. */
  datatype SendResult = SendResult(next: TypingState, effects: seq<Effect>, redirect: Option<ChatMessageType>)

  function MessageType(mode: InputMode): ChatMessageType
  {
    match mode
    case Friend => FriendsChatMessage
    case Clan => ClanChatMessage
    case Guest => ClanGuestChatMessage
  }

  /** switchTypingMode */
  function TypingSwitch(t: TypingState, mode: Option<InputMode>): (r: SendResult)
    ensures r.next.inputMode == mode && r.redirect == None
    ensures r.next.inputWarning <==> t.inputWarning || mode.Some?
    ensures r.effects == [ClearTypedText] + (if mode.Some? && !t.inputWarning then [QueueWarning(mode.value)] else [])
  {
    if mode.Some? && !t.inputWarning then
      SendResult(TypingState(mode, true), [ClearTypedText, QueueWarning(mode.value)], None)
    else
      SendResult(TypingState(mode, t.inputWarning), [ClearTypedText], None)
  }

  /**
   * The preChatSendpublic script callback: "/p", "/f", "/c" and "/g" switch the
   * typing mode (public, friends, clan, guest clan); any other text is sent to
   * the current mode's channel when a mode is set.
   */
  function PreChatSendPublic(t: TypingState, targetMode: bool, typed: string): (r: SendResult)
    ensures !targetMode ==> r == SendResult(t, [], None)
    ensures targetMode && typed == "/p" ==> r.next.inputMode == None
    ensures targetMode && typed == "/f" ==> r.next.inputMode == Some(Friend)
    ensures targetMode && typed == "/c" ==> r.next.inputMode == Some(Clan)
    ensures targetMode && typed == "/g" ==> r.next.inputMode == Some(Guest)
    ensures r.redirect.Some? <==> targetMode && typed !in {"/p", "/f", "/c", "/g"} && t.inputMode.Some?
    ensures r.redirect.Some? ==> r.redirect.value == MessageType(t.inputMode.value) && r.next == t && r.effects == []
  {
    if !targetMode then SendResult(t, [], None)
    else if typed == "/p" then TypingSwitch(t, None)
    else if typed == "/f" then TypingSwitch(t, Some(Friend))
    else if typed == "/c" then TypingSwitch(t, Some(Clan))
    else if typed == "/g" then TypingSwitch(t, Some(Guest))
    else if t.inputMode.Some? then SendResult(t, [], Some(MessageType(t.inputMode.value)))
    else SendResult(t, [], None)
  }

  function WarningCount(effects: seq<Effect>): (n: nat)
    ensures n <= |effects|
  {
    if effects == [] then 0
    else WarningCount(Init(effects)) + (if Last(effects).QueueWarning? then 1 else 0)
  }

  lemma {:induction false} WarningCountAppend(a: seq<Effect>, b: seq<Effect>)
    ensures WarningCount(a + b) == WarningCount(a) + WarningCount(b)
    decreases |b|
  {
    if b == [] {
      assert a + b == a;
    } else {
      assert Init(a + b) == a + Init(b);
      WarningCountAppend(a, Init(b));
    }
  }

  lemma SendWarnings(t: TypingState, targetMode: bool, typed: string)
    ensures var r := PreChatSendPublic(t, targetMode, typed);
      && WarningCount(r.effects) == (if !t.inputWarning && r.next.inputWarning then 1 else 0)
      && (t.inputWarning ==> r.next.inputWarning)
  {
    var r := PreChatSendPublic(t, targetMode, typed);
    if r.effects == [] {
    } else if |r.effects| == 1 {
      assert Init(r.effects) == [];
    } else {
      assert Init(r.effects) == [ClearTypedText];
      assert Init(Init(r.effects)) == [];
    }
  }

  /** Run a sequence of typed commands through preChatSendpublic. */
  function Typing(t: TypingState, targetMode: bool, typed: seq<string>): (r: (TypingState, seq<Effect>))
    decreases |typed|
  {
    if typed == [] then (t, [])
    else
      var step := PreChatSendPublic(t, targetMode, typed[0]);
      var rest := Typing(step.next, targetMode, typed[1..]);
      (rest.0, step.effects + rest.1)
  }

  /**
   * The typing-mode notice is queued at most once over any sequence of
   * callbacks, and never again once it has been shown.
   */
  lemma {:induction false} WarnedAtMostOnce(t: TypingState, targetMode: bool, typed: seq<string>)
    ensures WarningCount(Typing(t, targetMode, typed).1) <= (if t.inputWarning then 0 else 1)
    ensures t.inputWarning ==> Typing(t, targetMode, typed).0.inputWarning
    decreases |typed|
  {
    if typed != [] {
      var step := PreChatSendPublic(t, targetMode, typed[0]);
      WarnedAtMostOnce(step.next, targetMode, typed[1..]);
      WarningCountAppend(step.effects, Typing(step.next, targetMode, typed[1..]).1);
      SendWarnings(t, targetMode, typed[0]);
    }
  }

  // ---------------------------------------------------------------------------
  // The two loops of the plugin, over the deque and over the buffer

  /**
   * The loop of timeoutMessages: pop expired messages from the head of the
   * deque, stopping at the first unexpired one, and collect the removal of
   * each popped line its node still holds.
   */
  method PopExpired(msgs: seq<MemberJoinMessage>, now: int, timeout: int, currentId: nat -> int, buffers: set<int>)
    returns (queue: seq<MemberJoinMessage>, removals: seq<Effect>)
    ensures queue == msgs[ExpiredPrefix(msgs, now, timeout)..]
    ensures removals == Removals(msgs[..ExpiredPrefix(msgs, now, timeout)], currentId, buffers)
  {
    queue := msgs;
    removals := [];
    ghost var popped: seq<MemberJoinMessage> := [];
    while queue != []
      invariant msgs == popped + queue
      invariant forall j :: 0 <= j < |popped| ==> Expired(popped[j], now, timeout)
      invariant removals == Removals(popped, currentId, buffers)
      decreases |queue|
    {
      var joinMessage := queue[0];
      if now > joinMessage.tick + timeout {
        assert queue == [joinMessage] + queue[1..];
        queue := queue[1..];
        ghost var before := popped;
        popped := popped + [joinMessage];
        assert Init(popped) == before && Last(popped) == joinMessage;
        // a line reused since has a different id
        if joinMessage.messageId == currentId(joinMessage.node.handle) && joinMessage.node.lineType in buffers {
          removals := removals + [RemoveLine(joinMessage.node)];
        }
      } else {
        // everything after it is newer
        break;
      }
    }
    ExpiredPrefixOf(popped, queue, now, timeout);
    assert popped == msgs[..|popped|];
  }

  /**
   * The loop of addActivityMessages: split the buffer into the activities
   * kept and the stale ones, and collect, in buffer order, a join message for
   * each stale activity the client announces.
   */
  method DrainActivities(buf: seq<MemberActivity>, now: int, announce: MemberActivity -> Option<MessageNode>, lineId: nat -> int)
    returns (kept: seq<MemberActivity>, added: seq<MemberJoinMessage>)
    ensures kept == Kept(buf, now)
    ensures added == Announcements(Drained(buf, now), now, announce, lineId)
  {
    kept := [];
    added := [];
    var i := 0;
    while i < |buf|
      invariant 0 <= i <= |buf|
      invariant kept == Kept(buf[..i], now)
      invariant added == Announcements(Drained(buf[..i], now), now, announce, lineId)
    {
      var activity := buf[i];
      assert Init(buf[..i + 1]) == buf[..i] && Last(buf[..i + 1]) == activity;
      if activity.tick < now - MessageDelay {
        assert Drained(buf[..i + 1], now) == Drained(buf[..i], now) + [activity];
        assert Init(Drained(buf[..i], now) + [activity]) == Drained(buf[..i], now);
        match announce(activity) {
          case Some(line) =>
            added := added + [MemberJoinMessage(line, lineId(line.handle), now)];
          case None =>
        }
      } else {
        assert Drained(buf[..i + 1], now) == Drained(buf[..i], now);
        kept := kept + [activity];
      }
      i := i + 1;
    }
    assert buf[..i] == buf;
  }

  // ---------------------------------------------------------------------------
  // The plugin object

  class ChatChannelPlugin {
    /** Recent friends chats, oldest first. */
    var chats: seq<string>
    /** Join/leave lines shown in the chat box, oldest first. */
    var joinMessages: seq<MemberJoinMessage>
    /** Pending joins and leaves, in insertion order, one per member. */
    var activityBuffer: seq<MemberActivity>
    var joinedTick: int
    var inputMode: Option<InputMode>
    var inputWarning: bool
    /** What the plugin did to the client, oldest first. */
    var effects: seq<Effect>

    ghost predicate Valid()
      reads this`joinMessages, this`activityBuffer, this`effects, this`inputWarning
    {
      && NonDecreasing(joinMessages)
      && UniqueKeys(activityBuffer)
      && WarningCount(effects) <= (if inputWarning then 1 else 0)
    }

    /** startup: the recent-chat list is read from the configuration. */
    constructor (savedChats: seq<string>)
      ensures Valid()
      ensures chats == savedChats && joinMessages == [] && activityBuffer == []
      ensures joinedTick == 0 && inputMode == None && !inputWarning && effects == []
    {
      chats := savedChats;
      joinMessages := [];
      activityBuffer := [];
      joinedTick := 0;
      inputMode := None;
      inputWarning := false;
      effects := [];
    }

    method QueueJoin(member: Member, chatType: ChatType, now: int)
      requires Valid()
      modifies this`activityBuffer
      ensures Valid()
      ensures activityBuffer == Toggle(old(activityBuffer), MemberActivity(Joined, chatType, member, now))
    {
      ToggleFlipsMember(activityBuffer, MemberActivity(Joined, chatType, member, now), member);
      if !HasMember(activityBuffer, member) {
        activityBuffer := activityBuffer + [MemberActivity(Joined, chatType, member, now)];
      } else {
        activityBuffer := Without(activityBuffer, member);
      }
    }

    method QueueLeave(member: Member, chatType: ChatType, now: int)
      requires Valid()
      modifies this`activityBuffer
      ensures Valid()
      ensures activityBuffer == Toggle(old(activityBuffer), MemberActivity(Left, chatType, member, now))
    {
      ToggleFlipsMember(activityBuffer, MemberActivity(Left, chatType, member, now), member);
      if !HasMember(activityBuffer, member) {
        activityBuffer := activityBuffer + [MemberActivity(Left, chatType, member, now)];
      } else {
        activityBuffer := Without(activityBuffer, member);
      }
    }

    method OnFriendsChatMemberJoined(member: Member, now: int, showJoinLeave: bool, minRank: int)
      requires Valid()
      modifies this`activityBuffer
      ensures Valid()
      ensures activityBuffer == if FriendsJoinShown(joinedTick, now, showJoinLeave, member.rank, minRank)
        then Toggle(old(activityBuffer), MemberActivity(Joined, FriendsChat, member, now))
        else old(activityBuffer)
    {
      // members getting initialised on joining the channel are not announced
      if joinedTick == now {
        return;
      }
      if !showJoinLeave || member.rank < minRank {
        return;
      }
      QueueJoin(member, FriendsChat, now);
    }

    method OnFriendsChatMemberLeft(member: Member, now: int, showJoinLeave: bool, minRank: int)
      requires Valid()
      modifies this`activityBuffer
      ensures Valid()
      ensures activityBuffer == if showJoinLeave && member.rank >= minRank
        then Toggle(old(activityBuffer), MemberActivity(Left, FriendsChat, member, now))
        else old(activityBuffer)
    {
      if !showJoinLeave || member.rank < minRank {
        return;
      }
      QueueLeave(member, FriendsChat, now);
    }

    /** onClanMemberJoined; `chatType` is None when the channel is neither the clan nor the guest clan. */
    method OnClanMemberJoined(member: Member, chatType: Option<ChatType>, now: int, clanShow: bool, guestShow: bool)
      requires Valid()
      modifies this`activityBuffer
      ensures Valid()
      ensures activityBuffer == if chatType.Some? && ClanJoinLeaveEnabled(chatType.value, clanShow, guestShow)
        then Toggle(old(activityBuffer), MemberActivity(Joined, chatType.value, member, now))
        else old(activityBuffer)
    {
      if chatType.Some? && ClanJoinLeaveEnabled(chatType.value, clanShow, guestShow) {
        QueueJoin(member, chatType.value, now);
      }
    }

    method OnClanMemberLeft(member: Member, chatType: Option<ChatType>, now: int, clanShow: bool, guestShow: bool)
      requires Valid()
      modifies this`activityBuffer
      ensures Valid()
      ensures activityBuffer == if chatType.Some? && ClanJoinLeaveEnabled(chatType.value, clanShow, guestShow)
        then Toggle(old(activityBuffer), MemberActivity(Left, chatType.value, member, now))
        else old(activityBuffer)
    {
      if chatType.Some? && ClanJoinLeaveEnabled(chatType.value, clanShow, guestShow) {
        QueueLeave(member, chatType.value, now);
      }
    }

    /**
     * timeoutMessages: pop expired join lines from the head of the deque,
     * stopping at the first unexpired one; remove a popped line from the chat
     * box only if its node still holds it, and ask for a rebuild if any was
     * removed.  `currentId` gives a node's id now; `buffers` the line types
     * that have a chat-line buffer.
     */
    method TimeoutMessages(now: int, timeout: int, currentId: nat -> int, buffers: set<int>)
      requires Valid()
      modifies this`joinMessages, this`effects
      ensures Valid()
      ensures old(joinMessages) == [] || timeout == 0 ==>
        joinMessages == old(joinMessages) && effects == old(effects)
      ensures old(joinMessages) != [] && timeout != 0 ==>
        var k := ExpiredPrefix(old(joinMessages), now, timeout);
        var removals := Removals(old(joinMessages)[..k], currentId, buffers);
        && joinMessages == old(joinMessages)[k..]
        && effects == old(effects) + removals + (if removals != [] then [RebuildChatbox] else [])
    {
      if joinMessages == [] {
        return;
      }
      if timeout == 0 {
        return;
      }

      TimeoutKeepsInvariant(joinMessages, now, timeout, effects, currentId, buffers);
      var rest, removals := PopExpired(joinMessages, now, timeout, currentId, buffers);
      joinMessages := rest;
      effects := effects + removals + (if removals != [] then [RebuildChatbox] else []);
    }

    /**
     * addActivityMessages: remove, in insertion order, the activities more than
     * MessageDelay ticks old and add a join/leave line for each one the client
     * accepts.  `announce` is the line the client adds for an activity (None
     * when the friends-chat manager, the clan settings or the member's rank is
     * missing); `lineId` gives a new line's id.
     */
    method AddActivityMessages(now: int, announce: MemberActivity -> Option<MessageNode>, lineId: nat -> int)
      requires Valid()
      requires forall m :: m in joinMessages ==> m.tick <= now  // the client's tick count never decreases
      modifies this`activityBuffer, this`joinMessages
      ensures Valid()
      ensures activityBuffer == Kept(old(activityBuffer), now)
      ensures joinMessages == old(joinMessages) + Announcements(Drained(old(activityBuffer), now), now, announce, lineId)
    {
      if activityBuffer == [] {
        return;
      }

      var kept, added := DrainActivities(activityBuffer, now, announce, lineId);
      KeptKeepsUnique(activityBuffer, now);
      AnnouncementsAt(Drained(activityBuffer, now), now, announce, lineId);
      AppendSameTick(joinMessages, added, now);
      activityBuffer := kept;
      joinMessages := joinMessages + added;
    }

    method OnGameStateChanged(gameState: GameState)
      requires Valid()
      modifies this`joinMessages
      ensures Valid()
      ensures joinMessages == if gameState in {LoginScreen, ConnectionLost, Hopping} then [] else old(joinMessages)
    {
      if gameState == LoginScreen || gameState == ConnectionLost || gameState == Hopping {
        joinMessages := [];
      }
    }

    method OnFriendsChatChanged(joined: bool, now: int)
      requires Valid()
      modifies this`joinedTick, this`activityBuffer
      ensures Valid()
      ensures joinedTick == if joined then now else old(joinedTick)
      ensures activityBuffer == []
    {
      if joined {
        joinedTick := now;
      }
      activityBuffer := [];
    }

    /**
     * updateRecentChat: `s` is the friends chat just joined (None for null);
     * `toJagexName` normalises a display name.
     */
    method UpdateRecentChat(s: Option<string>, toJagexName: string -> string)
      requires Valid()
      modifies this`chats, this`effects
      ensures Valid()
      ensures s == None || s == Some("") ==> chats == old(chats) && effects == old(effects)
      ensures s != None && s != Some("") ==>
        && chats == RecentChats(old(chats), toJagexName(s.value))
        && effects == old(effects) + [SaveChats(chats)]
    {
      if s == None || s == Some("") {
        return;
      }
      var name := toJagexName(s.value);

      var remaining: seq<string> := [];
      var i := 0;
      while i < |chats|
        invariant 0 <= i <= |chats| && chats == old(chats) && effects == old(effects)
        invariant remaining == WithoutName(chats[..i], name)
      {
        assert Init(chats[..i + 1]) == chats[..i] && Last(chats[..i + 1]) == chats[i];
        if !EqualsIgnoreCase(name, chats[i]) {
          remaining := remaining + [chats[i]];
        }
        i := i + 1;
      }
      assert chats[..i] == chats;
      chats := remaining + [name];

      ghost var all := chats;
      while |chats| > MaxChats
        invariant chats == all[|all| - |chats|..]
        invariant |chats| >= (if |all| > MaxChats then MaxChats else |all|)
        invariant effects == old(effects)
      {
        chats := chats[1..];
      }

      WarningCountAppend(effects, [SaveChats(chats)]);
      effects := effects + [SaveChats(chats)];
    }

    method SwitchTypingMode(mode: Option<InputMode>)
      requires Valid()
      modifies this`inputMode, this`inputWarning, this`effects
      ensures Valid()
      ensures var r := TypingSwitch(old(TypingState(inputMode, inputWarning)), mode);
        TypingState(inputMode, inputWarning) == r.next && effects == old(effects) + r.effects
    {
      inputMode := mode;
      WarningCountAppend(effects, [ClearTypedText]);
      effects := effects + [ClearTypedText];

      if mode.Some? && !inputWarning {
        inputWarning := true;
        WarningCountAppend(effects, [QueueWarning(mode.value)]);
        effects := effects + [QueueWarning(mode.value)];
      }
    }

    /** The "preChatSendpublic" branch of onScriptCallbackEvent; `redirect` is the chat type written to the int stack. */
    method OnPreChatSendPublic(targetMode: bool, typed: string) returns (redirect: Option<ChatMessageType>)
      requires Valid()
      modifies this`inputMode, this`inputWarning, this`effects
      ensures Valid()
      ensures var r := PreChatSendPublic(old(TypingState(inputMode, inputWarning)), targetMode, typed);
        TypingState(inputMode, inputWarning) == r.next && effects == old(effects) + r.effects && redirect == r.redirect
    {
      redirect := None;
      if !targetMode {
        return;
      }
      if typed == "/p" {
        SwitchTypingMode(None);
      } else if typed == "/f" {
        SwitchTypingMode(Some(Friend));
      } else if typed == "/c" {
        SwitchTypingMode(Some(Clan));
      } else if typed == "/g" {
        SwitchTypingMode(Some(Guest));
      } else if inputMode.Some? {
        redirect := Some(MessageType(inputMode.value));
      }
    }
  }

  lemma {:induction false} KeptKeepsUnique(buf: seq<MemberActivity>, now: int)
    requires UniqueKeys(buf)
    ensures UniqueKeys(Kept(buf, now))
  {
    if buf != [] {
      var init := Init(buf);
      assert forall i :: 0 <= i < |init| ==> init[i] == buf[i];
      KeptKeepsUnique(init, now);
      KeptFrom(init, now);
      var k := Kept(init, now);
      if !Stale(Last(buf), now) {
        var r := k + [Last(buf)];
        forall i, j | 0 <= i < j < |r| ensures r[i].member != r[j].member {
          if j == |k| {
            assert r[i] == k[i] && k[i] in init;
          } else {
            assert r[i] == k[i] && r[j] == k[j];
          }
        }
      }
    }
  }

  lemma {:induction false} KeptFrom(buf: seq<MemberActivity>, now: int)
    ensures forall a :: a in Kept(buf, now) ==> a in buf
  {
    if buf != [] {
      KeptFrom(Init(buf), now);
      assert forall a :: a in Init(buf) ==> a in buf;
      assert Last(buf) in buf;
    }
  }

  lemma AppendSameTick(msgs: seq<MemberJoinMessage>, added: seq<MemberJoinMessage>, now: int)
    requires NonDecreasing(msgs)
    requires forall m :: m in msgs ==> m.tick <= now
    requires forall m :: m in added ==> m.tick == now
    ensures NonDecreasing(msgs + added)
  {
    var r := msgs + added;
    forall i | 0 <= i < |r| - 1 ensures r[i].tick <= r[i + 1].tick {
      if i + 1 < |msgs| {
        assert r[i] == msgs[i] && r[i + 1] == msgs[i + 1];
      } else if i + 1 == |msgs| {
        assert r[i] == msgs[i] && r[i + 1] == added[0];
        assert added[0] in added && msgs[i] in msgs;
      } else {
        assert r[i] == added[i - |msgs|] && r[i + 1] == added[i + 1 - |msgs|];
        assert added[i - |msgs|] in added && added[i + 1 - |msgs|] in added;
      }
    }
  }
}
