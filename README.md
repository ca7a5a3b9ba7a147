# MeteorLite client core, modelled in Dafny

This project models five sequential pieces of the MeteorLite Old School
RuneScape client and proves properties about them:

- **Per-frame dispatcher** (`meteor.callback.Hooks`, module `Callback`).
  It has a one-shot "process game tick" flag, a "skip the next NPC update"
  flag and a rate-limit timestamp. `clientMainLoop` does three things:
  - it replays deferred events and publishes `GAME_TICK` when the flag is armed;
  - it always publishes `BEFORE_RENDER`;
  - it runs the maintenance pass (scheduler, info boxes, chat messages,
    world map) at most once per game tick, inside one try block.

  `clearColorBuffer` zeroes a rectangle of a flat pixel array in place.
  The event bus, the deferred event bus, the scheduler, the client thread
  and the managers are collaborators; each call made on them is appended
  to an ordered trace of `Call`s. The clock is a parameter, and so is the
  maintenance step that throws.
- **Chat-channel plugin** (`meteor.plugins.chatchannel.ChatChannelPlugin`,
  module `ChatChannel`). It holds:
  - the join/leave activity buffer, an insertion-ordered map kept as a
    sequence with one entry per member;
  - the deque of join/leave lines, pruned from its head once they time out;
  - the age-based draining of the buffer;
  - the bounded, case-insensitively de-duplicated recent-chat list;
  - the typing-mode state machine of the `preChatSendpublic` callback.

  What the plugin does to the client is appended to a trace of `Effect`s.
- **World-map view state** (`osrs.WorldMap`, module `Osrs`). It covers:
  - scrolling toward a target tile;
  - the zoom table;
  - element flashing;
  - the enabled element and category sets and their union;
  - the nearest-icon search;
  - the enter/stay/leave icon events of `onCycle`;
  - the icon iterator.
- **Bank helpers** (`meteor.plugins.api.items.Bank`, module `Bank`). They
  cover:
  - container listing;
  - the `WithdrawOption.ofAmount` decision table and its menu entries;
  - the interface actions of `deposit` and `withdraw`;
  - the quantity-mode varbit mapping;
  - `getFreeSlots`.
- **Equipment helpers** (`meteor.plugins.api.items.Equipment`, module
  `Equipment`). They cover the equipment listing and the lookup from an
  item's slot to its equipment-slot widget.

Module `Items` holds the item record and the validity test that the two
item helpers share. It also holds `Select`, the order-keeping filter both
of them end with. Module `Wrappers` holds `Option`, and module `GameStates`
holds the client's game states.

Fields that the source updates in place are fields of Dafny classes:
`Callback.Hooks`, `ChatChannel.ChatChannelPlugin` and `Osrs.WorldMap`.
Their methods are proved to leave the state that a pure function of the
old state describes, and the listed properties are proved about those
functions. Item containers are arrays that the listing loops overwrite
entry by entry, as the source does to its item objects.

## Model

| member | source | states |
|---|---|---|
| Callback.Attempted | meteor-client/src/main/java/meteor/callback/Hooks.java:237-249 | The maintenance steps entered are a prefix of scheduler, info boxes, chat messages, world map. It is all four when nothing throws; otherwise it ends at the step that throws, which appears only there. |
| Callback.PassCalls | meteor-client/src/main/java/meteor/callback/Hooks.java:237-249 | The maintenance pass makes only maintenance calls. |
| Callback.MainLoop | meteor-client/src/main/java/meteor/callback/Hooks.java:213-250 | One frame raises the tick count by exactly one when the flag was armed and by nothing otherwise. It always clears the flag and leaves the ignore flag alone. It moves lastCheck to now only when at least Check has passed. |
| Callback.NpcUpdateStep | meteor-client/src/main/java/meteor/callback/Hooks.java:386-403 | updateNpcs always replays. If the ignore flag was set, it clears that flag and does not arm the tick flag; otherwise it arms the tick flag and changes nothing else. |
| Callback.GameStateChanged | meteor-client/src/main/java/meteor/callback/Hooks.java:376-383 | The ignore flag is set after LOGGING_IN or HOPPING and is otherwise unchanged. No other field changes. |
| Callback.ScriptCallback | meteor-client/src/main/java/meteor/callback/Hooks.java:486-504 | Only a "fakeXpDrop" callback publishes anything. It publishes one FakeXpDrop made of the two top int-stack values. |
| Callback.MaintenanceOfPass | meteor-client/src/main/java/meteor/callback/Hooks.java:237-249 | The maintenance steps recorded by a pass are exactly the steps attempted. |
| Callback.GameTickOnlyWhenArmed | meteor-client/src/main/java/meteor/callback/Hooks.java:214-223 | An armed frame replays once, first, and publishes GAME_TICK once, second. An unarmed frame does neither. |
| Callback.RenderSlot | meteor-client/src/main/java/meteor/callback/Hooks.java:225-227 | In any frame prefix followed only by maintenance calls, BEFORE_RENDER occurs exactly once, after the tick calls. clientThread.invoke follows it directly. |
| Callback.BeforeRenderOncePerFrame | meteor-client/src/main/java/meteor/callback/Hooks.java:225-227 | Every frame publishes BEFORE_RENDER exactly once, after any replay or GAME_TICK. clientThread.invoke follows it directly. |
| Callback.MaintenanceRateLimited | meteor-client/src/main/java/meteor/callback/Hooks.java:229-249 | A frame within Check of lastCheck enters no maintenance step. Otherwise it enters the fixed pass order, cut short after the step that throws. |
| Callback.TicksBounded | meteor-client/src/main/java/meteor/callback/Hooks.java:214-223 | Over any sequence of hook calls, the tick count never falls and rises by at most one per frame. Its rise plus a still-armed flag is at most the number of arming updateNpcs calls plus the initial flag. |
| Callback.RunMaintenance | meteor-client/src/main/java/meteor/callback/Hooks.java:237-249 | The try block enters the steps in order and stops after the one that throws. |
| Callback.Hooks.constructor | meteor-client/src/main/java/meteor/callback/Hooks.java:109-132 | Both flags start clear, and the dispatcher registers itself on the event bus. |
| Callback.Hooks.Post | meteor-client/src/main/java/meteor/callback/Hooks.java:203-205 | post hands the event to the event bus and does nothing else. |
| Callback.Hooks.PostDeferred | meteor-client/src/main/java/meteor/callback/Hooks.java:208-210 | postDeferred hands the event to the deferred bus and does nothing else. |
| Callback.Hooks.ClientMainLoop | meteor-client/src/main/java/meteor/callback/Hooks.java:213-250 | The fields and the trace after clientMainLoop are exactly what MainLoop gives. |
| Callback.Hooks.OnGameStateChanged | meteor-client/src/main/java/meteor/callback/Hooks.java:376-383 | The fields follow GameStateChanged. |
| Callback.Hooks.UpdateNpcs | meteor-client/src/main/java/meteor/callback/Hooks.java:386-403 | The fields and the trace follow NpcUpdateStep. |
| Callback.Hooks.OnScriptCallbackEvent | meteor-client/src/main/java/meteor/callback/Hooks.java:486-504 | The trace grows by exactly ScriptCallback's calls. |
| Callback.ClearedNextRow | meteor-client/src/main/java/meteor/callback/Hooks.java:169-183 | A pixel cleared by the rows done so far, or by the columns done so far of the current row, is cleared once that row is finished. |
| Callback.ClearColorBuffer | meteor-client/src/main/java/meteor/callback/Hooks.java:169-183 | Every pixel of the rectangle [x, x+width) × [y, y+height) is 0 afterwards. Every other pixel is unchanged, and `color` plays no part. |
| ChatChannel.HasMember | meteor-client/src/main/java/meteor/plugins/chatchannel/ChatChannelPlugin.java:253 | containsKey holds iff some entry belongs to the member. |
| ChatChannel.WithoutMembers | meteor-client/src/main/java/meteor/plugins/chatchannel/ChatChannelPlugin.java:261-263 | After remove(m), exactly the other members still have entries. |
| ChatChannel.WithoutAbsent | meteor-client/src/main/java/meteor/plugins/chatchannel/ChatChannelPlugin.java:261-263 | Removing a member without an entry changes nothing. |
| ChatChannel.WithoutKeepsUnique | meteor-client/src/main/java/meteor/plugins/chatchannel/ChatChannelPlugin.java:261-263 | remove keeps the buffer a map, with one entry per member. |
| ChatChannel.JoinThenLeaveCancels | meteor-client/src/main/java/meteor/plugins/chatchannel/ChatChannelPlugin.java:251-278 | A join then a leave of a member that had no entry leave the buffer exactly as it was. |
| ChatChannel.ToggleFlipsMember | meteor-client/src/main/java/meteor/plugins/chatchannel/ChatChannelPlugin.java:251-278 | queueJoin and queueLeave flip whether the member has an entry, leave every other member's entry as it was, and keep one entry per member. |
| ChatChannel.DrainSplitsByAge | meteor-client/src/main/java/meteor/plugins/chatchannel/ChatChannelPlugin.java:355-383 | addActivityMessages keeps exactly the entries at most MESSAGE_DELAY ticks old and drains exactly the older ones. Kept plus drained is the buffer as a multiset. |
| ChatChannel.AnnouncementsAt | meteor-client/src/main/java/meteor/plugins/chatchannel/ChatChannelPlugin.java:427-432 | At most one line is added per drained activity, and each carries the current tick. |
| ChatChannel.ExpiredPrefix | meteor-client/src/main/java/meteor/plugins/chatchannel/ChatChannelPlugin.java:321-347 | The number popped counts only expired messages and stops at the first unexpired one. |
| ChatChannel.UnexpiredAll | meteor-client/src/main/java/meteor/plugins/chatchannel/ChatChannelPlugin.java:321-347 | A deque with nothing expired has no expired message to drop. |
| ChatChannel.BreakIsSound | meteor-client/src/main/java/meteor/plugins/chatchannel/ChatChannelPlugin.java:342-346 | In a tick-ordered deque, popping the expired prefix and then breaking removes exactly the expired messages, keeping the rest in order. |
| ChatChannel.RemovalsOnlyShown | meteor-client/src/main/java/meteor/plugins/chatchannel/ChatChannelPlugin.java:331-340 | A line is removed only for a popped message whose node still has the stored id and whose line type has a buffer. |
| ChatChannel.RemovalsNoWarnings | meteor-client/src/main/java/meteor/plugins/chatchannel/ChatChannelPlugin.java:331-340 | Removing lines queues no typing-mode warning. |
| ChatChannel.SuffixNonDecreasing | meteor-client/src/main/java/meteor/plugins/chatchannel/ChatChannelPlugin.java:321-347 | What is left after popping the head of a tick-ordered deque is still tick-ordered. |
| ChatChannel.KeepsWarnings | meteor-client/src/main/java/meteor/plugins/chatchannel/ChatChannelPlugin.java:331-352 | Line removals and the chat-box rebuild queue no typing-mode warning. |
| ChatChannel.TimeoutKeepsInvariant | meteor-client/src/main/java/meteor/plugins/chatchannel/ChatChannelPlugin.java:306-353 | timeoutMessages leaves the deque tick-ordered and queues no typing-mode warning. |
| ChatChannel.ExpiredPrefixOf | meteor-client/src/main/java/meteor/plugins/chatchannel/ChatChannelPlugin.java:321-347 | Expired messages followed by an unexpired head are popped exactly. |
| ChatChannel.WithoutNameFrom | meteor-client/src/main/java/meteor/plugins/chatchannel/ChatChannelPlugin.java:756 | removeIf keeps only entries of the old list that differ from the name ignoring case. |
| ChatChannel.WithoutNameKeepsDistinct | meteor-client/src/main/java/meteor/plugins/chatchannel/ChatChannelPlugin.java:756 | removeIf keeps a list free of case-insensitive duplicates. |
| ChatChannel.RecentChatsNewestLast | meteor-client/src/main/java/meteor/plugins/chatchannel/ChatChannelPlugin.java:747-765 | After updateRecentChat the name is last and no other entry equals it ignoring case. At most MAX_CHATS entries remain, and they are the newest ones of the old list without the name followed by the name, so the oldest are dropped first. |
| ChatChannel.RecentChatsKeepsDistinct | meteor-client/src/main/java/meteor/plugins/chatchannel/ChatChannelPlugin.java:747-765 | A recent-chat list without case-insensitive duplicates stays without them. |
| ChatChannel.TypingSwitch | meteor-client/src/main/java/meteor/plugins/chatchannel/ChatChannelPlugin.java:636-651 | switchTypingMode sets the mode and always clears the typed text. The warning is queued, and its flag set, only on the first switch to a non-public mode. |
| ChatChannel.PreChatSendPublic | meteor-client/src/main/java/meteor/plugins/chatchannel/ChatChannelPlugin.java:584-617 | Without target mode nothing happens. "/p", "/f", "/c" and "/g" select public, friends, clan and guest. Any other text is redirected to the current mode's chat type exactly when a mode is set, and the state is then left unchanged. |
| ChatChannel.WarningCountAppend | meteor-client/src/main/java/meteor/plugins/chatchannel/ChatChannelPlugin.java:641-650 | Warnings in two traces add up. |
| ChatChannel.SendWarnings | meteor-client/src/main/java/meteor/plugins/chatchannel/ChatChannelPlugin.java:636-651 | One callback queues a warning exactly when it sets the warning flag, and the flag never clears. |
| ChatChannel.WarnedAtMostOnce | meteor-client/src/main/java/meteor/plugins/chatchannel/ChatChannelPlugin.java:641-650 | Over any sequence of callbacks the warning is queued at most once, and never once it has been shown. |
| ChatChannel.PopExpired | meteor-client/src/main/java/meteor/plugins/chatchannel/ChatChannelPlugin.java:321-347 | The iterator loop leaves the deque without its expired prefix and collects the line removals of that prefix. |
| ChatChannel.DrainActivities | meteor-client/src/main/java/meteor/plugins/chatchannel/ChatChannelPlugin.java:362-382 | The iterator loop keeps exactly the fresh activities and announces the stale ones in buffer order. |
| ChatChannel.ChatChannelPlugin.constructor | meteor-client/src/main/java/meteor/plugins/chatchannel/ChatChannelPlugin.java:125-133 | startup reads the recent-chat list from the configuration; everything else starts empty. |
| ChatChannel.ChatChannelPlugin.QueueJoin | meteor-client/src/main/java/meteor/plugins/chatchannel/ChatChannelPlugin.java:251-264 | Puts a join at the current tick when the member is absent, otherwise removes its entry. The buffer stays a map. |
| ChatChannel.ChatChannelPlugin.QueueLeave | meteor-client/src/main/java/meteor/plugins/chatchannel/ChatChannelPlugin.java:266-278 | The same for a leave. |
| ChatChannel.ChatChannelPlugin.OnFriendsChatMemberJoined | meteor-client/src/main/java/meteor/plugins/chatchannel/ChatChannelPlugin.java:177-195 | A join is queued unless it comes on the tick the channel was joined, display is off, or the rank is below the threshold. |
| ChatChannel.ChatChannelPlugin.OnFriendsChatMemberLeft | meteor-client/src/main/java/meteor/plugins/chatchannel/ChatChannelPlugin.java:198-209 | A leave is queued unless display is off or the rank is below the threshold. |
| ChatChannel.ChatChannelPlugin.OnClanMemberJoined | meteor-client/src/main/java/meteor/plugins/chatchannel/ChatChannelPlugin.java:212-219 | A clan or guest-clan join is queued only when that channel's display setting is on; any other channel is ignored. |
| ChatChannel.ChatChannelPlugin.OnClanMemberLeft | meteor-client/src/main/java/meteor/plugins/chatchannel/ChatChannelPlugin.java:222-229 | The same for a leave. |
| ChatChannel.ChatChannelPlugin.TimeoutMessages | meteor-client/src/main/java/meteor/plugins/chatchannel/ChatChannelPlugin.java:306-353 | With an empty deque or a zero timeout nothing changes. Otherwise the expired prefix is popped, each line still held by its node is removed, and the chat box is rebuilt only if a line was removed. The deque stays tick-ordered. |
| ChatChannel.ChatChannelPlugin.AddActivityMessages | meteor-client/src/main/java/meteor/plugins/chatchannel/ChatChannelPlugin.java:355-383 | The buffer keeps exactly its fresh entries, in order. One line per announced stale activity is appended at the deque's tail, which stays tick-ordered. |
| ChatChannel.ChatChannelPlugin.OnGameStateChanged | meteor-client/src/main/java/meteor/plugins/chatchannel/ChatChannelPlugin.java:537-545 | LOGIN_SCREEN, CONNECTION_LOST and HOPPING clear the join messages; other states leave them. |
| ChatChannel.ChatChannelPlugin.OnFriendsChatChanged | meteor-client/src/main/java/meteor/plugins/chatchannel/ChatChannelPlugin.java:548-556 | Always clears the activity buffer, and records the tick only when joined. |
| ChatChannel.ChatChannelPlugin.UpdateRecentChat | meteor-client/src/main/java/meteor/plugins/chatchannel/ChatChannelPlugin.java:747-765 | A null or empty name changes nothing. Otherwise the list becomes RecentChats of the normalised name and is saved. |
| ChatChannel.ChatChannelPlugin.SwitchTypingMode | meteor-client/src/main/java/meteor/plugins/chatchannel/ChatChannelPlugin.java:636-651 | The state and the effects follow TypingSwitch, and the warning count stays within the flag. |
| ChatChannel.ChatChannelPlugin.OnPreChatSendPublic | meteor-client/src/main/java/meteor/plugins/chatchannel/ChatChannelPlugin.java:584-617 | The state, the effects and the redirected chat type follow PreChatSendPublic. |
| ChatChannel.KeptKeepsUnique | meteor-client/src/main/java/meteor/plugins/chatchannel/ChatChannelPlugin.java:362-382 | Draining keeps the buffer a map. |
| ChatChannel.KeptFrom | meteor-client/src/main/java/meteor/plugins/chatchannel/ChatChannelPlugin.java:362-382 | Every kept entry was in the buffer. |
| ChatChannel.AppendSameTick | meteor-client/src/main/java/meteor/plugins/chatchannel/ChatChannelPlugin.java:427-432 | Appending lines at the current tick to a deque of earlier ticks keeps it tick-ordered, which is why the early break is sound. |
| Osrs.Approach | runescape-client/src/main/java/osrs/WorldMap.java:527-539 | One axis moves by sign(d) within 8 tiles and by the truncated d/8 beyond. It moves at least one tile toward the target and never past it. |
| Osrs.ScrollStep | runescape-client/src/main/java/osrs/WorldMap.java:527-546 | Without a target the view is unchanged. Otherwise each axis moves by Approach. The target is reset to (-1, -1) exactly on arrival and is kept as it was otherwise. |
| Osrs.ScrollArrives | runescape-client/src/main/java/osrs/WorldMap.java:527-546 | From distance d to the target, max(1, d) scroll cycles reach the target and clear it. |
| Osrs.ScrollStaysWithoutTarget | runescape-client/src/main/java/osrs/WorldMap.java:527-528 | Without a target, scrolling never moves the view. |
| Osrs.ZoomFromPercentage | runescape-client/src/main/java/osrs/WorldMap.java:889-947 | After choosing a percentage, the zoom level reads back that percentage for 25, 37, 50, 75 and 100, and 200 for anything else. |
| Osrs.ZoomTableInverse | runescape-client/src/main/java/osrs/WorldMap.java:915-947 | The two tables are inverse on the six zoom factors. |
| Osrs.FlashStep | runescape-client/src/main/java/osrs/WorldMap.java:760-770 | A draw with no flashing set changes nothing. |
| Osrs.FlashStopsOnTime | runescape-client/src/main/java/osrs/WorldMap.java:760-770 | A non-perpetual flash keeps going for exactly (max − count) × cyclesPerFlash − cycle more draws, so one just started lasts max × cyclesPerFlash draws. |
| Osrs.FlashStepCounts | runescape-client/src/main/java/osrs/WorldMap.java:760-770 | Each draw of a running non-perpetual flash takes exactly one draw off what is left. |
| Osrs.FlashStaysOff | runescape-client/src/main/java/osrs/WorldMap.java:760 | A stopped flash stays stopped. |
| Osrs.PerpetualFlashNeverStops | runescape-client/src/main/java/osrs/WorldMap.java:767-769 | A perpetual flash keeps its elements forever. |
| Osrs.CollectCategory | runescape-client/src/main/java/osrs/WorldMap.java:1179-1183 | The table loop collects exactly the object ids of the elements in the category. |
| Osrs.EnterOrStay | runescape-client/src/main/java/osrs/WorldMap.java:392-404 | Each visible icon gets one event in list order: 17 if it was shown before, 15 otherwise. |
| Osrs.LeaveEvents | runescape-client/src/main/java/osrs/WorldMap.java:406-417 | Each icon no longer visible gets one event 16. |
| Osrs.NextShown | runescape-client/src/main/java/osrs/WorldMap.java:1435-1450 | iconNext skips exactly the icons whose element is -1. |
| Osrs.NearestIcon | runescape-client/src/main/java/osrs/WorldMap.java:1332-1371 | The result is null exactly when the cache or the map is not loaded, the coordinate is outside the area, or the element has no icons. Otherwise it is the first icon of least squared distance; ties keep the earlier icon and distance 0 returns at once. |
| Osrs.WorldMap.constructor | runescape-client/src/main/java/osrs/WorldMap.java:296-327 | No target, 3 flashes of 50 cycles, not perpetual, no flashing, and empty element sets. |
| Osrs.WorldMap.SetWorldMapPosition | runescape-client/src/main/java/osrs/WorldMap.java:554-562 | Moves the centre and invalidates the tile-cache bounds. |
| Osrs.WorldMap.ScrollToTarget | runescape-client/src/main/java/osrs/WorldMap.java:527-546 | The view follows ScrollStep. The cache bounds are invalidated only when there was a target. |
| Osrs.WorldMap.SetWorldMapPositionTarget | runescape-client/src/main/java/osrs/WorldMap.java:996-1001 | The target is set, relative to the current area's low region, only when the area contains the position. |
| Osrs.WorldMap.SetZoomPercentage | runescape-client/src/main/java/osrs/WorldMap.java:889-891 | getZoomLevel then reads the percentage back, or 200 for one outside the table. |
| Osrs.WorldMap.SetMaxFlashCount | runescape-client/src/main/java/osrs/WorldMap.java:1105-1110 | Values below 1 are ignored, so the count stays at least 1. |
| Osrs.WorldMap.ResetMaxFlashCount | runescape-client/src/main/java/osrs/WorldMap.java:1118-1120 | Restores 3. |
| Osrs.WorldMap.SetCyclesPerFlash | runescape-client/src/main/java/osrs/WorldMap.java:1128-1133 | Values below 1 are ignored, so the cycles stay at least 1. |
| Osrs.WorldMap.ResetCyclesPerFlash | runescape-client/src/main/java/osrs/WorldMap.java:1141-1143 | Restores 50. |
| Osrs.WorldMap.SetPerpetualFlash | runescape-client/src/main/java/osrs/WorldMap.java:1151-1153 | Sets the perpetual flag. |
| Osrs.WorldMap.FlashElement | runescape-client/src/main/java/osrs/WorldMap.java:1161-1166 | Flashes the single element from count 0 and cycle 0. |
| Osrs.WorldMap.FlashCategory | runescape-client/src/main/java/osrs/WorldMap.java:1174-1185 | Flashes exactly the category's object ids from count 0 and cycle 0. |
| Osrs.WorldMap.StopCurrentFlashes | runescape-client/src/main/java/osrs/WorldMap.java:1193-1195 | No flashing set remains. |
| Osrs.WorldMap.AdvanceFlash | runescape-client/src/main/java/osrs/WorldMap.java:760-770 | The flash state follows FlashStep. |
| Osrs.WorldMap.SetElementsDisabled | runescape-client/src/main/java/osrs/WorldMap.java:1203-1205 | getElementsDisabled then returns the value set. |
| Osrs.WorldMap.UpdateUnion | runescape-client/src/main/java/osrs/WorldMap.java:1285-1289 | The union field is the enabled elements plus the enabled category ids. |
| Osrs.WorldMap.DisableElement | runescape-client/src/main/java/osrs/WorldMap.java:1213-1221 | Adds or removes the element, so isElementDisabled then returns the flag given. The union stays equal to its two parts. |
| Osrs.WorldMap.SetCategoryDisabled | runescape-client/src/main/java/osrs/WorldMap.java:1229-1248 | Adds or removes the category and the object ids of its elements, so isCategoryDisabled then returns the flag given. The union stays equal to its two parts. |
| Osrs.WorldMap.OnCycle | runescape-client/src/main/java/osrs/WorldMap.java:379-422 | Without the cache nothing changes: view, zoom, cache bounds, events and shown icons. Otherwise the zoom takes the smoothed value and the view follows ScrollStep. The four cache bounds become -1 when there was a target and are kept otherwise. When icons are shown, the icon diff runs; otherwise events and shown icons are kept. |
| Osrs.WorldMap.DiffIcons | runescape-client/src/main/java/osrs/WorldMap.java:387-419 | Events 17/15 for the visible icons in order, then one 16 for each previously shown icon no longer visible. The shown set becomes the visible set. |
| Osrs.WorldMap.IconStart | runescape-client/src/main/java/osrs/WorldMap.java:1409-1427 | Without the cache or map nothing happens. Otherwise the icons of all elements are listed and the first whose element is not -1 is returned. |
| Osrs.WorldMap.IconNext | runescape-client/src/main/java/osrs/WorldMap.java:1435-1450 | Returns the next icon whose element is not -1 and moves past it; it never returns an icon of element -1. |
| Items.Select | meteor-client/src/main/java/meteor/plugins/api/items/Bank.java:43-45 | The filter result holds exactly the entries the filter accepts and is no longer than its input. |
| Items.SelectAppend | meteor-client/src/main/java/meteor/plugins/api/items/Bank.java:37-47 | Filtering a concatenation filters each part. |
| Items.SelectTwice | meteor-client/src/main/java/meteor/plugins/api/items/Bank.java:200 | Filtering by one test and then another is filtering by both at once, which is how withdraw adds the placeholder test to the caller's filter. |
| Items.SelectSameTest | meteor-client/src/main/java/meteor/plugins/api/items/Bank.java:200 | Two tests that agree on every item select the same items. |
| Items.SelectEverything | meteor-client/src/main/java/meteor/plugins/api/items/Equipment.java:50-52 | An always-true filter keeps everything. |
| Items.SelectKeepsSlotOrder | meteor-client/src/main/java/meteor/plugins/api/items/Bank.java:37-47 | Filtering keeps container order. |
| Bank.SurfacedAreStampedUsable | meteor-client/src/main/java/meteor/plugins/api/items/Bank.java:27-50 | The items listed are the usable entries of the stamped container. |
| Bank.SurfacedAtTheirSlots | meteor-client/src/main/java/meteor/plugins/api/items/Bank.java:27-50 | Each listed item came from a usable entry and carries that entry's index as its slot, with slots increasing. |
| Bank.SurfacedComplete | meteor-client/src/main/java/meteor/plugins/api/items/Bank.java:27-50 | Every usable entry is listed. |
| Bank.ListingIsOrderedSubsequence | meteor-client/src/main/java/meteor/plugins/api/items/Bank.java:27-50 | all(filter) is the in-order subsequence of usable entries that pass the filter: id not -1, a name, and a name other than "null". Each is stamped with its index as slot, and none is missing. |
| Bank.FilterAfterGetAll | meteor-client/src/main/java/meteor/plugins/api/items/Bank.java:267-269 | Filtering getAll() gives all(filter). |
| Bank.EmptyIffNothingUsable | meteor-client/src/main/java/meteor/plugins/api/items/Bank.java:138-140 | isEmpty holds exactly when no entry is usable. |
| Bank.ListingStep | meteor-client/src/main/java/meteor/plugins/api/items/Bank.java:37-47 | One more container entry adds at most its own stamped form to the listing. |
| Bank.StampEntry | meteor-client/src/main/java/meteor/plugins/api/items/Bank.java:40-41 | The widget id is computed from the entry as it was, then the slot is set. Usability is unchanged. |
| Bank.AllMatching | meteor-client/src/main/java/meteor/plugins/api/items/Bank.java:27-50 | A null container gives nothing. Otherwise every usable entry is stamped in place and the listing is returned. |
| Bank.GetInventory | meteor-client/src/main/java/meteor/plugins/api/items/Bank.java:238-261 | The same for the inventory beside the bank. |
| Bank.OfAmount | meteor-client/src/main/java/meteor/plugins/api/items/Bank.java:394-412 | ONE iff amount ≤ 1; FIVE iff 5; TEN iff 10; ALL iff the amount exceeds the stack; X otherwise; never DEFAULT_QUANTITY or ALL_BUT_1. |
| Bank.OfAmountMovesAmount | meteor-client/src/main/java/meteor/plugins/api/items/Bank.java:384-412 | For any positive amount the chosen option moves min(amount, stack), with the amount typed for X. |
| Bank.MaxAmountChoosesAll | meteor-client/src/main/java/meteor/plugins/api/items/Bank.java:394-412 | Asking for Integer.MAX_VALUE chooses ALL exactly for stacks below it. |
| Bank.SwitchMode | meteor-client/src/main/java/meteor/plugins/api/items/Bank.java:206-215 | Switching the withdraw mode only clicks the toggle and waits for the varbit. |
| Bank.Pick | meteor-client/src/main/java/meteor/plugins/api/items/Bank.java:170-175 | The item's menu entry is the option's index, plus one when depositing, and the amount is typed exactly when the option is X. |
| Bank.DepositPlan | meteor-client/src/main/java/meteor/plugins/api/items/Bank.java:162-176 | Nothing happens exactly when no inventory item matches. Otherwise the first match is interacted with at the option's index plus one, and the amount is typed exactly for X. |
| Bank.WithdrawPlan | meteor-client/src/main/java/meteor/plugins/api/items/Bank.java:199-222 | Nothing happens exactly when no non-placeholder item matches. Otherwise the plan starts with the withdraw-mode switch. It then interacts with the first such item at the option's index, and that item is never a placeholder. An amount is typed exactly when the option is X, and it is the requested amount. |
| Bank.WithdrawSkipsPlaceholders | meteor-client/src/main/java/meteor/plugins/api/items/Bank.java:200 | The items withdraw can pick are the caller's filtered listing with placeholders removed, in the same order. |
| Bank.Deposit | meteor-client/src/main/java/meteor/plugins/api/items/Bank.java:162-176 | The actions are DepositPlan of the inventory. Every inventory entry is stamped with its widget id and slot, and nothing else in it changes. |
| Bank.Withdraw | meteor-client/src/main/java/meteor/plugins/api/items/Bank.java:199-222 | The actions are WithdrawPlan of the bank. Every bank entry is stamped with its widget id and slot, and nothing else in it changes. |
| Bank.DepositAllEntry | meteor-client/src/main/java/meteor/plugins/api/items/Bank.java:150-152 | depositAll of a stack below Integer.MAX_VALUE picks deposit-all (index of ALL plus one) and types nothing. |
| Bank.WithdrawAllEntry | meteor-client/src/main/java/meteor/plugins/api/items/Bank.java:187-189 | withdrawAll of such a stack ends with the withdraw-all entry. |
| Bank.SwitchOnlyWhenDiffering | meteor-client/src/main/java/meteor/plugins/api/items/Bank.java:206-215 | The mode is switched exactly when it is not DEFAULT and differs from the varbit. |
| Bank.GetCurrent | meteor-client/src/main/java/meteor/plugins/api/items/Bank.java:346-377 | Bits 0 to 4 map to ONE to ALL, each with that bit as its bitValue; every other bit maps to UNKNOWN. |
| Bank.QuantityModeRoundTrip | meteor-client/src/main/java/meteor/plugins/api/items/Bank.java:346-377 | Every known mode reads back from its own bit. |
| Bank.SetQuantityMode | meteor-client/src/main/java/meteor/plugins/api/items/Bank.java:58-65 | The mode's button is clicked only when the current mode differs, and then only that button. |
| Bank.SetQuantityModeSettled | meteor-client/src/main/java/meteor/plugins/api/items/Bank.java:58-65 | Setting the mode the varbit already shows does nothing. |
| Bank.GetFreeSlots | meteor-client/src/main/java/meteor/plugins/api/items/Bank.java:71-95 | -1 while the bank is closed; otherwise free plus occupied is the capacity. |
| Equipment.WidgetFor | meteor-client/src/main/java/meteor/plugins/api/items/Equipment.java:74-82 | The widget of the first slot whose index matches, or null exactly when none matches. |
| Equipment.GetEquipmentWidgetInfo | meteor-client/src/main/java/meteor/plugins/api/items/Equipment.java:74-82 | The linear search with early return gives WidgetFor. |
| Equipment.EquippedAtTheirSlots | meteor-client/src/main/java/meteor/plugins/api/items/Equipment.java:16-44 | Each listed item is the stamped form of a worn entry at its own index, with slots increasing. |
| Equipment.EquippedComplete | meteor-client/src/main/java/meteor/plugins/api/items/Equipment.java:16-44 | Every worn entry is listed. |
| Equipment.ListingIsOrderedSubsequence | meteor-client/src/main/java/meteor/plugins/api/items/Equipment.java:16-44 | The listing is the in-order subsequence of usable entries whose reported slot has a widget and that pass the filter. Each has actionParam -1 and its index as slot. No entry that is unusable or has no widget is listed. |
| Equipment.FilterAfterGetAll | meteor-client/src/main/java/meteor/plugins/api/items/Equipment.java:16-52 | Filtering getAll() gives all(filter). |
| Equipment.ListingStep | meteor-client/src/main/java/meteor/plugins/api/items/Equipment.java:26-41 | One more container entry adds at most its own stamped form. |
| Equipment.StampEntry | meteor-client/src/main/java/meteor/plugins/api/items/Equipment.java:29-39 | The widget is looked up from the slot the item reported before it is overwritten. actionParam becomes -1, the slot becomes the index, and the item is kept exactly when a widget was found. |
| Equipment.AllMatching | meteor-client/src/main/java/meteor/plugins/api/items/Equipment.java:16-44 | A null container gives nothing. Otherwise every usable entry is stamped in place and the listing is returned. |
| Equipment.GetAll | meteor-client/src/main/java/meteor/plugins/api/items/Equipment.java:50-52 | getAll() lists every worn item: all with an always-true filter. |

## Left out

- Rendering in Hooks.java (draw, drawScene, drawAboveOverheads, drawInterface, drawLayer, drawMenu, the graphics hooks) is AWT and overlay drawing. The mouse and key forwarding methods are one-line delegations.
- The event bus, the deferred event bus, the scheduler, the client thread, the info-box and chat-message managers and checkWorldMap are not part of this model. They appear only as recorded calls. The model takes deferredEventBus.replay, eventBus.post and clientThread.invoke, which clientMainLoop calls outside its try block, to return normally. It does not model an exception escaping from them.
- The clock (System.nanoTime) is the parameter `now`. CHECK comes from RSTimeUnit, which is not part of this model; it is taken to be one game tick, 600 ms in nanoseconds.
- Callback.ClearColorBuffer: requires the whole rectangle to lie inside the pixel buffer. Java would write the in-bounds pixels up to the first bad index and then throw ArrayIndexOutOfBoundsException; that partial write is not modelled.
- Callback.ScriptCallback: requires at least two int-stack values for a "fakeXpDrop" callback. Java would throw ArrayIndexOutOfBoundsException on a shorter stack; that is not modelled.
- Callback.Hooks.OnScriptCallbackEvent: has the same stack-size requirement as ScriptCallback, for the same reason.
- Callback.ScriptCallback: the Skill lookup `Skill.values()[statId]` is not modelled; the stat id is published as it is.
- Java's 32-bit int wrap-around is not modelled: the tick count, squared icon distances, pixel indices and free-slot arithmetic use unbounded integers.
- Bank.GetFreeSlots: when the occupied-count widget is hidden, the result is only stated through the -1 each hidden widget reads as.
- ChatChannel.ChatChannelPlugin.AddActivityMessages: requires that every queued line is no newer than the current tick, which holds because the client's tick count never decreases.
- ChatChannel.PreChatSendPublic: the redirect is the chat type written to the top of the int stack. The second write, a prefix length of 0 one slot below, is not recorded.
- ChatChannel.ChatChannelPlugin.OnPreChatSendPublic: records the redirect as PreChatSendPublic does, without the prefix-length write.
- ChatChannel.ChatChannelPlugin.QueueJoin: the activity buffer is keyed by a Member value, compared by name and rank. The Java LinkedHashMap is keyed by ChatPlayer objects, and ChatPlayer equality is not part of this model.
- ChatChannel.EqualsIgnoreCase folds ASCII letters only. Text.toJagexName is not part of this model; it is a parameter.
- Chat-line formatting in ChatChannelPlugin.java is not modelled: ChatMessageBuilder, colours, rank icons and the friends-chat and clan-settings lookups. Whether and which line the client adds is the parameter `announce`.
- Also left out of ChatChannelPlugin.java:
  - loadFriendsChats, colorIgnoredPlayers and the confirmKicks branch (widget construction);
  - setChatboxInput, onChatMessage and onScriptPostFired;
  - onConfigChanged and shutdown;
  - the clientThread.invoke closures.
- onGameTick's logged-in check and its friends-chat list refresh are not modelled; timeoutMessages and addActivityMessages are modelled directly.
- WorldMap.java floating-point code is not modelled: smoothZoom, the coordinate math of onCycle, method6354, method6365 and method6371, and the mouse-to-tile conversion.
- Osrs.WorldMap.OnCycle: the zoom smoothZoom produces is a parameter, and so is the icon list the map manager builds for the view.
- WorldMap.java drawing and I/O are not modelled: draw, drawLoading and drawOverview (except the flash block of draw), packet writing, init, and the menu options and actions.
- The iteration order of WorldMap's HashSets is unspecified. The order of leave events is chosen nondeterministically, and the element table and the icon lists are parameters in a fixed order.
- Items are values, not shared objects. The listing loops overwrite container entries in place, but aliasing between containers and other references to the same item object is not modelled.
- Bank.java's widget-id computation (calculateWidgetId) is the parameter `widgetOf`. Equipment's slot table (EquipmentInventorySlot) is not part of this model; it is a parameter.
- Items.java (first, exists, contains, getAll by ids or names) is not part of this model, nor is Inventory.
- Bank.Withdraw: getFirst is Items.first, which is not part of this model. It is taken to be the first entry of all(filter), the same listing getAll produces.
- UI waiting (Time.sleepUntil), Dialog internals and widget visibility are not modelled; widget presence and varbits are parameters.
- Integer.parseInt on widget text is not modelled: a widget's number is given directly.
- Other Bank.java helpers are not modelled: releasePlaceholders, the settings toggles, depositInventory, depositEquipment, the tab helpers and openMainTab.
- Bank.OfAmountMovesAmount: stated only for amounts of at least 1. Smaller amounts choose ONE, which moves one item.
- Other files in the repository are not part of this model: Mouse.java, ResourcePacksPlugin.java, ExternalManagerConfig.java, UserListMixin.java and the Occluder code.
