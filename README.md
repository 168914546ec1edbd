# AqiChart in Dafny

AqiChart is a desktop instant-messaging system with two halves:

- **Server.** An ASP.NET Core web API and a SignalR hub. A SqlSugar business layer keeps users, friendships and private messages in a database. The hub tracks which connection belongs to which online user, stores each private message and pushes it to the receiver and back to the sender. Two exception filters and a result filter wrap every answer in a JSON envelope.
- **Client.** A WPF application built on Caliburn.Micro:
  - a main window that hosts child pages;
  - a chat manager that keeps unread messages and per-friend conversations;
  - an address book of friend requests;
  - an HTTP client with retry;
  - a background polling service;
  - a throttle helper;
  - a screenshot tool with a drawing canvas and undo/redo;
  - value converters and the command/notification base classes.

The model follows the source's own shape:

- The business layer's queries are pure functions over the stored tables. Its writes are methods on a `Database` class. A generic table algebra (`Tables`) models the ORM's `Queryable().Where`, `Updateable` and `Deleteable`.
- Each view model, the hub, the polling service, the HTTP client, the hotkey, the throttle and the screenshot window is a class. Its mutable fields are the fields the C# code updates. Its methods carry `modifies` clauses and post-conditions that give the whole new state.
- Outside calls become parameters or ghost logs. These cover SignalR pushes, REST calls, the event aggregator, database commit results, GUIDs, clocks, URL escaping, JSON serialisation and parsing. Each log is a sequence of events in the order the code produces them.

## Model

| member | source | states |
|---|---|---|
| Text.TrimEnd | AqiChartServer.DB/Business/UserBiz.cs:89-105 | The result is a prefix of the input that does not end in white space, and only white space was removed. |
| Text.TrimStart | AqiChartServer.DB/Business/UserBiz.cs:89-105 | The result is a suffix of the input that does not start with white space, and only white space was removed. |
| Text.Join | AqiChart.Client/HttpClient/ApiClient.cs:587-600 | Joining no parts gives the empty string, and joining one part gives that part unchanged. |
| Tables.Filter | AqiChartServer.DB/Business/FriendshipsBiz.cs:17-26 | A `Where` query keeps exactly the rows that satisfy the predicate and never grows the table. |
| Tables.UpdateWhere | AqiChartServer.DB/Business/PrivateChatBiz.cs:82-91 | An `Updateable(...).Where` rewrites exactly the matching rows in place and keeps the others and their order. |
| Tables.FindByKey | AqiChartServer.DB/Business/UserBiz.cs:34-37 | A lookup by primary key finds a row with that key, or reports absence exactly when no row has it. |
| Tables.ReplaceByKey | AqiChartServer.DB/Business/UserBiz.cs:62-71 | Writing fetched rows back by primary key keeps the table's size. |
| Tables.UniqueKeyIdentifies | AqiChartServer.DB/Business/UserBiz.cs:34-37 | Under unique keys, two rows with the same key are the same row. |
| Tables.WriteBackIsUpdateWhere | AqiChartServer.DB/Business/PrivateChatBiz.cs:82-91 | Fetching the matching rows, changing them and writing them back by key is the same as one `UpdateWhere`. |
| Tables.UpdateWhereTwice | AqiChartServer.DB/Business/PrivateChatBiz.cs:73-80 | An idempotent update applied twice equals the update applied once. |
| Tables.FilterByUniqueKey | AqiChartServer.DB/Business/UserBiz.cs:34-37 | Under unique keys, a filter on the key yields exactly the row the key lookup finds, or nothing. |
| Tables.FilterAppend | AqiChartServer.DB/Business/PrivateChatBiz.cs:26-42 | Filtering distributes over appending rows. |
| Tables.FilterUnaffected | AqiChartServer.DB/Business/PrivateChatBiz.cs:82-91 | A query that no updated row satisfied before or after the update returns the same rows afterwards. |
| Tables.FilterAfterUpdate | AqiChartServer.DB/Business/PrivateChatBiz.cs:82-91 | After an update that takes rows out of a query, the query returns exactly the rows it returned before that were not updated. |
| Tables.UpdateKeepsKeys | AqiChartServer.DB/Business/UserBiz.cs:62-71 | A key-preserving update keeps primary keys unique. |
| Tables.AppendFreshKey | AqiChartServer.DB/Business/PrivateChatBiz.cs:26-42 | Inserting a row whose key is absent keeps primary keys unique. |
| Tables.FilterNone | AqiChartServer.DB/Business/FriendshipsBiz.cs:84-90 | A query that no row satisfies returns nothing. |
| Tables.UpdateWhereSkipsPrefix | AqiChartServer.DB/Business/FriendshipsBiz.cs:67-76 | An update leaves a prefix with no matching row unchanged. |
| Tables.FindAfterKeyedUpdate | AqiChartServer.DB/Business/UserBiz.cs:62-71 | After a key-preserving update of one key, a lookup finds the updated row under that key and the old row under any other key. |
| Tables.WriteBackOne | AqiChartServer.DB/Business/UserBiz.cs:62-71 | Fetching one row by key, changing it and writing it back equals an update on that key and keeps keys unique. |
| Tables.FilterKeepsAll | AqiChartServer.DB/Business/FriendshipsBiz.cs:34-59 | A query that every row satisfies returns the whole table. |
| Tables.FilterPastRemoval | AqiChartServer.DB/Business/FriendshipsBiz.cs:34-59 | Removing rows a query never returns does not change that query's answer. |
| Tables.FindFirst | AqiChartServer.DB/Business/FriendshipsBiz.cs:84-90 | `First` returns a matching row, or nothing exactly when no row matches. |
| Tables.FilterCongruent | AqiChartServer.DB/Business/FriendshipsBiz.cs:34-59 | Two predicates that agree on every row select the same rows. |
| Tables.DeleteFetchedIsFilterOut | AqiChartServer.DB/Business/FriendshipsBiz.cs:34-59 | Deleting by key the rows a query fetched leaves exactly the rows outside the query. |
| Tables.FilterKeepsKeys | AqiChartServer.DB/Business/FriendshipsBiz.cs:34-59 | Deleting rows keeps primary keys unique. |
| Tables.FoundByOwnKey | AqiChartServer.DB/Business/UserBiz.cs:34-37 | Under unique keys, a stored row is found by its own key. |
| Ordering.Insert | AqiChartServer.DB/Business/UserBiz.cs:89-105 | Insertion adds exactly the new element, as a multiset. |
| Ordering.OrderByDescending | AqiChartServer.DB/Business/FriendshipsBiz.cs:99-114 | `OrderByDescending` returns a permutation of its input. |
| Ordering.AtLeastTotal | AqiChartServer.DB/Business/UserBiz.cs:89-105 | The ordering on nullable creation times, with null last, is total. |
| Ordering.InsertSorted | AqiChartServer.DB/Business/UserBiz.cs:89-105 | Inserting into a sequence sorted newest-first keeps it sorted. |
| Ordering.SortSorted | AqiChartServer.DB/Business/FriendshipsBiz.cs:99-114 | `OrderByDescending` yields a sequence sorted newest-first. |
| Ordering.TakeKeepsNewest | AqiChartServer.DB/Business/UserBiz.cs:89-105 | `Take(n)` of a newest-first list keeps every element, unless all n kept elements are at least as new. |
| UserBiz.ProjectUsers | AqiChartServer.DB/Business/UserBiz.cs:89-105 | The DTO projection keeps the order and maps each row. |
| UserBiz.GetUserInfo | AqiChartServer.DB/Business/UserBiz.cs:34-37 | It returns a stored user with the requested id, or nothing exactly when no such user exists. |
| UserBiz.UpdateUserStatus | AqiChartServer.DB/Business/UserBiz.cs:62-71 | An unknown user is NotFound and nothing changes. Otherwise the result is the store's commit answer, and on commit only that user's status and update time change. |
| UserBiz.UpdateLastUserTime | AqiChartServer.DB/Business/UserBiz.cs:78-83 | An unknown user is NotFound and nothing changes. Otherwise only that user's last-seen time moves to now. |
| UserBiz.StatusUpdateReadBack | AqiChartServer.DB/Business/UserBiz.cs:62-71 | After a status update, reading the user back gives the new status and time with the other fields kept, and every other user reads back unchanged. |
| UserBiz.LastUserTimeReadBack | AqiChartServer.DB/Business/UserBiz.cs:78-83 | After a touch, the user reads back with only the last-seen time changed, and other users are unchanged. |
| UserBiz.SearchUserListSpec | AqiChartServer.DB/Business/UserBiz.cs:89-105 | Search returns as many qualifying users as there are, up to the limit. A user qualifies when it is not the caller, its nickname contains the trimmed text and the caller has no friendship with it. The list is sorted newest-first. A qualifying user is left out only when the limit is reached and every returned user is at least as new. |
| UserBiz.SearchRowsSound | AqiChartServer.DB/Business/UserBiz.cs:89-105 | Every search result passes the filter: a known user other than the caller, whose nickname contains the trimmed text and who has no friendship row from the caller. |
| UserBiz.SearchRowsComplete | AqiChartServer.DB/Business/UserBiz.cs:89-105 | A user passing the filter is returned unless a full page of users at least as new was returned. |
| PrivateChatBiz.Project | AqiChartServer.DB/Business/PrivateChatBiz.cs:93-104 | The DTO projection keeps the order and maps each row. |
| PrivateChatBiz.GetUserPrivateChats | AqiChartServer.DB/Business/PrivateChatBiz.cs:16-19 | It returns exactly the messages the user sent or received. |
| PrivateChatBiz.NewChat | AqiChartServer.DB/Business/PrivateChatBiz.cs:26-42 | A new row takes the client's id, or a fresh GUID when the id is missing. It is stored unread, not recalled, stamped now, and otherwise carries the DTO's fields. |
| PrivateChatBiz.AddPrivateChats | AqiChartServer.DB/Business/PrivateChatBiz.cs:26-42 | A message id already stored is DuplicateKey. Otherwise a committed insert appends the new row and returns it, and an uncommitted one changes nothing. |
| PrivateChatBiz.SetReadById | AqiChartServer.DB/Business/PrivateChatBiz.cs:73-80 | An unknown id is an error with nothing changed. Otherwise only that message becomes read, and the result is the commit answer. |
| PrivateChatBiz.SetReadByFriendId | AqiChartServer.DB/Business/PrivateChatBiz.cs:82-91 | Every unread message from the friend to the user becomes read. It reports true only when some row changed and the store committed. |
| PrivateChatBiz.ProjectMembers | AqiChartServer.DB/Business/PrivateChatBiz.cs:93-104 | The projection's elements are exactly the projections of the rows. |
| PrivateChatBiz.ProjectAppend | AqiChartServer.DB/Business/PrivateChatBiz.cs:93-104 | Projecting two row lists one after the other gives the two projections, in the same order. |
| PrivateChatBiz.UnreadListing | AqiChartServer.DB/Business/PrivateChatBiz.cs:45-57 | The unread list holds exactly the unread messages addressed to the user. |
| PrivateChatBiz.ConversationIsSubListing | AqiChartServer.DB/Business/PrivateChatBiz.cs:59-71 | A friend's unread conversation is part of the user's unread list. |
| PrivateChatBiz.NewMessageIsListedUnread | AqiChartServer.DB/Business/PrivateChatBiz.cs:26-42 | A newly stored message appears in the receiver's unread list and in its conversation with the sender, last in the model's insertion order. |
| PrivateChatBiz.UnreadListingsAsMultisets | AqiChartServer.DB/Business/PrivateChatBiz.cs:26-70 | Without any order claim: a new message is listed exactly once more in both listings, and a conversation holds the same rows as the user's unread list restricted to that sender. |
| PrivateChatBiz.ReadByFriendClearsConversation | AqiChartServer.DB/Business/PrivateChatBiz.cs:82-91 | After read-by-friend, that conversation has no unread message. |
| PrivateChatBiz.ReadByFriendKeepsOtherConversations | AqiChartServer.DB/Business/PrivateChatBiz.cs:82-91 | Read-by-friend leaves every other conversation's unread list unchanged. |
| PrivateChatBiz.ReadByFriendShrinksUnreadListing | AqiChartServer.DB/Business/PrivateChatBiz.cs:82-91 | After read-by-friend, the user's unread list is the old list minus that friend's messages. |
| PrivateChatBiz.ReadByIdIdempotent | AqiChartServer.DB/Business/PrivateChatBiz.cs:73-80 | Marking a message read twice is the same as once. |
| PrivateChatBiz.ReadByIdShrinksUnreadListing | AqiChartServer.DB/Business/PrivateChatBiz.cs:73-80 | After read-by-id, the unread list is the old list minus that message. |
| PrivateChatBiz.ReadByIdUnreadRows | AqiChartServer.DB/Business/PrivateChatBiz.cs:73-80 | After read-by-id, a row is an unread row for the user exactly when it was one before and it is not the marked message. |
| FriendshipsBiz.JoinUsersSpec | AqiChartServer.DB/Business/FriendshipsBiz.cs:99-114 | The join returns exactly the stored users reached by one of the user's friendships in the given status. |
| FriendshipsBiz.FriendListMembers | AqiChartServer.DB/Business/FriendshipsBiz.cs:99-114 | A user is in the friend list for a status exactly when a friendship from the caller to that user has that status. `GetFriends` is the Accepted case. |
| FriendshipsBiz.ListedByRow | AqiChartServer.DB/Business/FriendshipsBiz.cs:99-114 | A row from the caller to a known user with the asked status puts that user in the caller's list. |
| FriendshipsBiz.NotListedWithoutRow | AqiChartServer.DB/Business/FriendshipsBiz.cs:99-114 | Without a row from the caller to a user with the asked status, that user is not in the caller's list. |
| FriendshipsBiz.ProjectedMember | AqiChartServer.DB/Business/FriendshipsBiz.cs:99-114 | Under unique user ids, a user's DTO is in the projection exactly when the user is in the list. |
| FriendshipsBiz.AddFriend | AqiChartServer.DB/Business/FriendshipsBiz.cs:34-59 | Existing rows between the two users are deleted. Then an Apply row from the requester and a Pending row from the friend are inserted with fresh ids. The result reports whether both writes committed. |
| FriendshipsBiz.FilterKeepsBound | AqiChartServer.DB/Business/FriendshipsBiz.cs:34-59 | Deleting rows keeps ids unique and below the next id. |
| FriendshipsBiz.NewPairKeepsKeys | AqiChartServer.DB/Business/FriendshipsBiz.cs:34-59 | The two inserted rows keep ids unique and below the new next id. |
| FriendshipsBiz.NewPairRowsArePair | AqiChartServer.DB/Business/FriendshipsBiz.cs:42-58 | Both rows a request inserts belong to the requested pair, so none belongs to another pair. |
| FriendshipsBiz.ThroughFriend | AqiChartServer.DB/Business/FriendshipsBiz.cs:67-76 | Both rows of the pair become Accepted. It reports true only when such rows existed and the store committed. |
| FriendshipsBiz.RejectFriend | AqiChartServer.DB/Business/FriendshipsBiz.cs:84-90 | With no row from the rejecter to the requester, it is NotFound and nothing changes. Otherwise the first such row becomes Rejected. |
| FriendshipsBiz.AddFriendReplacesPair | AqiChartServer.DB/Business/FriendshipsBiz.cs:34-59 | After a request, the pair's rows are exactly the new Apply and Pending rows, and all other rows are untouched. |
| FriendshipsBiz.ThroughFriendAcceptsPair | AqiChartServer.DB/Business/FriendshipsBiz.cs:67-76 | After acceptance every row of the pair is Accepted and rows of other pairs are untouched. |
| FriendshipsBiz.RequestThenAcceptMakesFriends | AqiChartServer.DB/Business/FriendshipsBiz.cs:17-26 | After a request and its acceptance, each user appears in the other's friend list. |
| FriendshipsBiz.RejectNewPair | AqiChartServer.DB/Business/FriendshipsBiz.cs:84-90 | Rejecting a fresh request turns exactly the receiver's Pending row into Rejected. |
| FriendshipsBiz.RejectAfterRequest | AqiChartServer.DB/Business/FriendshipsBiz.cs:84-90 | Request followed by reject yields the kept rows, the Apply row and a Rejected row. |
| FriendshipsBiz.RequestThenRejectMovesToRejected | AqiChartServer.DB/Business/FriendshipsBiz.cs:99-114 | After request and reject, the requester is in the receiver's Rejected list and in neither Accepted list. |
| FriendshipsBiz.PairListsAfterReject | AqiChartServer.DB/Business/FriendshipsBiz.cs:99-114 | After a reject, each user's membership in the other's status lists follows the two stored rows. |
| FriendshipsBiz.FindFirstAfterNone | AqiChartServer.DB/Business/FriendshipsBiz.cs:84-90 | `First` skips a prefix with no matching row. |
| ChatHub.DeliveryEvents | AqiChartServer.WebApi/Hubs/ChatHub.cs:123-159 | A delivery persists the message first. It pushes to the receiver only when the receiver is online, and always ends with the echo to the caller. Every push carries the stored message id. |
| ChatHub.DeliveryKeepsOrder | AqiChartServer.WebApi/Hubs/ChatHub.cs:123-159 | If every push in the hub's log follows the persisting of its message, this still holds after one more delivery. |
| ChatHub.Hub.constructor | AqiChartServer.WebApi/Hubs/ChatHub.cs:33-60 | A new hub has no connection and an empty log. |
| ChatHub.Hub.RegisterUserConnection | AqiChartServer.WebApi/Hubs/ChatHub.cs:33-60 | An unknown user is refused and nothing changes. Otherwise the user is bound to the caller's connection and marked online. |
| ChatHub.Hub.OnConnected | AqiChartServer.WebApi/Hubs/ChatHub.cs:62-82 | The same binding and status update as registration, for the authenticated user's name (the name claim of the caller's token). |
| ChatHub.Hub.GetUserId | AqiChartServer.WebApi/Hubs/ChatHub.cs:84-96 | It returns a user bound to the connection, or nothing exactly when no user is bound to it. |
| ChatHub.Hub.OnDisconnected | AqiChartServer.WebApi/Hubs/ChatHub.cs:97-121 | An unknown connection changes nothing. Otherwise the owning user loses the binding and is marked offline, with the store's error passed up. |
| ChatHub.SendAnswer | AqiChartServer.WebApi/Hubs/ChatHub.cs:123-134 | For a caller bound to a user id: an unknown sender gets no row. A known sender gets a duplicate-key error exactly when the GUID is already a message key. It gets the new text row, keyed by the GUID, exactly when the key is free and the database confirms the insert. |
| ChatHub.Hub.SendMessageToFriend | AqiChartServer.WebApi/Hubs/ChatHub.cs:123-159 | An unbound caller changes nothing. A bound caller gets SendAnswer's answer for its user id, so a known sender with a free key and a confirmed insert always sends. Only a stored row changes anything: it is appended, and the log grows by exactly the delivery events. Every other answer leaves the store and the log alone, and the connections never change. |
| ChatHub.Hub.Deliver | AqiChartServer.WebApi/Hubs/ChatHub.cs:135-158 | After the insert, the log grows by exactly the delivery events: persisted, then a push to an online receiver, then the echo to the caller. The log stays ordered. |
| ChatHub.Hub.GetAllOnlineUsers | AqiChartServer.WebApi/Hubs/ChatHub.cs:164-167 | It returns the registered connection ids, each exactly once. |
| ChatHub.RebindThenDropOld | AqiChartServer.WebApi/Hubs/ChatHub.cs:97-121 | Disconnecting a user's old connection after a rebind keeps the new binding. |
| ClientData.Contact.constructor | AqiChart.Client/Data/UserDto.cs:5-40 | A contact starts with no unread badge and visible. |
| ClientData.ToChatContents | AqiChart.Client/Models/Chat/ChatViewModel.cs:100-121 | Converting received messages to transcript entries keeps the order and maps each one. |
| ChatView.ChatViewModel.constructor | AqiChart.Client/Models/Chat/ChatManageViewModel.cs:80-93 | A new conversation holds no entries and sends nothing. |
| ChatView.ChatViewModel.AddChat | AqiChart.Client/Models/Chat/ChatViewModel.cs:74-93 | A null message is ignored. Otherwise one entry is appended and a read-by-id request is issued. |
| ChatView.ChatViewModel.AddChats | AqiChart.Client/Models/Chat/ChatViewModel.cs:100-121 | A null or empty batch is ignored. Otherwise all entries are appended in order and one read-by-friend request is issued. |
| ChatView.ChatViewModel.SendMessage | AqiChart.Client/Models/Chat/ChatViewModel.cs:37-42 | An empty draft is ignored. Otherwise the draft is published to this friend and cleared. |
| ChatView.ChatViewModel.MessageEnter | AqiChart.Client/Models/Chat/ChatViewModel.cs:44-50 | Only the Enter key sends. |
| ChatView.DuplicateDeliveryShownTwice | AqiChart.Client/Models/Chat/ChatViewModel.cs:74-93 | The same message delivered twice is shown twice and marked read twice: there is no deduplication by id. |
| ChatManage.PendingCount | AqiChart.Client/Models/Chat/ChatManageViewModel.cs:45-52 | A friend's pending count never exceeds the number of pending messages. |
| ChatManage.FindFriend | AqiChart.Client/Models/Chat/ChatManageViewModel.cs:140-168 | It returns a friend with the id, or null exactly when there is none. |
| ChatManage.Backlog | AqiChart.Client/Models/Chat/ChatManageViewModel.cs:140-168 | The backlog built from the unread list is no longer than that list. |
| ChatManage.BacklogOnlyFriends | AqiChart.Client/Models/Chat/ChatManageViewModel.cs:140-168 | Every backlog entry comes from an unread message whose sender is a friend, keyed by that friend. |
| ChatManage.BacklogKeepsFriends | AqiChart.Client/Models/Chat/ChatManageViewModel.cs:140-168 | Every unread message from a friend is in the backlog. |
| ChatManage.BacklogAppend | AqiChart.Client/Models/Chat/ChatManageViewModel.cs:140-168 | The backlog of a concatenation is the concatenation of the backlogs, so the server's order is kept. |
| ChatManage.BacklogSnoc | AqiChart.Client/Models/Chat/ChatManageViewModel.cs:140-168 | One more unread message adds one entry when its sender is a friend and none otherwise. |
| ChatManage.DrainKeepsOthers | AqiChart.Client/Models/Chat/ChatManageViewModel.cs:94-101 | Draining one friend's pending messages removes all of them and keeps every other friend's. |
| ChatManage.ChatManageViewModel.constructor | AqiChart.Client/Models/Chat/ChatManageViewModel.cs:126-138 | The manager starts with no pending message, no conversation and no selection. |
| ChatManage.ChatManageViewModel.UpdateMessageCount | AqiChart.Client/Models/Chat/ChatManageViewModel.cs:45-52 | Every friend's badge equals its pending count, visibility is untouched, and the total is published. |
| ChatManage.ChatManageViewModel.Conversation | AqiChart.Client/Models/Chat/ChatManageViewModel.cs:83-93 | It returns the friend's conversation, creating and listing it once if it is missing. |
| ChatManage.ChatManageViewModel.DrainPending | AqiChart.Client/Models/Chat/ChatManageViewModel.cs:94-101 | The friend's pending messages move, in order, into its conversation and leave the pending list. |
| ChatManage.ChatManageViewModel.SwitchFriend | AqiChart.Client/Models/Chat/ChatManageViewModel.cs:80-103 | Null changes nothing. Otherwise the friend's conversation exists and is active, its pending messages are drained into it, and other conversations are untouched. |
| ChatManage.ChatManageViewModel.SetSelectedFriend | AqiChart.Client/Models/Chat/ChatManageViewModel.cs:66-78 | Setting the same friend again does nothing. Another friend is switched to and the badges are recounted. |
| ChatManage.ChatManageViewModel.HandleMessage | AqiChart.Client/Models/Chat/ChatManageViewModel.cs:194-208 | A message for the selected friend goes straight into its conversation. Any other is queued as pending and counted. No other conversation changes. |
| ChatManage.ChatManageViewModel.GetAllUnreadChart | AqiChart.Client/Models/Chat/ChatManageViewModel.cs:140-168 | A failed fetch changes neither the pending list, the badges nor the published totals. Otherwise the backlog entries from known friends are appended in fetch order, every badge is recounted and one total is published. No visibility changes. |
| ChatManage.ChatManageViewModel.GetFriends | AqiChart.Client/Models/Chat/ChatManageViewModel.cs:126-138 | The fetched friends replace the list and the first view is over. On the first view only, the backlog is fetched exactly once: a failed fetch leaves the pending list, badges and totals alone; a successful one appends the friends' backlog entries, sets every badge to its pending count and publishes the total. Later calls leave the pending list, badges, totals and fetch count alone. No visibility changes. |
| MainView.PageFor | AqiChart.Client/Models/MainViewModel.cs:38-68 | Exactly the four menu keys name a page. |
| MainView.PageForInjective | AqiChart.Client/Models/MainViewModel.cs:38-68 | Different menu keys name different pages. |
| MainView.DeliveryLandsWithBothParties | AqiChart.Client/Models/MainViewModel.cs:439-492 | The receiver's push and the sender's echo of one stored message turn into client messages with the same id and text, keyed by the other party. |
| MainView.MainViewModel.constructor | AqiChart.Client/Models/MainViewModel.cs:71-89 | The main window starts on the chat page with a zero badge. |
| MainView.MainViewModel.GetMunu | AqiChart.Client/Models/MainViewModel.cs:38-68 | A cached page is returned unchanged. A known key creates, caches and lists its page once. An unknown key gives nothing and changes nothing. |
| MainView.MainViewModel.SwitchView | AqiChart.Client/Models/MainViewModel.cs:91-98 | A known key activates its page and an unknown one changes nothing. |
| MainView.MainViewModel.OnReceiveMessage | AqiChart.Client/Models/MainViewModel.cs:439-465 | A pushed message is published once, converted with IsMe false. |
| MainView.MainViewModel.OnSentMe | AqiChart.Client/Models/MainViewModel.cs:466-492 | The echo is published once, converted with IsMe true and the own user's profile. |
| MainView.MainViewModel.HandleSend | AqiChart.Client/Models/MainViewModel.cs:622-626 | A send request invokes the hub's SendMessageToFriend once, with its receiver and text. |
| MainView.MainViewModel.HandleCount | AqiChart.Client/Models/MainViewModel.cs:628-632 | The badge takes the published total. |
| Polling.DefaultConfig | AqiChart.Client/Services/BackgroundPollingService.cs:18-49 | The defaults retry three times, run immediately, and poll at five times the retry interval. |
| Polling.CallEvents | AqiChart.Client/Services/BackgroundPollingService.cs:510-584 | One task call raises TaskStarted and, unless there is an exception escaping ExecuteTaskAsync (a TaskStarted handler that throws), TaskCompleted. A task that throws is caught inside and reported as a failed result. It never changes the reported status. |
| Polling.FailureEvents | AqiChart.Client/Services/BackgroundPollingService.cs:433-505 | A success raises nothing. TaskFailed is raised exactly for an exception escaping ExecuteTaskAsync (a TaskStarted handler that throws), or for a failed result (including a task that threw) that reaches the retry limit. |
| Polling.AttemptEvents | AqiChart.Client/Services/BackgroundPollingService.cs:433-505 | One attempt's events never change the reported status. |
| Polling.RetryTrace | AqiChart.Client/Services/BackgroundPollingService.cs:433-505 | A whole retry run never changes the reported status. |
| Polling.Attempts | AqiChart.Client/Services/BackgroundPollingService.cs:433-505 | The retry loop stops at the first success, or uses the whole script when none succeeds. |
| Polling.RetryCountBounded | AqiChart.Client/Services/BackgroundPollingService.cs:433-505 | The retry counter stays between 0 and the limit. |
| Polling.SuccessResetsCount | AqiChart.Client/Services/BackgroundPollingService.cs:433-505 | A run that ends in success leaves the counter at zero. |
| Polling.RetrySuccessStep | AqiChart.Client/Services/BackgroundPollingService.cs:433-505 | A first-attempt success runs the task once and resets the counter. |
| Polling.TraceAdvance | AqiChart.Client/Services/BackgroundPollingService.cs:433-505 | A failed attempt extends the trace by its call and failure events. |
| Polling.TraceFinish | AqiChart.Client/Services/BackgroundPollingService.cs:433-505 | A successful attempt ends the trace with its call events. |
| Polling.RetryStep | AqiChart.Client/Services/BackgroundPollingService.cs:433-505 | The trace, counter and attempt count unfold by one attempt. |
| Polling.RetryRoundEnds | AqiChart.Client/Services/BackgroundPollingService.cs:433-505 | When the current attempt succeeds, the rest of the round is its call events, the counter is reset and no further attempt is made. |
| Polling.RetryRoundGoesOn | AqiChart.Client/Services/BackgroundPollingService.cs:433-505 | When the current attempt fails, its call and failure events come first and the round goes on from the next attempt with the updated counter. |
| Polling.FailedRaised | AqiChart.Client/Services/BackgroundPollingService.cs:433-505 | The number of TaskFailed events is bounded by the log's length. |
| Polling.FailedRaisedAppend | AqiChart.Client/Services/BackgroundPollingService.cs:433-505 | TaskFailed counts add up over concatenation. |
| Polling.FailedRaisedAfterFailure | AqiChart.Client/Services/BackgroundPollingService.cs:433-505 | A plain failure raises TaskFailed once when it reaches the retry limit, and otherwise not at all. |
| Polling.FailuresAccounting | AqiChart.Client/Services/BackgroundPollingService.cs:433-505 | Over a run of failures, the TaskFailed events times the limit, plus the final counter, equals the starting counter plus the failures. |
| Polling.QuietKeepsReported | AqiChart.Client/Services/BackgroundPollingService.cs:130-145 | Task events keep the status last reported and the property that every reported status is a change. |
| Polling.ChangeExtendsHistory | AqiChart.Client/Services/BackgroundPollingService.cs:130-145 | Reporting a different status keeps every reported status a real change. |
| Polling.PollingService.constructor | AqiChart.Client/Services/BackgroundPollingService.cs:18-49 | A service starts Stopped, with a zero counter and an empty log. |
| Polling.PollingService.SetStatus | AqiChart.Client/Services/BackgroundPollingService.cs:130-145 | StatusChanged is raised exactly when the status changes. |
| Polling.PollingService.Start | AqiChart.Client/Services/BackgroundPollingService.cs:213-236 | Starting anything but a stopped service fails and changes nothing. Otherwise the service is Running with a token source. With RunImmediately the loop resets the counter and announces its first call, with status Stopped, before StatusChanged and ServiceStarted, and the rest of that round stays pending. Without it only StatusChanged and ServiceStarted are raised. |
| Polling.PollingService.BeginImmediateRound | AqiChart.Client/Services/BackgroundPollingService.cs:366-371 | Before its first await, the RunImmediately round resets the counter and raises TaskStarted with the current status and a zero counter. |
| Polling.PollingService.Announce | AqiChart.Client/Services/BackgroundPollingService.cs:223-230 | The status becomes Running, StatusChanged is raised if it changed, and ServiceStarted follows. |
| Polling.ImmediateRoundOrder | AqiChart.Client/Services/BackgroundPollingService.cs:213-236 | Start plus the first loop iteration of a RunImmediately service log TaskStarted(Stopped, 0), StatusChanged(Running), ServiceStarted, then the rest of the retry round from a zero counter. |
| Polling.PollingService.Stop | AqiChart.Client/Services/BackgroundPollingService.cs:241-288 | A stopped service is left alone. Otherwise it becomes Stopped, drops its token source and pending run, and reports the change and the stop. |
| Polling.PollingService.Pause | AqiChart.Client/Services/BackgroundPollingService.cs:293-309 | Only a running service pauses; otherwise the call fails and nothing changes. |
| Polling.PollingService.Resume | AqiChart.Client/Services/BackgroundPollingService.cs:314-330 | Only a paused service resumes; otherwise the call fails and nothing changes. |
| Polling.PollingService.ExecuteTask | AqiChart.Client/Services/BackgroundPollingService.cs:510-584 | It logs the call events. With an exception escaping ExecuteTaskAsync (a TaskStarted handler that throws) the call is an error and the time is kept; otherwise the task's result is returned and the time is stamped. |
| Polling.PollingService.TriggerManualExecution | AqiChart.Client/Services/BackgroundPollingService.cs:335-343 | Without a token source it fails; otherwise it runs the task once. |
| Polling.PollingService.CountFailure | AqiChart.Client/Services/BackgroundPollingService.cs:433-505 | The counter and log follow one attempt's outcome. |
| Polling.PollingService.Attempt | AqiChart.Client/Services/BackgroundPollingService.cs:433-505 | One attempt reports success exactly when the task succeeded. A success only logs the call events and keeps the counter; a failure also logs the failure events and advances the counter. |
| Polling.PollingService.CompleteTask | AqiChart.Client/Services/BackgroundPollingService.cs:510-584 | The rest of an announced call: TaskCompleted unless there is an exception escaping ExecuteTaskAsync (a TaskStarted handler that throws). That exception is an error with the time kept; otherwise the result is returned and the time is stamped. |
| Polling.PollingService.FinishCall | AqiChart.Client/Services/BackgroundPollingService.cs:433-505 | The rest of an announced attempt reports success exactly when the task succeeded; a failure also logs the failure events and advances the counter. |
| Polling.PollingService.RetryRound | AqiChart.Client/Services/BackgroundPollingService.cs:437-505 | From any starting counter, the round makes as many attempts as the script allows, leaves the counter the script determines and appends exactly the retry trace. |
| Polling.PollingService.ExecuteWithRetry | AqiChart.Client/Services/BackgroundPollingService.cs:433-505 | It resets the counter, makes as many attempts as the script allows, leaves the counter the script determines and appends exactly the retry trace from zero. |
| Polling.PollingService.FinishImmediateRound | AqiChart.Client/Services/BackgroundPollingService.cs:433-505 | The round Start announced ends as the retry trace without its first TaskStarted; a round cancelled before its first call ends adds nothing. |
| Polling.AnnouncedRoundRest | AqiChart.Client/Services/BackgroundPollingService.cs:433-505 | Without its first TaskStarted, a round is the rest of the first call, then (on failure) the failure events and the round from the next counter. |
| Polling.ImmediateRoundGoesOn | AqiChart.Client/Services/BackgroundPollingService.cs:433-505 | When the announced first call failed, its remaining events, its failure events and the following round make up the rest of the retry trace. |
| Polling.PollingService.LoopStep | AqiChart.Client/Services/BackgroundPollingService.cs:366-417 | The first iteration of a RunImmediately service finishes the round Start announced, with no wait. A later one waits the interval, then either waits while paused (running nothing) or runs a retry round from zero. A round ends without a success only when it is cancelled, so the loop goes on exactly when some attempt succeeded. |
| Polling.PausedRunsNothing | AqiChart.Client/Services/BackgroundPollingService.cs:422-428 | A paused service with no immediate run pending starts no task. |
| Throttle.ThrottleManager.constructor | AqiChart.Client/Common/ThrottleManager.cs:13-19 | A new manager has run nothing and its timer is off. |
| Throttle.ThrottleManager.TimerTick | AqiChart.Client/Common/ThrottleManager.cs:21-25 | A tick stamps the time and stops the timer. |
| Throttle.ThrottleManager.Execute | AqiChart.Client/Common/ThrottleManager.cs:27-50 | A throttled call within the window does not run; it arms the timer for the rest of the window. Any other call runs the action at once and stamps the time. |
| Throttle.FirstCallRuns | AqiChart.Client/Common/ThrottleManager.cs:27-50 | The first throttled call always runs. |
| Throttle.BurstRunsAtMostOnce | AqiChart.Client/Common/ThrottleManager.cs:27-50 | Two throttled calls within one window run the action at most once. |
| Throttle.DebounceAlwaysRuns | AqiChart.Client/Common/ThrottleManager.cs:27-50 | In debounce mode every call runs the action. |
| AddressBook.Fold | AqiChart.Client/Models/AddressBook/AddressBookViewModel.cs:125-151 | Case folding keeps the length and maps each character. |
| AddressBook.MatchShift | AqiChart.Client/Models/AddressBook/AddressBookViewModel.cs:125-151 | A match in the tail is a match one position later in the whole text. |
| AddressBook.ContainsIgnoreCase | AqiChart.Client/Models/AddressBook/AddressBookViewModel.cs:125-151 | The scan answers true exactly when the pattern matches, ignoring case, at some position. |
| AddressBook.FoldTwice | AqiChart.Client/Models/AddressBook/AddressBookViewModel.cs:125-151 | Folding is idempotent. |
| AddressBook.FoldSlice | AqiChart.Client/Models/AddressBook/AddressBookViewModel.cs:125-151 | Folding commutes with slicing. |
| AddressBook.MatchFolded | AqiChart.Client/Models/AddressBook/AddressBookViewModel.cs:125-151 | Matching ignores case in both the text and the pattern. |
| AddressBook.ContainsIgnoresCase | AqiChart.Client/Models/AddressBook/AddressBookViewModel.cs:125-151 | The search gives the same answer on case-folded inputs. |
| AddressBook.Shown | AqiChart.Client/Models/AddressBook/AddressBookViewModel.cs:125-151 | An empty search shows everyone. Otherwise a contact is shown exactly when its nickname contains the text, ignoring case. |
| AddressBook.UserGroup.constructor | AqiChart.Client/Data/UserGroup.cs:7-61 | A group holds its members, counts them, is visible and has no selection. |
| AddressBook.ExpectedGroups | AqiChart.Client/Models/AddressBook/AddressBookViewModel.cs:72-107 | At most two groups are built, each non-empty and of the request or rejection kind. |
| AddressBook.AddressBookViewModel.constructor | AqiChart.Client/Models/AddressBook/AddressBookViewModel.cs:16-19 | The book starts with no group, no selection and no search text. |
| AddressBook.AddressBookViewModel.GetData | AqiChart.Client/Models/AddressBook/AddressBookViewModel.cs:72-107 | The groups are rebuilt from the non-empty request and rejection lists, in that order, and the selection is cleared. |
| AddressBook.AddressBookViewModel.SelectdItem | AqiChart.Client/Models/AddressBook/AddressBookViewModel.cs:109-118 | Selecting a group selects its user. Accepting is offered exactly when a request is selected. |
| AddressBook.AddressBookViewModel.FilterContacts | AqiChart.Client/Models/AddressBook/AddressBookViewModel.cs:125-151 | Each member's visibility follows the search. Each group is visible exactly when it has members, even when the search hides all of them. Badges are untouched. |
| AddressBook.AddressBookViewModel.ShowBySearch | AqiChart.Client/Models/AddressBook/AddressBookViewModel.cs:125-151 | Each listed contact's visibility follows the search. |
| AddressBook.AddressBookViewModel.SetSearchText | AqiChart.Client/Models/AddressBook/AddressBookViewModel.cs:61-70 | Setting the text stores it and refilters the groups. |
| ApiClient.TrimSlashes | AqiChart.Client/HttpClient/ApiClient.cs:144-159 | Only trailing slashes are removed, and the result does not end in one. |
| ApiClient.NormalizeBaseUrlSpec | AqiChart.Client/HttpClient/ApiClient.cs:144-159 | A normalised base URL ends in exactly one slash, and normalising is idempotent. |
| ApiClient.Entry | AqiChart.Client/HttpClient/ApiClient.cs:587-600 | Each query entry is a key=value pair. |
| ApiClient.QueryPairs | AqiChart.Client/HttpClient/ApiClient.cs:587-600 | Null values are skipped. |
| ApiClient.QueryPairsSpec | AqiChart.Client/HttpClient/ApiClient.cs:587-600 | The pairs are exactly the escaped entries of the non-null parameters, and there are none exactly when no parameter has a value. |
| ApiClient.JoinNonEmpty | AqiChart.Client/HttpClient/ApiClient.cs:587-600 | Joining non-empty parts is empty exactly when there are no parts. |
| ApiClient.QueryStringEmpty | AqiChart.Client/HttpClient/ApiClient.cs:587-600 | The query string is empty exactly when no parameter has a value. |
| ApiClient.BuildDictionaryQueryString | AqiChart.Client/HttpClient/ApiClient.cs:587-600 | The loop builds the query string, which is empty exactly when no parameter has a value. |
| ApiClient.WithQuery | AqiChart.Client/HttpClient/ApiClient.cs:541-547 | An empty query leaves the URL alone; otherwise the URL, a question mark and the query follow in that order. |
| ApiClient.BuildDictionaryUrlWithQueryString | AqiChart.Client/HttpClient/ApiClient.cs:541-547 | The URL changes exactly when some parameter has a value. |
| ApiClient.PostUrlEndpoint | AqiChart.Client/HttpClient/ApiClient.cs:255-263 | Form data with values is appended as a query. Otherwise the endpoint is unchanged. |
| ApiClient.JsonContent | AqiChart.Client/HttpClient/ApiClient.cs:476-539 | A JSON body is attached exactly for data sent with a method other than GET or DELETE. |
| ApiClient.GetDropsParameters | AqiChart.Client/HttpClient/ApiClient.cs:487-506 | As written, every request's URL is the bare endpoint: GET parameters are lost. |
| ApiClient.GetDropsParametersExample | AqiChart.Client/HttpClient/ApiClientExamples.cs:150 | GET "todos" with id=1 goes to "todos", not "todos?id=1". |
| ApiClient.RequestUrlIntended | AqiChart.Client/HttpClient/ApiClient.cs:487-506 | In the corrected URL, GET and DELETE parameters with values form the query. Other methods use the bare endpoint. |
| ApiClient.RetryFrom | AqiChart.Client/HttpClient/ApiClient.cs:602-633 | The retry loop makes at most the limit plus one attempts, and a settled answer is the one at the last attempt. |
| ApiClient.Schedule | AqiChart.Client/HttpClient/ApiClient.cs:602-633 | n attempts are separated by n - 1 delays. |
| ApiClient.ScheduleShape | AqiChart.Client/HttpClient/ApiClient.cs:602-633 | The schedule alternates attempts and delays, starting and ending with an attempt. |
| ApiClient.ExecuteWithRetry | AqiChart.Client/HttpClient/ApiClient.cs:602-633 | The loop's result and attempt count are those of the retry function, and its steps follow the schedule. |
| ApiClient.RetryStopsAtFirstSettled | AqiChart.Client/HttpClient/ApiClient.cs:602-633 | Retrying stops at the first attempt that settles. |
| ApiClient.ServerErrorsExhaustRetries | AqiChart.Client/HttpClient/ApiClient.cs:602-633 | When every answer is a server error, all attempts are used and the last answer is returned. |
| ApiClient.ReusedRequestRefused | AqiChart.Client/HttpClient/ApiClient.cs:635-668 | With one request message shared by all attempts, every attempt from the second on is refused, and the last refusal ends the loop after MaxRetryCount + 1 attempts. |
| ApiClient.ReusedRequestNeverRetries | AqiChart.Client/HttpClient/ApiClient.cs:635-668 | As written, a request-based retry whose first attempt does not settle ends with HttpClient's refusal, never with a later server answer. |
| ApiClient.SettledFirstAttempt | AqiChart.Client/HttpClient/ApiClient.cs:602-633 | A first attempt that settles is the only one. |
| ApiClient.ApiClient.constructor | AqiChart.Client/HttpClient/ApiClientConfig.cs:10-17 | A new client has an empty base URL, no retry, a limit of three retries, no headers and no token. |
| ApiClient.ApiClient.SetBaseUrl | AqiChart.Client/HttpClient/ApiClient.cs:144-159 | A null or blank URL is refused with nothing changed. Any other URL is stored in normal form, ending in one slash, even when the HTTP client then refuses it as a base address; the call succeeds exactly when the client accepts it. |
| ApiClient.ApiClient.ClearBearerToken | AqiChart.Client/HttpClient/ApiClient.cs:195-206 | The token is removed. |
| ApiClient.ApiClient.SetBearerToken | AqiChart.Client/HttpClient/ApiClient.cs:175-193 | A blank token clears authorisation; any other token is stored. |
| ApiClient.ApiClient.AddDefaultHeader | AqiChart.Client/HttpClient/ApiClient.cs:208-224 | The header dictionary is overwritten, while the client's own headers gain one more value. |
| ApiClient.ApiClient.RemoveDefaultHeader | AqiChart.Client/HttpClient/ApiClient.cs:226-241 | A known header is removed from both places; an unknown one changes nothing. |
| ApiClient.ApiClient.SendRaw | AqiChart.Client/HttpClient/ApiClient.cs:314-358 | A success carries a 2xx code and no message. A cancellation or exception becomes a failed response. Failures are prefixed when the caller asked to throw. |
| ApiClient.SendOnce | AqiChart.Client/HttpClient/ApiClient.cs:314-358 | Without retry, an answer is a status and an exception is an error. |
| ApiClient.ProcessResponse | AqiChart.Client/HttpClient/ApiClient.cs:670-720 | The response carries the status. It is a success exactly for 2xx and has a message exactly when it failed. |
| ApiClient.AddHeaderTwice | AqiChart.Client/HttpClient/ApiClient.cs:208-224 | Adding a header twice keeps the last value in the dictionary but both values in the client. |
| ApiClient.FromUnix | AqiChart.Client/HttpClient/ApiClient.cs:787-805 | Values above ten billion are milliseconds, smaller ones are seconds, and unrepresentable instants give MinValue. |
| ApiClient.SecondsAndMillisAgree | AqiChart.Client/HttpClient/ApiClient.cs:787-805 | A timestamp in seconds and the same one in milliseconds read as the same instant. |
| ApiClient.Read | AqiChart.Client/HttpClient/ApiClient.cs:779-858 | Numbers are read as Unix time and strings by general, numeric, then format-by-format parsing. Anything else is MinValue. |
| CommandBase.CanExecute | AqiChart.Client/Common/CommandBase.cs:11-14 | Without a predicate a command cannot execute; otherwise the predicate decides. |
| CommandBase.Execute | AqiChart.Client/Common/CommandBase.cs:16-19 | The action runs once with the parameter when set; otherwise nothing happens. |
| CommandBase.NewRelayCommand | AqiChart.Client/Common/CommandBase.cs:42-46 | A null action is refused; otherwise both delegates are kept. |
| CommandBase.RelayCanExecute | AqiChart.Client/Common/CommandBase.cs:48-51 | Without a predicate a relay command can always execute. |
| CommandBase.RelayExecute | AqiChart.Client/Common/CommandBase.cs:53-56 | The action runs once, ignoring the parameter. |
| NotifyBase.NotifyBase.constructor | AqiChart.Client/Common/NotifyBase.cs:11-14 | Nothing has been raised yet. |
| NotifyBase.NotifyBase.DoNotify | AqiChart.Client/Common/NotifyBase.cs:11-14 | PropertyChanged is raised once, and only when someone subscribes. |
| NotifyBase.NotifyBase.SetProperty | AqiChart.Client/Common/NotifyBase.cs:17-23 | The value is stored, and the change is reported and raised exactly when the value differs. |
| NotifyBase.SetTwice | AqiChart.Client/Common/NotifyBase.cs:17-23 | Setting the same value twice raises at most once. |
| DataConverter.RemoveChar | AqiChart.Client/Data/DataConverter.cs:42-50 | Removing a character removes every occurrence and keeps all other characters. |
| DataConverter.ReplaceAbsent | AqiChart.Client/Data/DataConverter.cs:42-50 | Replacing a pattern that cannot occur changes nothing. |
| DataConverter.StringToUnicode | AqiChart.Client/Data/DataConverter.cs:42-50 | Null and empty pass through. Any other result has no semicolon. |
| DataConverter.IconReplaced | AqiChart.Client/Data/DataConverter.cs:42-50 | The first replacement turns `&#xe625;` into `\ue625;`. |
| DataConverter.IconStripped | AqiChart.Client/Data/DataConverter.cs:42-50 | The semicolon is then dropped. |
| DataConverter.IconReference | AqiChart.Client/Data/DataConverter.cs:42-50 | An HTML hex reference becomes the matching Unicode escape. |
| DataConverter.SemicolonFormsReference | AqiChart.Client/Data/DataConverter.cs:42-50 | Removing semicolons after the replacement can itself form "&#x", which is left untranslated. |
| DataConverter.StringToIconConvert | AqiChart.Client/Data/DataConverter.cs:26-33 | Null passes through; anything else is unescaped after the conversion. |
| DataConverter.NumberMessageTip | AqiChart.Client/Data/DataConverter.cs:55-68 | A badge is visible exactly for a value that parses as a positive integer. |
| DataConverter.BoolToVisibility | AqiChart.Client/Data/DataConverter.cs:78-95 | Visible exactly for a boxed true; anything else, including a failed cast, is collapsed. |
| DataConverter.ForeColorConvert | AqiChart.Client/Data/DataConverter.cs:12-15 | The value passes through. |
| DataConverter.ForeColorConvertBack | AqiChart.Client/Data/DataConverter.cs:18-21 | Converting back gives null. |
| ExceptionFilter.StatusMessage | AqiChartServer.WebApi/Helper/ExceptionFilter.cs:57-63 | 401, 404 and 502 get their fixed messages and every other code gets the unknown-error message. |
| ExceptionFilter.ExceptionStatus | AqiChartServer.WebApi/Helper/ExceptionFilter.cs:28-67 | An application exception keeps its code; any other exception is 500. |
| ExceptionFilter.HttpResponse.constructor | AqiChartServer.WebApi/Helper/ExceptionFilter.cs:28-67 | A response starts with nothing written. |
| ExceptionFilter.HttpResponse.HandleException | AqiChartServer.WebApi/Helper/ExceptionFilter.cs:75-80 | One JSON error body is written and the content type is JSON. |
| ExceptionFilter.HttpResponse.Invoke | AqiChartServer.WebApi/Helper/ExceptionFilter.cs:28-67 | A thrown exception writes its error body. A completed non-200 response writes the status message. A 200 response writes nothing. |
| GlobalExceptionFilter.OnException | AqiChartServer.WebApi/Helper/GlobalExceptionFilter.cs:9-19 | The exception is marked handled and its result replaced. An argument error becomes a 400 carrying its own message; any other exception becomes a 500 with the fixed system message. |
| GlobalExceptionFilter.OnExceptionIgnoresPriorResult | AqiChartServer.WebApi/Helper/GlobalExceptionFilter.cs:9-19 | The answer depends only on the exception. |
| MyResultMiddleWare.OnActionExecuted | AqiChartServer.WebApi/Helper/MyResultMiddleWare.cs:8-60 | A thrown action is left alone; every other result is wrapped in a status-1 envelope. The not-found code 30001 appears exactly for an empty result, an object result with a null value, or a status-code result whose code is 30001. An object value becomes code 200 with the value, content code 200 with the text, a status-code result its own code with its type name as the message, and anything else (including no result) code 200 with the result itself. |
| MyResultMiddleWare.BadRequestBranchUnreachable | AqiChartServer.WebApi/Helper/MyResultMiddleWare.cs:37-53 | A BadRequestResult is caught by the status-code branch, so the dedicated branch never runs. |
| MyResultMiddleWare.OnActionExecutedBadRequestFirst | AqiChartServer.WebApi/Helper/MyResultMiddleWare.cs:43-53 | With the bad-request test first, a BadRequestResult gets its intended envelope and everything else is unchanged. |
| GlobalHotkey.ConvertModifierKeys | AqiChart.Client/ScreenshotTool/GlobalHotkey.cs:47-64 | Each WPF modifier maps to exactly its Win32 flag. |
| GlobalHotkey.GlobalHotkey.constructor | AqiChart.Client/ScreenshotTool/GlobalHotkey.cs:16-45 | A new hotkey is live and not disposed. |
| GlobalHotkey.GlobalHotkey.WndProc | AqiChart.Client/ScreenshotTool/GlobalHotkey.cs:66-74 | The hotkey fires exactly for WM_HOTKEY with its id, and only then marks the message handled. |
| GlobalHotkey.GlobalHotkey.Dispose | AqiChart.Client/ScreenshotTool/GlobalHotkey.cs:76-101 | The first disposal unhooks and unregisters once; later ones do nothing. |
| GlobalHotkey.NewGlobalHotkey | AqiChart.Client/ScreenshotTool/GlobalHotkey.cs:16-45 | A null window is refused. A failed registration is an error. Otherwise the hotkey registers with the converted modifiers. |
| GlobalHotkey.DisposeTwice | AqiChart.Client/ScreenshotTool/GlobalHotkey.cs:76-101 | Disposing twice unregisters exactly once. |
| ScreenshotWindow.NormalizedRect | AqiChart.Client/ScreenshotTool/ScreenshotWindow.xaml.cs:242-264 | The selection has non-negative size and its corners are the two points. |
| ScreenshotWindow.NormalizedRectSymmetric | AqiChart.Client/ScreenshotTool/ScreenshotWindow.xaml.cs:242-264 | Dragging either way gives the same rectangle. |
| ScreenshotWindow.WheelThickness | AqiChart.Client/ScreenshotTool/ScreenshotWindow.xaml.cs:214-240 | The wheel moves the thickness by one in its direction, only within range. |
| ScreenshotWindow.WheelKeepsRange | AqiChart.Client/ScreenshotTool/ScreenshotWindow.xaml.cs:214-240 | The thickness stays in range. |
| ScreenshotWindow.RemoveFirst | AqiChart.Client/ScreenshotTool/ScreenshotWindow.xaml.cs:737-745 | Removing an element from the canvas takes away exactly one occurrence when present. |
| ScreenshotWindow.ScreenshotWindow.constructor | AqiChart.Client/ScreenshotTool/ScreenshotWindow.xaml.cs:48-56 | The window starts idle with thickness 3, rectangle mode and empty stacks. |
| ScreenshotWindow.ScreenshotWindow.EnterSelectionMode | AqiChart.Client/ScreenshotTool/ScreenshotWindow.xaml.cs:101-127 | Selection mode starts with no selection and empty history. |
| ScreenshotWindow.ScreenshotWindow.EnterEditingMode | AqiChart.Client/ScreenshotTool/ScreenshotWindow.xaml.cs:129-152 | Editing mode ends selection with nothing in progress. |
| ScreenshotWindow.ScreenshotWindow.MouseDown | AqiChart.Client/ScreenshotTool/ScreenshotWindow.xaml.cs:156-169 | A left press while selecting starts a drag at the point; anything else changes nothing. |
| ScreenshotWindow.ScreenshotWindow.MouseMove | AqiChart.Client/ScreenshotTool/ScreenshotWindow.xaml.cs:171-184 | While dragging, the selection follows the pointer; otherwise nothing changes. |
| ScreenshotWindow.ScreenshotWindow.MouseUp | AqiChart.Client/ScreenshotTool/ScreenshotWindow.xaml.cs:186-204 | Releasing a drag keeps a large enough selection or resets it; otherwise nothing changes. |
| ScreenshotWindow.ScreenshotWindow.TakeScreenshot | AqiChart.Client/ScreenshotTool/ScreenshotWindow.xaml.cs:322-353 | A successful capture enters editing with a clean canvas; a null bitmap leaves the selection as it was. |
| ScreenshotWindow.ScreenshotWindow.MouseWheel | AqiChart.Client/ScreenshotTool/ScreenshotWindow.xaml.cs:214-240 | Ctrl+wheel while editing adjusts the thickness; otherwise nothing changes. |
| ScreenshotWindow.ScreenshotWindow.NewElement | AqiChart.Client/ScreenshotTool/ScreenshotWindow.xaml.cs:415-448 | A new element gets a fresh identity and is added to the canvas. |
| ScreenshotWindow.Placed | AqiChart.Client/ScreenshotTool/ScreenshotWindow.xaml.cs:415-448 | The element added to the canvas is the current shape if there is one, else the brush path; there is one exactly when either exists. |
| ScreenshotWindow.ScreenshotWindow.StartDrawing | AqiChart.Client/ScreenshotTool/ScreenshotWindow.xaml.cs:415-448 | Shape modes start a fresh shape, brush mode a fresh path, and the other modes create nothing. The element placed is the current shape, or else the path. The call succeeds exactly when nothing is placed or the placed element is not yet on the canvas. On success the placed element is appended; adding an element that is already a child fails and leaves the canvas unchanged. |
| ScreenshotWindow.StaleShapeBreaksBrush | AqiChart.Client/ScreenshotTool/ScreenshotWindow.xaml.cs:372-448 | Pressing in a shape mode and then, without a release, in brush mode fails: the unfinished shape is placed again. |
| ScreenshotWindow.ScreenshotWindow.FinishDrawing | AqiChart.Client/ScreenshotTool/ScreenshotWindow.xaml.cs:499-513 | A brush path in progress is pushed on the undo stack and cleared, and the current shape stays. Otherwise a shape in progress is pushed and cleared. Either push clears redo; with neither, the stacks are unchanged. |
| ScreenshotWindow.ScreenshotWindow.AddTextElement | AqiChart.Client/ScreenshotTool/ScreenshotWindow.xaml.cs:614-682 | An input box is added to the canvas. |
| ScreenshotWindow.ScreenshotWindow.CommitText | AqiChart.Client/ScreenshotTool/ScreenshotWindow.xaml.cs:637-669 | Blank text just removes the box. Other text replaces the box with a text block, which becomes undoable. |
| ScreenshotWindow.ScreenshotWindow.AddMosaicElement | AqiChart.Client/ScreenshotTool/ScreenshotWindow.xaml.cs:684-701 | A mosaic is added and pushed on the undo stack, which clears redo. |
| ScreenshotWindow.ScreenshotWindow.CanvasMouseDown | AqiChart.Client/ScreenshotTool/ScreenshotWindow.xaml.cs:372-390 | Outside editing nothing changes. Text mode adds a box and keeps both stacks. Mosaic mode adds a mosaic, pushes it on the undo stack and clears redo. Both leave the drawing in progress alone. Every other mode starts drawing as StartDrawing states, leaving the stacks unchanged. |
| ScreenshotWindow.ScreenshotWindow.CanvasMouseUp | AqiChart.Client/ScreenshotTool/ScreenshotWindow.xaml.cs:408-413 | Outside editing the canvas, the stacks and the drawing in progress are unchanged. While editing, a brush path in progress is pushed on the undo stack and cleared, and the current shape stays. Otherwise a shape in progress is pushed and cleared. Either push clears redo. With neither present, the stacks are unchanged. |
| ScreenshotWindow.ScreenshotWindow.ClearDrawings | AqiChart.Client/ScreenshotTool/ScreenshotWindow.xaml.cs:730-735 | The canvas and both stacks are emptied. |
| ScreenshotWindow.ScreenshotWindow.Undo | AqiChart.Client/ScreenshotTool/ScreenshotWindow.xaml.cs:737-745 | The last undoable element moves to the redo stack and leaves the canvas; an empty stack changes nothing. |
| ScreenshotWindow.ScreenshotWindow.Redo | AqiChart.Client/ScreenshotTool/ScreenshotWindow.xaml.cs:747-755 | The last undone element returns to the canvas and the undo stack; an empty stack changes nothing. |
| ScreenshotWindow.UndoThenRedo | AqiChart.Client/ScreenshotTool/ScreenshotWindow.xaml.cs:737-755 | Undo followed by redo restores both stacks and the canvas contents, with the element on top. |

## Left out

- Transport: HTTP, SignalR and the client's event aggregator. The hub's pushes, the REST calls a view model makes and the aggregator's publications are ghost logs of events, in the order the code issues them. The one exception is the polling service, described below under Polling.PollingService.Start.
- Concurrency and timing: async continuations, `Task.Delay`, timers and cancellation tokens. Time is an integer tick count passed in. GUIDs, the clock and database commit results are parameters.
- Serialisation: JSON serialisation and deserialisation, `Uri.EscapeDataString`, `Regex.Unescape`, `int.TryParse`, `long.TryParse` and `DateTime.TryParse`/`TryParseExact` are function parameters. A failure to deserialise a response body is not modelled. Nor is a failure of `Regex.Unescape`: it throws on a malformed escape (a stray `\q`, or `&#xzz;`, which becomes `\uzz`), while the model's unescape parameter always returns a string.
- Tables.Filter: returns the matching rows in insertion order. The source's unread queries (`GetAllUnreadByUserId`, `GetUnreadUserChart`) have no ORDER BY, and MySQL does not fix the order of such results; with a GUID primary key, a new row need not come last.
- PrivateChatBiz.NewMessageIsListedUnread and PrivateChatBiz.ConversationIsSubListing: their sequence equalities hold in the model's insertion order, which the database does not promise. The order-free facts the source does guarantee are in PrivateChatBiz.UnreadListingsAsMultisets.
- UserBiz.SearchUserListSpec: the nickname filter is ordinal substring containment. The database runs it as SQL `LIKE '%text%'`, which follows the column's collation (case-insensitive by default in MySQL) and treats `%` and `_` in the search text as wildcards. A stored null nickname never matches there; the model has no null nicknames. Its result is a subset of what the database returns and need not equal it.
- ChatHub.SendMessage, the legacy broadcast method: it is not used by the client.
- MainView: the tray icon, window buttons, TCP client, hotkey registration, the screenshot window's lifecycle and the heartbeat body. These are UI and socket plumbing around the state the model keeps.
- Polling.PollingService.Start: the loop Start launches runs synchronously only up to its first await. The model places the synchronous prefix, the counter reset and the first TaskStarted, before StatusChanged and ServiceStarted, and the rest of that round in the next loop step. A task that completes without awaiting, or a TaskStarted handler that throws, would raise more first-call events before StatusChanged; the model does not capture that.
- Polling: `GetStatusInfo`, the per-task timeout, `Dispose`, and the polling loop's outer catch. The one-second wait while paused is a single step.
- DataConverter.StringToIconConvert: always yields a string; the exception `Regex.Unescape` throws on a malformed escape is not modelled, as the Serialisation line says.
- CommandBase: `RaiseCanExecuteChanged` and `CanExecuteChanged` are event plumbing.
- DataConverter: `StringToIconConverter.ConvertBack` throws. The `ConvertBack` methods of the number and bool converters return null, as `ForeColorConvertBack` does.
- AddressBook: the accept and reject buttons show a message box and call the server's `ThroughFriend`/`RejectFriend`, which are modelled. The Search button runs the same filter as `FilterContacts`.
- AddressBook.ContainsIgnoreCase: folds ASCII letters only, where .NET's ordinal-ignore-case comparison folds all of Unicode.
- ApiClient: `Configure`, `SetTimeout`, `Dispose`, streaming and download, and the JSON option set.
- Screenshot: pixel capture, rendering, saving and the clipboard; a capture that throws, which shows an error box and cancels the screenshot, raising ScreenshotCancelled and closing the window (ScreenshotWindow.xaml.cs:347-352, :1199-1203); the keyboard and toolbar dispatch; the thickness combo box. Elements are identities on a canvas, and their geometry is kept only for the selection rectangle.
- ScreenshotWindow.ScreenshotWindow.TakeScreenshot: only a returned bitmap or a null one is modelled. A capture that throws cancels the screenshot and closes the window, as the Screenshot line says.
- ChatManage.ChatManageViewModel.GetFriends: the friend list is always a list. The view model's list is null until the first friend list arrives, so a message handled before then throws a NullReferenceException in `UpdateMessageCount`; the model starts from an empty list. A fetch that throws (`ApiService.GetFriends` throws on a non-200 code) or yields null is not modelled either. The fetch runs through the dispatcher in an `async` lambda; the model runs it in call order.
- ChatHub.Hub.GetUserId: the registry's enumeration order is unspecified, so when several users share a connection any one of them may be returned.
- ExceptionFilter.ExceptionStatus: the application exception's own class is not part of this model; its code is carried by the exception value.
- ApiClient.ApiClient.SendRaw: with RetryOnFailure set, each attempt is an independent send, as `SendUrlAsync` does it. For `SendRawAsync` this is the corrected behaviour; the request reuse as written is under Findings.
- ApiClient.Schedule: its contract gives only the length; the alternation of attempts and delays is `ApiClient.ScheduleShape`.
- Integer widths: `int` and `long` are unbounded. No counter in the core comes near overflow, except the Unix-time conversion, which states its range explicitly.

## Findings

| source | as written | input that shows it | evidently intended | confidence | as-written member | corrected member |
|---|---|---|---|---|---|---|
| AqiChart.Client/HttpClient/ApiClient.cs:635-668 | Every retry of `SendRawAsync` passes the same `HttpRequestMessage` to `SendAsync`, which refuses a message it has already sent | RetryOnFailure with MaxRetryCount 3, and a server that answers 503 to the first send | a new request message for each attempt, so the 503 is retried as `SendUrlAsync` does; the call ends with the last server answer | not executed | ApiClient.ReusedRequestNeverRetries | ApiClient.ServerErrorsExhaustRetries |
| AqiChart.Client/HttpClient/ApiClient.cs:487-506 | GET and DELETE requests use the bare endpoint, and the parameters never reach the URL | GET "todos" with parameters {id: 1} requests "todos" | "todos?id=1", as the calls in ApiClientExamples.cs:150 and :388 expect | not executed | ApiClient.GetDropsParameters | ApiClient.RequestUrlIntended |
| AqiChartServer.WebApi/Helper/MyResultMiddleWare.cs:37-53 | `BadRequestResult` derives from `StatusCodeResult`, so the status-code branch wraps it first and the bad-request branch is dead | an action returning `BadRequest()` | envelope {status 1, code 400, msg "", result 400} from the dedicated branch | not executed | MyResultMiddleWare.BadRequestBranchUnreachable | MyResultMiddleWare.OnActionExecutedBadRequestFirst |
