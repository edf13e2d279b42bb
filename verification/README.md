# Verification of the chat server

A Dafny model of the state logic of a reactor chat server written in C++: an HTTP/1 parser, the message and user
caches in front of MySQL, the event loop with its task queue, the life of connections across loops, the outgoing byte
stream, the timer queue, the nested connection pools, and the smaller cores around them (HTTP/2 demultiplexing,
response bodies, SQL texts, decimal formatting). `dafny verify dfyconfig.toml` checks everything.

## How it is built

Objects of the server are classes here, with the server's fields; every method is proved against a specification
function on values, and the properties are proved about that function. What several threads do together (event loop,
connection life, pools) is a step relation in which every atomic section of the code is one step; the properties hold in
every state of every run, for any number of threads, loops and connections.

| file | models |
|---|---|
| CTypes.dfy, Words.dfy | character classes and `stream >> word` |
| HttpRequest.dfy, HttpContext.dfy | the HTTP/1 request object and the parser's loop, cursor by cursor |
| HttpGrammar.dfy | the requests in question, how they are sent and what they mean, without the parser |
| HttpRoundTrip.dfy, HttpSoundness.dfy | the parser reads exactly those requests, to exactly that meaning |
| HttpThrows.dfy | when it throws |
| MsgCache.dfy | message lists in Redis over the msgs table |
| MsgOrder.dfy | the exact condition under which their answers follow the dates, and when a message is stored twice |
| UserCache.dfy | the users hash over the users table, registration and login |
| EventLoop.dfy | the task queue and the wake-up descriptor |
| TcpServer.dfy, TcpServerProgress.dfy | accept, establish, close and destroy across loops; every close is finished |
| TcpServerRecords.dfy | what the records say about a run: which loop serves whom, who was closed, who is alive |
| Buffer.dfy, Channel.dfy, TcpConnection.dfy | the byte buffer, the interest set, the outgoing and incoming stream |
| TimerQueue.dfy | ordered set, batch expiry, ownership of timers, the one-shot timerfd |
| Pools.dfy | the two condition-variable queues and their nesting |
| Http2Context.dfy, Http2Response.dfy | the nghttp2 callbacks; bodies pulled piece by piece |
| SqlText.dfy | statement texts and bound values |
| LogStream.dfy | integers into a fixed buffer |
| Witnesses.dfy | a concrete input for each finding below |

## What the proofs found

Each of these is a lemma that says exactly when the code is right; the lemma of module Witnesses that is named with it
gives one concrete input on which it is not.

- The edge-trigger flag is lost when the interest set is stored in a `short`, so channels are level-triggered although
  the project's own README says otherwise (`Channels.EdgeTriggerIsLost`, for every set).
- A failed write in the write handler stops the process on an assertion whenever bytes wait on an open connection; a
  socket that is full for a moment is enough (`TcpConnections.FullSocketAborts`; `FullSocket`).
- A header line whose colon stands directly before the carriage return makes the parser throw, and nothing else does
  (`HttpThrows.ThrowsIff`; `EmptyHostThrows`).
- The parser looks for the header "Content-Lenght"; a correctly spelt length has no effect on the body, so the body has
  the announced length only when the bytes happen to be as many (`HttpRoundTrip.LengthIsIgnored`; `LongerThanAnnounced`).
- Ids with a colon make two pairs of users share one message list; the cache is right exactly when no two pairs share a
  key, given messages that fit and dates that advance (`MsgCaches.AllTrueIffDistinct`; `ColonIds`).
- Messages of one pair whose dates do not advance make list and table disagree. For every history and every list the
  answers are right exactly when all messages fit, no two different ones share a date, and the list is a prefix of the
  order by date (`MsgOrders.RightIff`); for a list that was only pushed to, exactly when the messages arrived in the order
  of their dates (`MsgOrders.TruthfulIffInOrder`; `TiedMessages`, `EarlierMessage`).
- The fetch buffer for a message is 50 bytes wide, because the wide one stands at the place of the date. A longer message
  cuts the fetch short, and the marker then ends an incomplete list (`MsgCaches.MarkerIsRightIff`; `WideMessage`).
- A message too wide for the select that looks for duplicates is stored as often as it is sent
  (`MsgOrders.StoredAsOften`; `WideMessageTwice`). Then dates need not advance for the answers to be right
  (`TwiceToWideId`).
- Login accepts one word only. A password with white space in it never gets in (`UserCaches.AcceptedIsClean`), but its
  first word does while the hash holds it as it was given (`UserCaches.AcceptedWord`; `TwoWords`), and at any time when
  the row is readable, the id does not hold the word "password" and that first word is not "NULL"
  (`UserCaches.FirstWordGetsIn`). When the stored password gets in, and when nothing else does, is a function of the run
  (`UserCaches.OwnPasswordIff`, `UserCaches.OnlyOwnPasswordIff`). An id that holds the word "password" locks its owner
  out once the hash has run out, save for one password (`NamedPassword`); an id wider than its column buffer does so for
  every password (`UserCaches.UncachedLoginIff`; `WideId`).
- A table without a key on user_id splits from the hash exactly when a registration names a stored id with another
  password (`UserCaches.KeyIsNeeded`; `TwoPasswords`).
- Any DATA frame marks an HTTP/2 request as complete, END_STREAM or not (`Http2Contexts.StatusIsRightIff`; for every
  stream, `Http2Contexts.CompleteTooEarly`). Trailers start the request over: headers and data that came before are lost
  (`Http2Contexts.WholeRequestIff`; `Trailers`).
- A task that the loop's own thread queues before `Loop()` is not announced (`EventLoops.QueuedBeforeLoop`;
  `TaskBeforeLoop`).
- A negative integer is not formatted as a decimal number (`LogStreams.DecimalIffNotNegative`; `MinusOne`).
- A pool that starts empty serves nobody (`Pools.EmptyPoolServesNobody`); no run gets stuck exactly when both pools start
  with a connection (`Pools.NeverStuckIff`; `EmptyPools`).

## Model

| member | source | states |
|---|---|---|
| HttpRequests.HttpRequest.constructor | Code/http1/HttpsRequest.cpp:10-11 | a new request is empty, with invalid method and unknown version |
| HttpRequests.HttpRequest.SetMethod | Code/http1/HttpsRequest.cpp:47-62 | only the method changes: to GET, POST, HEAD, PUT or DELETE exactly for those texts, to invalid for any other, as the result tells |
| HttpRequests.HttpRequest.SetVersion | Code/http1/HttpsRequest.cpp:15-27 | only the version changes: to 1.0, 1.1, 2.0 or 3.0 exactly for those texts, to unknown for any other |
| HttpRequests.HttpRequest.SetUrl | Code/http1/HttpsRequest.cpp:92-94 | only the path changes |
| HttpRequests.HttpRequest.SetProtocol | Code/http1/HttpsRequest.cpp:111-113 | only the protocol changes |
| HttpRequests.HttpRequest.SetRequestParams | Code/http1/HttpsRequest.cpp:99-101 | one parameter is stored, replacing one with its key |
| HttpRequests.HttpRequest.AddHeader | Code/http1/HttpsRequest.cpp:118-120 | one header is stored, replacing one with its name |
| HttpRequests.HttpRequest.GetHeader | Code/http1/HttpsRequest.cpp:121-128 | the stored value, or an empty text for an unknown name |
| HttpRequests.HttpRequest.SetBody | Code/http1/HttpsRequest.cpp:134-136 | only the body changes |
| HttpRequests.HttpRequest.ParseJson2Dom | Code/http1/HttpsRequest.cpp:155-158 | the body up to its first zero byte is handed to the JSON library |
| HttpRequests.CStringIs | Code/http1/HttpsRequest.cpp:155-158 | a C string is the text up to its first zero byte |
| CTypes.ByCode | Code/http1/HttpsContext.cpp:37-62 | the character classes by code, as in the C locale |
| HttpContexts.HttpContext.ParseRequest | Code/http1/HttpsContext.cpp:24-272 | the loop computes the run of the step function from the stored state and request: new state, request, result and whether a string was asked for with its ends swapped |
| HttpContexts.HttpContext.ReadCharacter | Code/http1/HttpsContext.cpp:36-268 | one round of the loop, all states: cursors, state and every request field are those of one step |
| HttpContexts.HttpContext.ReadMethodAndUrl | Code/http1/HttpsContext.cpp:37-90 | method and path states, every branch |
| HttpContexts.HttpContext.ReadParams | Code/http1/HttpsContext.cpp:91-141 | the four parameter states, every branch |
| HttpContexts.HttpContext.ReadProtocol | Code/http1/HttpsContext.cpp:142-184 | protocol and version states, every branch |
| HttpContexts.HttpContext.ReadHeaders | Code/http1/HttpsContext.cpp:186-227 | header and line-end states, every branch |
| HttpContexts.HttpContext.ReadEnd | Code/http1/HttpsContext.cpp:228-263 | blank line and body, with the misspelt length header and the JSON case |
| HttpContexts.HttpContext.GetCompleteRequest | Code/http1/HttpsContext.cpp:16-18 | tells whether the state is complete |
| HttpContexts.HttpContext.ResetContextStatus | Code/http1/HttpsContext.cpp:20-22 | back to the start state; the request stays |
| HttpContexts.StepProgress | Code/http1/HttpsContext.cpp:24-272 | the cursors stay in order and every round moves on by exactly one character unless it throws |
| HttpContexts.AtoiReads | Code/http1/HttpsContext.cpp:231 | white space, a sign, digits and whatever follows them are read as the number that the digits denote |
| HttpContexts.HttpContext.constructor | Code/http1/HttpsContext.cpp:8-10 | the start state and a fresh request |
| HttpRoundTrip.ReadHead | Code/http1/HttpsContext.cpp:24-254 | a head of the grammar at the front of the input is read into exactly its meaning, whatever follows |
| HttpRoundTrip.RoundTrip | Code/http1/HttpsContext.cpp:24-272 | for every request of the grammar a fresh parser returns true with exactly its fields, last value of a key winning, body all remaining bytes, whatever byte stands behind the input |
| HttpRoundTrip.LineAsSent | Code/http1/HttpsContext.cpp:37-184 | the stored method is GET exactly for a request that says GET, and so for each method and version; path and protocol are those sent |
| HttpRoundTrip.PairsAsSent | Code/http1/HttpsContext.cpp:91-206 | the stored parameters and headers have exactly the names sent, each with its last value |
| HttpRoundTrip.BodyAsSent | Code/http1/HttpsContext.cpp:228-263 | the stored body is empty when the misspelt header announces none and all remaining bytes otherwise; it goes to the JSON library, up to its first zero byte, exactly when the type begins with application/json |
| HttpRoundTrip.BorrowedLineFeed | Code/http1/HttpsContext.cpp:30-32 | when the byte behind the input happens to be the missing last line feed, the request is accepted exactly if no body is demanded |
| HttpRoundTrip.LengthIsIgnored | Code/http1/HttpsContext.cpp:228-263 | without the misspelt header the stored body is all bytes behind the blank line; its length is the one a correctly spelt header announces exactly when the bytes are as many as announced |
| HttpSoundness.Leave | Code/http1/HttpsContext.cpp:24-272 | a run that ends well or throws leaves every state it passes, by a good step or by the one that throws |
| HttpSoundness.FindHead | Code/http1/HttpsContext.cpp:24-254 | the head of every accepted input is a head of the grammar |
| HttpSoundness.AcceptsIffSent | Code/http1/HttpsContext.cpp:24-272 | a fresh parser accepts an input if and only if it is a request of the grammar, whole or lacking only the borrowed line feed |
| HttpSoundness.WhatIsRead | Code/http1/HttpsContext.cpp:24-272 | the request object after any accepted input |
| HttpSoundness.SameTextSameMeaning | Code/http1/HttpsContext.cpp:24-272 | two requests with one text mean the same: the grammar is not ambiguous |
| HttpSoundness.PastIsIrrelevant | Code/http1/HttpsContext.cpp:30-32 | an input accepted with a byte other than a line feed behind it is accepted alike, as the same request, with any byte behind it |
| HttpThrows.ThrowsIff | Code/http1/HttpsContext.cpp:186-206 | a fresh parser throws if and only if a good request line and good header lines are followed by a header whose colon stands directly before the carriage return |
| HttpThrows.ThrowsWhateverFollows | Code/http1/HttpsContext.cpp:30-32 | a run that throws with a byte other than a carriage return behind the input throws with any byte behind it |
| HttpThrows.OtherBytesDecideNothing | Code/http1/HttpsContext.cpp:30-32 | two bytes behind the input that are neither line feed nor carriage return: the parser throws alike, accepts alike and reads the same request |
| HttpThrows.BrokenIsNotGood | Code/http1/HttpsContext.cpp:194-206 | no request of the grammar begins like a text that throws |
| HttpGrammar.LastParamWins | Code/http1/HttpsRequest.cpp:99-101 | the stored parameters hold exactly the keys sent, each with its last value |
| HttpGrammar.HeadersLikeParams | Code/http1/HttpsRequest.cpp:118-120 | headers go by the same rule |
| HttpGrammar.LastHeaderWins | Code/http1/HttpsRequest.cpp:118-120 | the stored headers hold exactly the names sent, each with its last value |
| Words.Extract | Code/database/Redis.cpp:34 | one extraction delivers the next word and moves behind it, or fails and leaves the word |
| Words.WordsAtSpace | Code/database/Redis.cpp:33-34 | the words of two texts with a blank between are the words of both |
| Words.CleanIffOneWord | Code/database/Redis.cpp:33-34 | a text is its own only word exactly when it is not empty and holds no white space |
| MsgCaches.LessIsTotal | Code/database/Redis.cpp:64 | the string order is total and antisymmetric |
| MsgCaches.LessAt | Code/database/Redis.cpp:64 | the string order is decided by the first difference, a text coming before its continuations |
| MsgCaches.KeyIsSymmetric | Code/database/Redis.cpp:61-66 | both directions of a conversation have one key, and it begins with msgs: |
| MsgCaches.KeyNamesThePair | Code/database/Redis.cpp:61-66 | for ids without a colon two pairs have one key exactly when they are one pair |
| MsgCaches.ColonFreeIsDistinct | Code/database/Redis.cpp:61-66 | users without a colon in their ids never share a key |
| MsgCaches.ColonSharesKeys | Code/database/Redis.cpp:61-66 | wherever a colon can be moved from one id to the other, two different pairs share a key |
| MsgCaches.ColonFreeAnswersTrue | Code/database/Redis.cpp:327-354 | for users without a colon in their ids all answers of all legal runs are true |
| MsgCaches.OnlyOrder | Code/database/Mysql.cpp:372-375 | rows no two different of which share a date can be sorted by date in one way only |
| MsgCaches.Redis.constructor | Code/database/Redis.cpp:75-77 | no lists, no rows |
| MsgCaches.Redis.Insert | Code/database/Redis.cpp:141-183 | refused exactly when the same text was sent in the same direction before and none of its values is wider than its column buffer; otherwise the row is appended and an undated document pushed in front of the pair's list, and nothing else changes |
| MsgCaches.Redis.SelectMsgs | Code/database/Mysql.cpp:431-481 | the fetch loop delivers sender, content and date of the first n rows in order, up to the first whose sender or content is longer than 50 bytes |
| MsgCaches.Redis.GetRecentMsgs | Code/database/Redis.cpp:313-355 | result, new list and iterator range are those of the query specification, branch by branch; a fetched answer carries the date of each row, and what is missing in the list is appended from it, with the marker exactly when fewer than n rows came |
| MsgCaches.Redis.Expire | Code/database/Redis.cpp:180 | a list that runs out is gone, all others stay |
| MsgCaches.ReadIsTrueIff | Code/database/Redis.cpp:327-354 | on a faithful list a query reads a prefix of the history, of the exact length and in range, exactly when it needs no fetch or all rows of its fetch fit; then the list stays faithful |
| MsgCaches.MarkerIsRightIff | Code/database/Redis.cpp:347-353 | the marker put behind a fetch is right exactly when all messages of the pair fit the column buffers |
| MsgCaches.QueryOnPair | Code/database/Redis.cpp:313-355 | the same for the world, for any arrangement the database may deliver |
| MsgCaches.StepKeepsInv | Code/database/Redis.cpp:141-183 | every insert, query and expiry keeps every list of a pair whose messages fit a prefix of its history, the marker last and only behind the whole history |
| MsgCaches.ExecKeepsInv | Code/database/Redis.cpp:313-355 | and so does every run |
| MsgCaches.AnswersAreTrue | Code/database/Redis.cpp:327-354 | after every run each query for a pair whose messages fit answers a prefix of the true history, every date that an answer carries being that of its message, and all dates being there after a fetch: exactly n messages or all there are, all of it when the marker is there, and `results.begin() + len` is in range |
| MsgCaches.AllTrueIffDistinct | Code/database/Redis.cpp:61-66 | all answers of all runs are true if and only if no two pairs of the users share a key |
| MsgCaches.SharedKeyLeaks | Code/database/Redis.cpp:61-66 | two pairs with one key: the second reads the message of the first |
| MsgOrders.SortedIsArranged | Code/database/Mysql.cpp:372-375 | the rows of any history can be sorted by date |
| MsgOrders.SoundIsAlwaysRight | Code/database/Redis.cpp:327-354 | no two different messages of one date, fitting rows and a list that is a prefix of the order: all later answers are right, whatever is asked, whenever lists run out |
| MsgOrders.WideShows | Code/database/Mysql.cpp:456-464 | a message that does not fit: some later query gets less than there is |
| MsgOrders.TieShows | Code/database/Redis.cpp:347-353 | two different messages of one date anywhere in a history: some run puts one of them into the list once too often |
| MsgOrders.ListShows | Code/database/Redis.cpp:327-340 | a list that always answers right is a prefix of the order by date, or all of it with the marker |
| MsgOrders.NothingMadeUp | Code/database/Redis.cpp:313-355 | after any run, whatever ids, dates and widths, every item of every answer is a message stored for a pair with that key, undated or with its own date |
| MsgOrders.RightIff | Code/database/Redis.cpp:313-355 | for every history and every list: all later answers are right if and only if all messages fit, no two different ones share a date and the list is a part of the one order by date |
| MsgOrders.PushedRightIff | Code/database/Redis.cpp:179-183 | a list that was only pushed to answers right exactly when the messages arrived in the order of their dates, no two different ones share a date and all fit |
| MsgOrders.ExpiredRightIff | Code/database/Redis.cpp:342-353 | a list that ran out answers right exactly when no two different messages share a date and all fit |
| MsgOrders.StoredAsOften | Code/database/Mysql.cpp:282-285 | after any run a message that the select before the insert can fetch is stored once, however often it was sent; one that it cannot fetch is stored as often as it was sent |
| MsgOrders.ReachableDiffers | Code/database/Mysql.cpp:282-285 | after any run the messages of a pair can be told apart by sender and content exactly when none that is too wide for the select before the insert was sent twice |
| MsgOrders.TruthfulIffInOrder | Code/database/Redis.cpp:141-183 | after any number of messages among any users: all later answers for a pair are right if and only if its messages arrived in the order of their dates, no two different ones share a date and all fit |
| MsgOrders.TruthfulIffDatesAdvance | Code/database/Redis.cpp:141-183 | unless a message too wide for the select before the insert was sent twice, and always for ids of at most 50 bytes: all later answers are right if and only if each message of the pair is dated later than the one before and all fit |
| UserCaches.PrintRow | Code/database/Mysql.cpp:216-223 | the printing loop writes names and values with single blanks, empty values as NULL |
| UserCaches.SsGet | Code/database/Redis.cpp:30-39 | returns the word behind the first occurrence of the field, or NULL |
| UserCaches.AfterIs | Code/database/Redis.cpp:30-39 | what is returned is the word behind the first occurrence of the field, NULL when there is none |
| UserCaches.ReadableIff | Code/database/Mysql.cpp:175-183 | a row can be fetched exactly when the column behind the password has at most 2020 bytes and every other at most 50 |
| UserCaches.RecoversIff | Code/database/Redis.cpp:30-39 | with an id that does not hold the word "password" a readable row gives the password back exactly when it is one word, and its first word otherwise |
| UserCaches.IdHidesPassword | Code/database/Redis.cpp:30-39 | with an id that holds it, what is recovered does not depend on the password |
| UserCaches.Redis.constructor | Code/database/Redis.cpp:75-77 | no entries, no rows |
| UserCaches.Redis.Insert | Code/database/Redis.cpp:115-139 | table first, then the hash; nothing changes when the table refuses |
| UserCaches.Redis.Select | Code/database/Redis.cpp:189-221 | answers from the hash, filling it from the printed row or with "NULL" when the entry is missing |
| UserCaches.Redis.Update | Code/database/Redis.cpp:279-306 | table and hash get the new password together, or nothing changes |
| UserCaches.Redis.Delete | Code/database/Redis.cpp:238-260 | row and entry go together, or nothing changes |
| UserCaches.Redis.Expire | Code/database/Redis.cpp:101 | the whole hash runs out at once |
| UserCaches.Redis.HandleRegister | Code/business/User.cpp:56-66 | exactly passwords of 6 to 20 bytes reach the store, and the result tells whether it took the user |
| UserCaches.Redis.HandleProfile | Code/business/User.cpp:128-139 | the same for a change of password |
| UserCaches.Redis.HandleLogin | Code/business/User.cpp:73-97 | accepts exactly when an entry exists and the word its loop stops at is the given password |
| UserCaches.EntryIsTruth | Code/database/Redis.cpp:189-221 | the entry Select answers from is the stored password, or "NULL" for an absent user, on a hit and on a miss |
| UserCaches.StepKeepsInv | Code/database/Redis.cpp:81-311 | register, profile, delete, login and expiry keep every hash entry equal to the table, with a key or without a clash |
| UserCaches.ExecKeepsInv | Code/database/Redis.cpp:81-311 | and so does every run |
| UserCaches.LoginIsExact | Code/business/User.cpp:73-97 | after every run with one-word passwords, readable rows and ids without the word "password", login accepts exactly the stored password |
| UserCaches.AcceptsFirstWord | Code/business/User.cpp:84-94 | in every state login accepts one word only: the first of the entry, or "password" when the entry has none |
| UserCaches.AcceptedIsClean | Code/business/User.cpp:84-97 | in every state what is accepted is one word without white space |
| UserCaches.StepKeepsKeyedInv | Code/database/Redis.cpp:81-311 | every step keeps every entry the stored password, or what was read back from its row, or "NULL" for an absent user |
| UserCaches.EntryIs | Code/database/Redis.cpp:81-311 | after every run, for every id, the entry Select answers from: the stored password, if a registration or a change succeeded since the entry was last taken out, what is read back from the row otherwise, "NULL" for an absent user |
| UserCaches.AcceptedWord | Code/business/User.cpp:73-97 | after every run, for every stored user and every text: the one word that gets in is the first of the stored password (or "password", if it has none) while the hash holds it as given, and what is read back from the row otherwise |
| UserCaches.AbsentIsRefused | Code/business/User.cpp:96-112 | after every run an absent user is refused, whatever is given |
| UserCaches.OwnPasswordIff | Code/business/User.cpp:73-97 | after every run, for every stored user: the stored password gets in exactly when it is one word, while the hash holds it as given, and exactly when it survives being printed and read back otherwise |
| UserCaches.OnlyOwnPasswordIff | Code/business/User.cpp:73-97 | login accepts the stored password and nothing else under the same condition |
| UserCaches.CachedLoginIff | Code/business/User.cpp:84-97 | after any registration that succeeds, in any state, login out of the hash works exactly for passwords of one word |
| UserCaches.UncachedLoginIff | Code/database/Redis.cpp:206-218 | after every run and an expiry the stored password gets in exactly when its row fits the buffers and it is one word, or, with an id that holds the word "password", when it is the word that stands behind that |
| UserCaches.KeyIsNeeded | Code/database/Mysql.cpp:282-285 | without a key on user_id hash and table agree throughout a run exactly when no registration names a stored id with another password |
| UserCaches.RefusedIff | Code/database/Mysql.cpp:276-293 | a registration is refused exactly when the id is stored and the table has a key or the password is the same |
| UserCaches.PasswordAsId | Code/database/Redis.cpp:35-36 | after every run and an expiry the user named "password" can log in only if that is the password, too |
| EventLoops.StepKeepsInv | Code/tcp/EventLoop.cpp:41-96 | every step of the loop and of the producers keeps the invariant |
| EventLoops.WakeupProtocol | Code/tcp/EventLoop.cpp:62-96 | in every reachable state a non-empty list has a positive counter, a producer between push and write, or the loop on its way to the swap; reading the descriptor never fails |
| EventLoops.NeverSleepsOverTask | Code/tcp/EventLoop.cpp:41-50 | with tasks waiting and no push half done, Poll returns |
| EventLoops.NeverSpins | Code/tcp/EventLoop.cpp:93-96 | in every run Poll reports the wake-up descriptor at most once for each write to it, and once more if it is readable at the start |
| EventLoops.QueuedBeforeLoop | Code/tcp/EventLoop.cpp:62-73 | whatever was queued before Loop(): some run loses a wake-up exactly when the loop's own thread queued something and no other thread did |
| EventLoops.TaskOrder | Code/tcp/EventLoop.cpp:76-90 | executed tasks, the rest of the batch and the list are exactly the pushes, in order |
| EventLoops.ProducerOrder | Code/tcp/EventLoop.cpp:62-90 | each producer's tasks run in its order, none skipped, none twice |
| EventLoops.EveryTaskRuns | Code/tcp/EventLoop.cpp:41-90 | from every reachable state a run without new pushes leads to all tasks executed, within a stated number of steps |
| EventLoops.StepComesCloser | Code/tcp/EventLoop.cpp:41-90 | every step of the loop brings it closer to any task that waits, and nothing else that happens sets it back |
| EventLoops.EveryRunRunsTasks | Code/tcp/EventLoop.cpp:41-90 | in every run, whatever is queued meanwhile: once the loop has taken one step for each waiting task and five more, all that was queued before has run |
| EventLoops.EventLoop.constructor | Code/tcp/EventLoop.cpp:16-26 | a loop that is not running yet, with an empty list |
| EventLoops.EventLoop.QueueOneFunc | Code/tcp/EventLoop.cpp:62-73 | push, and the write exactly when not in the loop thread or while tasks run |
| EventLoops.EventLoop.Read | Code/tcp/EventLoop.cpp:93-96 | the counter is emptied and the read succeeds |
| EventLoops.EventLoop.RunOne | Code/tcp/EventLoop.cpp:85-87 | one task runs, and every task it queues is appended and announced |
| EventLoops.EventLoop.TakeBatch | Code/tcp/EventLoop.cpp:76-83 | the whole list becomes the batch, and the list is empty |
| EventLoops.EventLoop.EndBatch | Code/tcp/EventLoop.cpp:89-90 | the loop polls again and announces its own tasks no more |
| EventLoops.EventLoop.DoToDoList | Code/tcp/EventLoop.cpp:76-90 | all queued tasks run once, in order; what they queue meanwhile is left in order for the next round and announced; the invariant holds again |
| TcpServers.StepKeepsInv | Code/tcp/TcpServer.cpp:44-73 | every step of accept, close, queue handling and destruction keeps the invariant |
| TcpServers.TableNamesTheOwner | Code/tcp/TcpServer.cpp:44-73 | over every run `connections_[fd]` names the only live connection that owns fd, lists exactly those not erased, and the `count` assertion never fails |
| TcpServers.AcceptNeverOverwrites | Code/tcp/TcpServer.cpp:53 | a new connection never overwrites an entry |
| TcpServers.EachStageOnce | Code/tcp/TcpServer.cpp:62-73 | each connection is established, erased and destroyed at most once, destroyed after both others, and a closed one has what is left queued exactly once |
| TcpServers.FreeOnlyAfterDestroy | Code/tcp/TcpConnection.cpp:36-58 | the descriptor is closed only after the destructor task has run |
| TcpServers.NoDanglingChannel | Code/tcp/EventLoop.cpp:41-50 | every channel in a batch of Poll belongs to a live connection until the batch ends |
| TcpServerProgress.NextStepComesCloser | Code/tcp/EventLoop.cpp:41-90 | the next step of a loop brings every task that waits on it closer, or runs it |
| TcpServerProgress.RunUntil | Code/tcp/EventLoop.cpp:76-90 | a task that waits on a loop is run by that loop's own steps |
| TcpServerProgress.EveryCloseFinishes | Code/tcp/TcpServer.cpp:62-73 | from every reachable state the loops alone lead every closed connection to its erasure and its destruction |
| TcpServerProgress.EveryRunComesTo | Code/tcp/EventLoop.cpp:41-90 | in every run a task that waits on a loop has run once that loop has taken one step for each task up to it and at most three to come round |
| TcpServerProgress.EveryRunErases | Code/tcp/TcpServer.cpp:62-73 | every run erases a closed connection once the main loop has taken one step for each closure that waits there, and three more |
| TcpServerProgress.EveryRunDestroys | Code/tcp/TcpServer.cpp:66-73 | every run destroys an erased connection once the connection's own loop has done the same |
| TcpServerProgress.EveryRunFinishes | Code/tcp/TcpServer.cpp:62-73 | from every reachable state every run in which the main loop and then the connection's loop take so many steps destroys every closed connection |
| TcpServerRecords.RecordsTellTheRun | Code/tcp/TcpServer.cpp:44-60 | over every run the c-th connection has the descriptor and belongs to the loop that the c-th accept named; it is closed exactly if someone closed it, and freed exactly if its destructor ran |
| TcpServerRecords.TasksRunAtHome | Code/tcp/TcpServer.cpp:59-73 | over every run a connection is established and destroyed on the loop that its accept named, and erased on the main loop |
| TcpServerRecords.HeldStaysAlive | Code/tcp/TcpConnection.cpp:36-58 | a connection that someone holds is not freed until it is let go, whatever else happens |
| TcpServerRecords.BatchStaysAlive | Code/tcp/EventLoop.cpp:41-50 | in every run the connections whose channels Poll returned stay registered and alive until the loop turns to its closures |
| TcpServers.TcpServer.constructor | Code/tcp/TcpServer.cpp:17-28 | the start state: no connections, all loops polling, numbers from 1 |
| TcpServers.TcpServer.QueueOneFunc | Code/tcp/EventLoop.cpp:62-66 | one closure at the end of one loop's list |
| TcpServers.TcpServer.HandleNewConnection | Code/tcp/TcpServer.cpp:44-60 | the new record has this descriptor and this loop, the table names it, its establish closure is queued on this loop and on no other, and the connection number goes round from 1 to 1000 |
| TcpServers.TcpServer.HandleCloseConnectionInPoller | Code/tcp/TcpServer.cpp:66-73 | entry erased and destructor task queued on the connection's own loop |
| TcpServers.TcpServer.HandleClose | Code/tcp/TcpConnection.cpp:101-113 | the connection is closed; only the first close does anything else: erasure at once on the main loop, queued there otherwise |
| Buffers.StepBound | Code/tcp/Buffer.cpp:78-126 | one operation keeps 8 <= read <= write <= size and grows only to what the contents need |
| Buffers.CapacityBound | Code/tcp/Buffer.cpp:116-126 | over any run the capacity is at most max(1024, 2M+7) for the largest content M |
| Buffers.Buffer.constructor | Code/tcp/Buffer.cpp:7-11 | empty, 1024 bytes, both indices at 8 |
| Buffers.Buffer.ReadableBytes | Code/tcp/Buffer.cpp:51-53 | the number of queued bytes |
| Buffers.Buffer.PeekAsString | Code/tcp/Buffer.cpp:68-70 | the first bytes, nothing changes |
| Buffers.Buffer.Retrieve | Code/tcp/Buffer.cpp:78-81 | the first bytes are dropped |
| Buffers.Buffer.RetrieveAsString | Code/tcp/Buffer.cpp:82-87 | the first bytes are returned and dropped |
| Buffers.Buffer.RetrieveAll | Code/tcp/Buffer.cpp:103-106 | the contents are dropped, the indices go back to 8 |
| Buffers.Buffer.RetrieveAllAsString | Code/tcp/Buffer.cpp:107-112 | the contents are returned and dropped |
| Buffers.Buffer.EnsureWritableBytes | Code/tcp/Buffer.cpp:116-126 | room is made, by moving or growing, and the contents stay |
| Buffers.Buffer.MoveToFront | Code/tcp/Buffer.cpp:119-122 | the overlapping forward copy keeps the contents |
| Buffers.Buffer.CopyIn | Code/tcp/Buffer.cpp:42 | the bytes are written behind the contents, which stay |
| Buffers.Buffer.Append | Code/tcp/Buffer.cpp:40-44 | exactly these bytes are added at the end |
| Channels.EdgeTriggerIsLost | Code/tcp/Channel.cpp:36-39 | storing EPOLLET in a 16-bit set changes nothing |
| Channels.Channel.constructor | Code/tcp/Channel.cpp:6 | no interest, not known to the poller |
| Channels.Channel.Update | Code/tcp/Poller.cpp:43-60 | the poller has the current set and knows the channel |
| Channels.Channel.EnableRead | Code/tcp/Channel.cpp:12-15 | read interest is on, no other flag changes, poller told |
| Channels.Channel.EnableWrite | Code/tcp/Channel.cpp:17-20 | write interest is on, no other flag changes, poller told |
| Channels.Channel.DisableWrite | Code/tcp/Channel.cpp:22-28 | write interest is off, no other flag changes, poller up to date |
| Channels.Channel.DisableAll | Code/tcp/Channel.cpp:30-33 | no interest is left, poller told |
| Channels.Channel.EnableET | Code/tcp/Channel.cpp:36-39 | the set is not changed |
| Channels.Channel.SetReadyEvents | Code/tcp/Channel.cpp:80-82 | the events that are ready |
| Channels.Channel.HandleEventWithGaurd | Code/tcp/Channel.cpp:51-58 | the reader is called for data, urgent data or a half-closed peer, the writer for room, and nobody otherwise |
| Channels.Channel.IsWriting | Code/tcp/Channel.cpp:97-99 | tells whether write interest is on |
| TcpConnections.StepKeepsStream | Code/tcp/TcpConnection.cpp:68-98 | one send, write event or close keeps written plus pending equal to what was kept, and write interest on exactly while bytes wait |
| TcpConnections.StreamIntegrity | Code/tcp/TcpConnection.cpp:138-165 | over every run the bytes on the wire followed by the bytes waiting are the kept messages, whole and in order |
| TcpConnections.StreamIsCompleteIff | Code/tcp/TcpConnection.cpp:138-165 | the stream is all that was sent exactly when no message with bytes in it met a closed connection or, with nothing waiting before it, EPIPE or ECONNRESET |
| TcpConnections.NothingLost | Code/tcp/TcpConnection.cpp:138-165 | on a connection that stays open every byte of every message is written or waits, unless a send reports EPIPE or ECONNRESET: a full socket loses nothing |
| TcpConnections.WrittenIsTaken | Code/tcp/TcpConnection.cpp:68-98 | over every run as many bytes are written as the write calls report |
| TcpConnections.DrainedMeansDelivered | Code/tcp/TcpConnection.cpp:74-78 | when write interest goes off, everything has been written |
| TcpConnections.FullSocketAborts | Code/tcp/TcpConnection.cpp:71-72 | after every run a write event whose write fails stops on the assertion exactly when bytes wait on an open connection |
| TcpConnections.TcpConnection.constructor | Code/tcp/TcpConnection.cpp:23-34 | connected, nothing written, nothing waiting |
| TcpConnections.SendInTwo | Code/tcp/TcpConnection.cpp:138-165 | one send is a direct write of a prefix and, unless it was dropped, a queued rest |
| TcpConnections.TcpConnection.WriteAtOnce | Code/tcp/TcpConnection.cpp:138-154 | the direct write: what the kernel took is written, and the fault flag is set exactly for EPIPE and ECONNRESET |
| TcpConnections.TcpConnection.QueueRest | Code/tcp/TcpConnection.cpp:155-160 | the rest waits behind what waits already, and write interest is on |
| TcpConnections.TcpConnection.SendInLoop | Code/tcp/TcpConnection.cpp:138-165 | stream and interest after one send, for every result of the direct write; the fault flag is set exactly when that was made and reported EPIPE or ECONNRESET, and otherwise the whole message is written or waits |
| TcpConnections.TcpConnection.HandleWrite | Code/tcp/TcpConnection.cpp:68-98 | one write event writes as many of the waiting bytes as reported and keeps the interest exactly while bytes are left; it aborts exactly when the write fails |
| TcpConnections.TcpConnection.HandleClose | Code/tcp/TcpConnection.cpp:101-113 | only the first call closes, clears the interest and notifies |
| TcpConnections.TcpConnection.ReadNonBlocking | Code/tcp/TcpConnection.cpp:168-195 | all chunks up to the end of the reads are appended in order, interrupted reads skipped |
| TcpConnections.CollectsAll | Code/tcp/TcpConnection.cpp:168-195 | the reads end at the first end of file or error other than EINTR, and all chunks before it are collected in order |
| TcpConnections.TcpConnection.HandleMessage | Code/tcp/TcpConnection.cpp:60-66 | the message callback runs exactly when the read did not end in a hang-up |
| TimerQueues.InsertedIsSorted | Code/timer/TimerQueue.cpp:69-76 | an insert keeps the set sorted by time and then by pointer, adds exactly the entry, and tells the new first |
| TimerQueues.LowerBoundCutsDue | Code/timer/TimerQueue.cpp:50-52 | the bound cuts off exactly the entries that are due |
| TimerQueues.EachTimerOnce | Code/timer/TimerQueue.cpp:46-94 | between calls every allocated timer is in the set exactly once, under its own expiration |
| TimerQueues.RestartedIsDueAgain | Code/timer/Timer.cpp:16-18 | a restarted timer is due its interval after the clock reading, in whole microseconds rounded down, and is the same otherwise |
| TimerQueues.AddressesAre | Code/timer/TimerQueue.cpp:54-56 | the timers that run are those of the batch, one for one |
| TimerQueues.OneShotsAre | Code/timer/TimerQueue.cpp:79-88 | freed are exactly the timers of the batch that do not repeat, each once |
| TimerQueues.Spec | Code/timer/TimerQueue.cpp:106-112 | the two parts add up to 1000 times the microseconds, the nanoseconds are in range, the pair never disarms |
| TimerQueues.DueMeansReadable | Code/timer/TimerQueue.cpp:96-115 | a timer that is due is slept over for at most 100 microseconds after the last arming |
| TimerQueues.TimerQueue.constructor | Code/timer/TimerQueue.cpp:16-24 | no timers, the timerfd not armed |
| TimerQueues.TimerQueue.ReadTimerFd | Code/timer/TimerQueue.cpp:39-44 | an expired timerfd is disarmed by reading it |
| TimerQueues.TimerQueue.ResetTimerFd | Code/timer/TimerQueue.cpp:96-115 | armed for the expiration, or for 100 microseconds from now if that is sooner or past |
| TimerQueues.TimerQueue.Insert | Code/timer/TimerQueue.cpp:69-76 | the entry is in the set; the result tells whether it is earlier than all others |
| TimerQueues.TimerQueue.AddTimer | Code/timer/TimerQueue.cpp:61-66 | a new timer is owned by the set and the timerfd stays timely |
| TimerQueues.TimerQueue.RunCallback | Code/timer/Timer.cpp:20-22 | the callback runs once; existing timers stay as they are, whatever it adds |
| TimerQueues.TimerQueue.RunActive | Code/timer/TimerQueue.cpp:54-56 | the batch runs in order, each once, whatever timers its callbacks add |
| TimerQueues.TimerQueue.SettleFirst | Code/timer/TimerQueue.cpp:79-88 | one timer of the batch is due again its interval after a clock reading, in whole microseconds, or freed |
| TimerQueues.TimerQueue.SettleNext | Code/timer/TimerQueue.cpp:79-88 | one round of the loop keeps what is settled and settles the next timer |
| TimerQueues.TimerQueue.SettleAll | Code/timer/TimerQueue.cpp:78-89 | the loop over the batch: each timer is settled once, in order |
| TimerQueues.TimerQueue.ResetTimers | Code/timer/TimerQueue.cpp:78-94 | each repeating timer is due again its interval after a clock reading of this call, one-shots are freed once each, the timerfd is timely |
| TimerQueues.TimerQueue.TakeDue | Code/timer/TimerQueue.cpp:49-52 | the due entries move from the set to the batch |
| TimerQueues.TimerQueue.HandleRead | Code/timer/TimerQueue.cpp:46-59 | exactly the timers due at its clock reading run, in (time, pointer) order; each repeating one is due again its interval after a later reading, unchanged otherwise, each one-shot is freed once; ownership and arming hold again; timers not due are untouched |
| Pools.StepConserves | Code/database/MysqlPool.cpp:18-38 | one step neither loses nor doubles a connection |
| Pools.ConnectionsConserved | Code/database/RedisPool.cpp:16-35 | over every run idle plus lent is constant for each connection |
| Pools.PoolIsQueue | Code/database/MysqlPool.cpp:18-38 | over every run connections go out of a pool in the order in which they were there and came back |
| Pools.WakeupsNotLost | Code/database/MysqlPool.cpp:22-37 | while a thread sleeps, idle connections are at most woken threads plus pending notifies |
| Pools.DeadlockFree | Code/database/RedisPool.h:37-42 | with both pools non-empty at the start every reachable state with an unfinished thread has a thread that can move |
| Pools.NeverStuckIff | Code/database/RedisPool.h:37-42 | for any number of threads and connections: no run gets stuck if and only if both pools have a connection at the start, and the same for the runs that take MySQL connections only inside Redis ones |
| Pools.BlockingRun | Code/database/MysqlPool.h:32-37 | an empty pool and a caller left outside: some run gets stuck, through a Redis connection if there is one |
| Pools.EmptyPoolServesNobody | Code/database/MysqlPool.cpp:18-30 | a pool without connections lets no caller in, in no run |
| Pools.SleeperIsServed | Code/database/MysqlPool.cpp:22-37 | a sleeper at a pool that owns a connection has a thread coming for it or holding it |
| Pools.ConnectionPool.constructor | Code/database/MysqlPool.cpp:5-7 | an empty queue |
| Pools.ConnectionPool.CreateConns | Code/database/MysqlPool.cpp:40-44 | the loop appends n new different connections, each once |
| Pools.ConnectionPool.TryGet | Code/database/MysqlPool.cpp:21-27 | the front is taken, or none when the queue is empty |
| Pools.ConnectionPool.Put | Code/database/MysqlPool.cpp:32-38 | the connection is queued at the end |
| Http2Contexts.HttpContext.constructor | Code/http2/HttpContext.h:36-41 | no current stream, no push stream, no requests |
| Http2Contexts.HttpContext.AddStream | Code/http2/HttpContext.cpp:219-224 | a fresh request for the current stream, replacing an old one |
| Http2Contexts.HttpContext.RemoveStream | Code/http2/HttpContext.cpp:226-235 | the current stream's request goes, unless the id is even |
| Http2Contexts.HttpContext.OnBeginHeaders | Code/http2/HttpContext.cpp:97-104 | current and push stream and the fresh request |
| Http2Contexts.HttpContext.OnHeader | Code/http2/HttpContext.cpp:106-126 | the header goes to the current stream, whatever stream its frame names |
| Http2Contexts.HttpContext.OnDataChunk | Code/http2/HttpContext.cpp:128-147 | the bytes go to the end of their stream's data, or the callback fails |
| Http2Contexts.HttpContext.OnFrame | Code/http2/HttpContext.cpp:72-94 | the status after a HEADERS or DATA frame, or the callback fails |
| Http2Contexts.HttpContext.OnStreamClose | Code/http2/HttpContext.cpp:148-157 | the stream becomes current and is removed |
| Http2Contexts.Demultiplexed | Code/http2/HttpContext.cpp:97-157 | after every legal callback sequence the requests are exactly the open streams, each holding its own headers, data and status since its last header block began, and no callback failed |
| Http2Contexts.WholeRequestIff | Code/http2/HttpContext.cpp:219-224 | a request holds all headers and data its stream ever sent exactly when what came before its last header block held no data, no header that is not sent again, and no frame unless one followed |
| Http2Contexts.WithoutTrailersWhole | Code/http2/HttpContext.cpp:97-157 | without trailers a request holds everything its stream sent |
| Http2Contexts.InterleavingIsInvisible | Code/http2/HttpContext.cpp:97-157 | a stream's request depends on its own events only |
| Http2Contexts.LastHeaderWins | Code/http2/HttpRequest.cpp:21-23 | exactly the names sent, each with its last value |
| Http2Contexts.PushIsFirst | Code/http2/HttpContext.cpp:100 | the stream for pushes is the first ever opened |
| Http2Contexts.CompleteIff | Code/http2/HttpContext.cpp:84-90 | a request is complete exactly when END_STREAM or any DATA frame came since its last header block, waits for data exactly when only its HEADERS frame came, and is new exactly when no frame came |
| Http2Contexts.StatusIsRightIff | Code/http2/HttpContext.cpp:88-90 | the status tells the end of the stream exactly when no DATA frame has come or END_STREAM has come too |
| Http2Contexts.CompleteTooEarly | Code/http2/HttpContext.cpp:88-90 | a body in two DATA frames is complete after the first |
| Http2Contexts.HeaderGoesHomeIff | Code/http2/HttpContext.cpp:113-124 | after any events that left all requests right, a header keeps them right exactly when its stream is the current one or it changes nothing in either request |
| Http2Contexts.InterleavedBlocks | Code/http2/HttpContext.cpp:97-126 | after any events, two interleaved header blocks mix their headers |
| Http2Responses.ReadBuffer | Code/http2/HttpResponse.cpp:28-39 | the piece is the front of the buffer, as long as there is room for it or all that is left; the rest stays, the end is reported when nothing is left |
| Http2Responses.MmapRead.constructor | Code/http2/HttpResponse.h:21-25 | the whole file is still to be sent |
| Http2Responses.MmapRead.ReadFile | Code/http2/HttpResponse.cpp:11-25 | the same out of a mapped file, and the buffer behind the piece is not touched |
| Http2Responses.PiecesMakeBody | Code/http2/HttpResponse.cpp:11-39 | for any lengths the pieces so far and the remainder make the body, each piece fills its room unless it is the last, and the end comes with the last piece and no other |
| Http2Responses.WholeBodyGoesOut | Code/http2/HttpResponse.cpp:11-39 | with room for a byte in each call the whole body goes out and the end is reported |
| SqlText.ValidateFields | Code/database/Mysql.cpp:246-258 | true exactly when the table is users or msgs and every field is one of its columns, by name |
| SqlText.BuildClause | Code/database/Mysql.cpp:19-41 | the WHERE and SET loops append all equations with the separator and all values, in order |
| SqlText.BuildFieldList | Code/database/Mysql.cpp:43-55 | names, marks and values of all fields, in order |
| SqlText.SelectText | Code/database/Mysql.cpp:302-307 | text and values of a select |
| SqlText.DeleteText | Code/database/Mysql.cpp:326-331 | text and values of a delete |
| SqlText.InsertText | Code/database/Mysql.cpp:287-293 | text and values of an insert |
| SqlText.UpdateText | Code/database/Mysql.cpp:352-360 | text and values of an update, SET before WHERE |
| SqlText.SelectBindsItsFields | Code/database/Mysql.cpp:302-307 | reading the text back word by word and sign by sign: SELECT * FROM, the table, WHERE, and for each field in order its name, an equals sign and a mark, with AND in between; one value for each, in order |
| SqlText.DeleteBindsItsFields | Code/database/Mysql.cpp:326-331 | the same for DELETE FROM |
| SqlText.InsertBindsItsFields | Code/database/Mysql.cpp:287-293 | the text read back is INSERT INTO, the table, the fields in order and with commas in brackets, VALUES, and as many marks in brackets; one value for each, in order |
| SqlText.UpdateBindsItsFields | Code/database/Mysql.cpp:352-360 | the text read back is UPDATE, the table, SET, the new fields with commas, WHERE, the others with AND, each with an equals sign and a mark, and the values in order |
| LogStreams.DigitsOf | Code/log/LogStream.h:83-90 | the digit loop and the reversal give the canonical decimal text, which parses back to the value |
| LogStreams.DigitCount | Code/log/LogStream.h:83-87 | at most n digits exactly below ten to the n |
| LogStreams.LengthBound | Code/log/LogStream.h:78-91 | at most 20 characters for every 64-bit value |
| LogStreams.DecimalIffNotNegative | Code/log/LogStream.h:81-90 | what is appended denotes the value exactly when the value is not negative |
| LogStreams.NegativeChars | Code/log/LogStream.h:83-87 | a negative value gives as many characters as its absolute value, each as far below '0' as the digit is above it |
| LogStreams.FixedBuffer.constructor | Code/log/LogStream.h:148-151 | an empty buffer |
| LogStreams.FixedBuffer.Avail | Code/log/LogStream.h:181-184 | the free bytes |
| LogStreams.FixedBuffer.Add | Code/log/LogStream.h:186-189 | the bytes behind the cursor become part of the text |
| LogStreams.FixedBuffer.Append | Code/log/LogStream.h:158-164 | the text is appended whole or, when it does not fit, not at all |
| LogStreams.FixedBuffer.WriteDigits | Code/log/LogStream.h:83-87 | the loop writes the digits lowest first behind the cursor and nothing else |
| LogStreams.FixedBuffer.WriteSign | Code/log/LogStream.h:88 | the sign is written one byte too far, so a byte nobody wrote stands before it |
| LogStreams.FixedBuffer.Reverse | Code/log/LogStream.h:90 | the bytes behind the cursor are reversed in place, earlier text untouched |
| LogStreams.FixedBuffer.FormattedInteger | Code/log/LogStream.h:76-93 | earlier text is kept and the formatted value follows, or nothing happens when fewer than 48 bytes are free |

## Left out

- Other threads between the atomic sections: the classes EventLoop, TcpServer and ConnectionPool run without interruption; interleavings are covered by the step relations of the same modules, on values.
- TcpServers: connections are numbered objects that are never reused; `next_connid_`, which goes round at 1000, is a field of the class only and identifies nothing.
- Pools: the wait of the condition variable is a state of the thread, with wake-ups by notify_one and spurious ones.
- Sockets, epoll, timerfd, eventfd, files and the clock: only their results appear, as parameters or as arbitrary choices; the 64-bit overflow of the eventfd counter is not modelled.
- nghttp2, redis++, MySQL and rapidjson: callback events, maps, lists and tables with exact string equality; a JSON document is its sender, content and date, and is never the text "NULL". Strings with zero bytes inside JSON are not cut.
- MsgCaches.Redis.Insert: takes sender, receiver and content as User.cpp builds them; other field lists, and a date given by the caller, are not modelled; the positions of the columns in the msgs table are a parameter, because the schema is not part of the repository, and its other columns fit their buffers.
- MsgCaches.Redis.GetRecentMsgs: takes how the database sorts the rows as a parameter; database calls succeed except for a fetch that does not fit, an append of an empty range does nothing, and the mysql pool is always there. A date always fits.
- UserCaches.Redis.Insert: takes the fields that GetFieldVals builds; database calls succeed except for a fetch that does not fit; whether user_id is a key of the table is a parameter, because the schema is not part of the repository.
- Each cache call is one step: another call on the same pair between the database insert and the cache push is not modelled.
- HttpContexts.HttpContext.ParseRequest: atoi is unbounded, the input is shorter than 2^31 bytes, and characters above 127 belong to no character class.
- Requests split over several reads, and a context that still holds an old request: `ParseRequest` itself is modelled from any state, but the round trip is proved for a fresh one, because `start` and `colon` begin again on every call.
- Buffers: RetrieveUntil does not check its bound in the source and is not modelled; memcpy of overlapping ranges is the forward byte copy.
- TcpConnections.TcpConnection.HandleWrite: a failed write stops on the assertion; the error branch behind it is never reached.
- TimerQueues: allocated timers are a map from addresses to timers; intervals are reals, so the rounding of doubles is not modelled; callbacks may add any number of timers and do nothing else with the queue.
- Http2Contexts.Demultiplexed: speaks of what the callbacks put into a request; handlers that drain its data between two callbacks (`HttpRequest::GetData` takes all that is there) are not modelled.
- Http2Contexts: a request is owned by its map entry and modelled as a value; sections of nghttp2 such as flow control do not appear, and the handshake flag is left out.
- LogStreams.FixedBuffer.FormattedInteger: narrower integer types are values of the same range check.
- AsyncLogging, the session registry, HTML building, upload and download, HTTP handlers beyond login, registration and profile, and the round-robin choice of loops.
