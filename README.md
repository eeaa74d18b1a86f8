# blab-controller chat core in Dafny

A model of the moderation and fan-out core of the BLAB controller, a Django
application that hosts conversations between people and bots. The
repository has two generations of the chat application:

- the older tree (`blab-controller/`): models, the `Chat` controller, the
  post-save signal receivers, the websocket consumer, the sample bots, the
  message serializer and the HTTP views;
- the newer tree (`blab_controller/`): the `Chat` controller, with
  required bots, bot-manager commands and redirection, plus its signal
  receivers and HTTP views.

Each tree gets its own modules (`ChatsOld`/`ChatsNew`,
`SignalsOld`/`SignalsNew`, `ViewsOld`/`ViewsNew`). The older store
(`Models`), the serializer (`Serializers`), the history window
(`History`) and the browser session (`Sessions`) are shared.

What the model is made of:

- **Entities updated in place are classes.** These are the store
  (`Models.Database`), the registry of chat controllers, the serializer's
  condition table and the session. Their methods carry `modifies` clauses
  and state the whole new state.
- **Pure computations are functions.** These are the message-cleaning
  rules, redirection parsing, the manager's command decoding, the bot
  responses, representation and history queries.
- **Side effects are recorded, never executed.** A delivery to a bot or a
  websocket group, a Celery task and a channel-layer send become `Effect`
  records appended to the store's outbox.
- **`transaction.on_commit` depends on the store's atomic flag.** Inside an
  atomic block the callback is queued in the store's `onCommit` list;
  outside one it runs at once. The commit that runs the queue is not
  modelled.
- **Identifiers come from a counter.** Conversation ids, participant ids
  and external message ids come from the store's counter (`NewId`) instead
  of `uuid4`. The internal message key is the row's position.
- **Django's `post_save` receivers are operations of their own.** One save
  is composed with its receiver: the manager's approval in the newer
  controller (`quoted_message.save()`, blab_controller/chat/chats.py:311)
  is followed by the newer `_message_watcher` (`ChatsNew.PerformAction`
  calls `SignalsNew.MessageWatcher`). Every other save leaves its receiver
  to be called as an operation of its own.

Much of the newer `Chat` is copied unchanged from the older one: the
registry, `join`, `_create_human_participant`, the approval gate and the
`{**message_data, **overridden_data}` merge. `ChatsNew` reuses the
`ChatsOld` members for those parts rather than defining them twice.

## Model

| member | source | states |
|---|---|---|
| Models.EventName | blab-controller/chat/models.py:132-136 | every system event has a non-empty stored name |
| Models.EventNamesDistinct | blab-controller/chat/models.py:132-136 | distinct events have distinct names, so the text of a system message identifies its event |
| Models.FindParticipant | blab-controller/chat/views.py:113-116 | `Participant.objects.get(pk=id)`: a participant found is in the store and has that id; nothing is found only when no row has that id |
| Models.ParticipantsOf | blab-controller/chat/views.py:139-141 | a participant is listed exactly when it is stored and belongs to the conversation |
| Models.CleanError | blab-controller/chat/models.py:188-203 | `Message.clean`: a system message passes exactly when it has no sender; any other message fails without a sender, and with one passes exactly when the sender belongs to the message's conversation |
| Models.FieldFaults | blab-controller/chat/models.py:138-179 | `clean_fields` on the text columns: none is refused exactly when the text holds at most 4000 characters, the original file name at most 100, the MIME type at most 256 and the local id at most 32 |
| Models.FullClean | blab-controller/chat/models.py:138-217 | `full_clean` reports nothing exactly when no column is too long, clean passes and no stored row shares (conversation, sender, local id); a report names exactly the refused columns, and carries the unique-constraint entry exactly when such a row exists and the local id was not refused, since Django skips a constraint on a refused field |
| Models.CleanStable | blab-controller/chat/models.py:199-203 | a message that passes clean still passes once participants are added, since existing rows keep their id and conversation |
| Models.StoreInvariantStable | blab-controller/chat/models.py:188-217 | adding participants preserves the store invariant: every stored message passes clean and no two collide |
| Models.HumanName | blab-controller/chat/chats.py:144-152 | the name is never empty: a non-empty nickname is kept, an empty one becomes "ANON_" followed by the participant id |
| Models.BotRowsInOrder | blab-controller/chat/chats.py:93-119 | one BOT row per requested name, in request order, each with the id the store gives it at that point and its required flag |
| Models.JoinedRowsAnnounce | blab-controller/chat/chats.py:108-118 | the i-th joined message is an automatically approved, senderless participant-joined message of the conversation whose metadata names the i-th bot |
| Models.Database.constructor | blab-controller/chat/models.py:14-27 | an empty store: no conversation, participant, message, effect or pending callback |
| Models.Database.CreateConversation | blab-controller/chat/models.py:14-27 | one conversation with a fresh id is appended; nothing else changes |
| Models.Database.CreateParticipant | blab-controller/chat/models.py:34-67 | one participant with a fresh id and the given conversation, name, kind and required flag is appended; nothing else changes |
| Models.Database.RenameParticipant | blab-controller/chat/chats.py:148-151 | only the name of that one participant changes |
| Models.Database.SaveMessage | blab-controller/chat/models.py:206-217 | `save()` runs `full_clean` (column lengths, clean, the unique constraint): the stamped row is appended exactly when it reports nothing; otherwise its ValidationError is raised and the store is unchanged |
| Models.Database.CreateSystemMessage | blab-controller/chat/chats.py:79-85 | a SYSTEM message without a sender, local id, file name or MIME type and with a text within 4000 characters is always saved: the stamped row is appended |
| Models.Database.SetApproval | blab_controller/chat/chats.py:308-311 | only the approval status of that one message changes, and the store stays valid |
| Models.Database.Emit | blab-controller/chat/signals.py:35-48 | exactly one effect is appended to the outbox; nothing else changes |
| Models.Database.Defer | blab_controller/chat/signals.py:47-55 | `transaction.on_commit` inside an atomic block: exactly one callback is queued; nothing else changes |
| Models.JoinBot | blab-controller/chat/chats.py:96-118 | one BOT participant with a fresh id, then its automatically approved participant-joined message |
| ChatsOld.Chat.constructor | blab-controller/chat/chats.py:24-37 | a controller bound to its conversation |
| ChatsOld.Registry.constructor | blab-controller/chat/chats.py:22 | an empty `_all_chats` |
| ChatsOld.Registry.NewChat | blab-controller/chat/chats.py:24-37 | a conversation that already has a controller raises ValueError and nothing changes; otherwise a new controller is filed under it and the other entries stay |
| ChatsOld.Registry.GetChat | blab-controller/chat/chats.py:197-208 | a controller is returned exactly when one is registered, and it is the conversation's own |
| ChatsOld.IncludeBots | blab-controller/chat/chats.py:93-95 | the requested bots come first, in order, followed by the manager exactly when one is configured |
| ChatsOld.CreateHumanParticipant | blab-controller/chat/chats.py:144-152 | one HUMAN participant is appended, named by HumanName with its own fresh id |
| ChatsOld.BotRowsSnoc | blab-controller/chat/chats.py:96-118 | the bot rows of one more name are those so far plus that bot's row |
| ChatsOld.JoinedRowsSnoc | blab-controller/chat/chats.py:96-118 | the joined messages of one more bot are those so far plus that bot's message |
| ChatsOld.AddBot | blab-controller/chat/chats.py:96-118 | one round of the bot loop appends the next bot row and its joined message |
| ChatsOld.AddBots | blab-controller/chat/chats.py:96-118 | the bot loop appends exactly the bot rows of the names and their joined messages, in order |
| ChatsOld.OnCreate | blab-controller/chat/chats.py:62-119 | the CREATED message, the HUMAN participant, then a BOT participant and its joined message per included bot; the participants returned are the new rows, human first |
| ChatsOld.OnCreateConversation | blab-controller/chat/chats.py:39-60 | an already registered conversation raises ValueError and nothing is created; otherwise a controller is registered, the participants returned are the human and one per included bot, and the messages gain the CREATED message then each bot's joined message, exactly as `_on_create` leaves them |
| ChatsOld.OnCreateOrder | blab-controller/chat/chats.py:62-119 | the bots follow the human: the requested names in request order, then the manager when one is configured |
| ChatsOld.ParticipantJoinedMessage | blab-controller/chat/chats.py:121-142 | one automatically approved participant-joined message naming the participant is appended |
| ChatsOld.Join | blab-controller/chat/chats.py:154-168 | one HUMAN participant of the controller's conversation is appended, named by HumanName |
| ChatsOld.ApprovalForAsWritten | blab-controller/chat/chats.py:184-189 | as written: a HUMAN sender is approved automatically; any other sender raises AttributeError |
| ChatsOld.ApprovalFor | blab-controller/chat/chats.py:184-189 | as intended: automatic approval exactly for a HUMAN sender or when no manager is configured |
| ChatsOld.BotSaveRaisesAsWritten | blab-controller/chat/chats.py:184-186 | under the gate as written every BOT message raises, even with no manager configured, where the intended gate approves it |
| ChatsOld.HumanGateAgrees | blab-controller/chat/chats.py:184-189 | the two gates agree on every HUMAN sender |
| ChatsOld.OverriddenWins | blab-controller/chat/chats.py:190-195 | the controller's conversation, sender and approval override the client's; every other key keeps the client's value |
| ChatsOld.OverriddenCarried | blab-controller/chat/chats.py:190-195 | the serializer's internal value keeps the controller's conversation, sender and approval unless a condition is registered for the approval field |
| ChatsOld.SaveMessage | blab-controller/chat/chats.py:170-195 | as intended (as written: ChatsOld.ApprovalForAsWritten, every BOT sender raises): a participant of another conversation raises ValueError; a stored message is the only new row, with the controller's conversation, the participant as sender and the gate's approval |
| ChatsNew.GetChat | blab_controller/chat/chats.py:446-459 | the registered controller; otherwise a new one for a stored conversation, registered so that the next call returns it; a conversation that is not stored is not found |
| ChatsNew.FirstUninstalled | blab_controller/chat/chats.py:135-142 | every name before the position is installed and the name at the position is not |
| ChatsNew.AddInstalledBots | blab_controller/chat/chats.py:135-161 | a row and joined message per name up to the first uninstalled one, which raises TypeError; the rows created before it stay |
| ChatsNew.OnCreate | blab_controller/chat/chats.py:101-161 | the CREATED message, the human, then the included bots with their required flags; an uninstalled bot raises TypeError after the rows before it |
| ChatsNew.OnCreateConversation | blab_controller/chat/chats.py:78-99 | a new controller is registered and the human is the first new row; it succeeds exactly when every included bot is installed, returning the human and one row per bot; the participants and messages are exactly those `_on_create` leaves: the CREATED message, the human, then each installed bot before the first uninstalled one with its required flag and joined message |
| ChatsNew.CreatedBotsRequired | blab_controller/chat/chats.py:135-142 | each created bot is a BOT named after the requested bot, required exactly when its installed spec says so |
| ChatsNew.DecodeCommand | blab_controller/chat/chats.py:246-255 | a command that is not text raises TypeError; text decoding to an object gives that object, any other text gives {} |
| ChatsNew.Principal | blab_controller/chat/chats.py:267-275 | the participant with that id, kept only when it belongs to the conversation |
| ChatsNew.SenderOf | blab_controller/chat/chats.py:267-282 | no `on_behalf_of` keeps the manager as sender; otherwise the named participant of the conversation, and AttributeError exactly when there is none |
| ChatsNew.QuotedOf | blab_controller/chat/chats.py:285-293 | no quoted id quotes nothing; a resolved quote is a stored message of the conversation with that id; AttributeError exactly when the id names no stored message |
| ChatsNew.Decide | blab_controller/chat/chats.py:223-293 | another conversation's participant raises ValueError; a non-manager keeps its id and the gate's approval; the manager's self_approve alone gives manager approval; the sender and quote belong to the conversation |
| ChatsNew.SaveDataWins | blab_controller/chat/chats.py:233-237 | the decided conversation, sender, approval and sent_by_manager override the data; only the manager's message keeps its command; every other key is the client's |
| ChatsNew.SaveDataCarried | blab_controller/chat/chats.py:332-337 | the serializer keeps the decided conversation, sender and approval unless a condition is registered for the approval field |
| ChatsNew.ActionOf | blab_controller/chat/chats.py:295-331 | "approve" and "redirect" act on the quoted message when there is one, with the command's bots and overrides; anything else does nothing |
| ChatsNew.Parts | blab_controller/chat/chats.py:368 | iterating the targets: the items of a list, the characters of a text, the keys of an object; anything else raises TypeError |
| ChatsNew.RedirectPartsSnoc | blab_controller/chat/chats.py:368-398 | one more target extends an unfailed redirect by exactly that target's step |
| ChatsNew.RedirectPartsSucceed | blab_controller/chat/chats.py:368-398 | the redirect succeeds exactly when every target is text naming a BOT of the conversation |
| ChatsNew.RedirectPartsEffects | blab_controller/chat/chats.py:368-398 | when every target reaches a bot, the effects are, per target, the websocket notice and one delivery of the message to that bot with the overrides |
| ChatsNew.RedirectPartsErrorSticks | blab_controller/chat/chats.py:368-398 | once a target has failed, later targets change neither the effects nor the error |
| ChatsNew.OverrideFields | blab_controller/chat/chats.py:424-427 | a falsy value is no override, an object is used as is, any other truthy value fails |
| ChatsNew.DeliverMessageToBot | blab_controller/chat/chats.py:400-428 | the three membership checks in order; success exactly when the bot is an installed BOT of the message's conversation and the overrides are valid; the bot gets the representation with the overrides on top |
| ChatsNew.DeliverStatusToBot | blab_controller/chat/chats.py:430-444 | the membership checks; success exactly for an installed BOT of the conversation, which gets its own installed spec |
| ChatsNew.RedirectDeliveryAccepted | blab_controller/chat/chats.py:414-422 | every delivery of a successful redirect goes to a participant of the conversation and passes the membership checks; it can fail only on an uninstalled bot or invalid overrides |
| ChatsNew.RedirectPart | blab_controller/chat/chats.py:368-398 | one loop iteration appends exactly that target's effects and returns its error |
| ChatsNew.RedirectTargets | blab_controller/chat/chats.py:368-398 | the target loop appends, target by target, each target's effects and stops at the first target that raises; its effects and error are those of the redirect function over the same targets; messages and participants are unchanged |
| ChatsNew.RedirectMessage | blab_controller/chat/chats.py:357-398 | a `targets` value that cannot be iterated fails with nothing emitted; otherwise the effects and error equal the redirect function's over the conversation's participants; the store is unchanged |
| ChatsNew.PerformAction | blab_controller/chat/chats.py:295-331 | approve sets only the quoted message's approval to manager-approved and then runs the save's receiver: outside an atomic block the approved message's fan-out is appended, inside one its fan-out is queued for the commit; redirect appends the redirect's effects and error; anything else changes nothing |
| ChatsNew.Acted | blab_controller/chat/chats.py:307-311 | the messages after the action: the same rows, with only the approved row's status set to manager-approved |
| ChatsNew.ActionDeferred | blab_controller/chat/signals.py:52-55 | the action leaves a callback for the commit exactly when it is an approval inside an atomic block |
| ChatsNew.ApprovalBroadcasts | blab_controller/chat/chats.py:307-311 | outside an atomic block the manager's approval broadcasts the approved message, in exactly one form, and raises nothing; inside one nothing is sent before the commit |
| ChatsNew.SelfRedirect | blab_controller/chat/chats.py:339-353 | no created message raises AttributeError; inside an atomic block the redirect is queued for the commit; outside, it runs at once |
| ChatsNew.StoreDecided | blab_controller/chat/chats.py:332-337 | a stored message is the only new row, with the decided conversation, sender and approval; otherwise the messages are unchanged |
| ChatsNew.CreateAndRedirect | blab_controller/chat/chats.py:335-354 | the decided message is stored, then the manager's self_redirect is queued or run; messages and outbox only grow |
| ChatsNew.SaveMessage | blab_controller/chat/chats.py:211-354 | a refused decision changes nothing; the action's effects come first and its error stops the save with the messages unchanged; otherwise the messages are the acted-on rows, plus the stored message when one is stored, which carries the decided conversation, sender and approval; without a self-redirect the outbox is exactly the action's effects and the commit queue gains exactly the approval's deferred fan-out; with one, inside an atomic block the redirect is queued after it |
| ChatsNew.SaveDecided | blab_controller/chat/chats.py:295-354 | after the decisions: the action's effects come first and its error stops the save with the messages unchanged; otherwise the messages are the acted-on rows plus at most the stored message, and without a self-redirect the outbox gains exactly the action's effects and the commit queue exactly the approval's deferred fan-out |
| Domain.TrimStart | blab-controller/chat/signals.py:72 | the result is a suffix of the text that starts with no white space |
| Domain.TrimEnd | blab-controller/chat/signals.py:72 | the result is a prefix of the text that ends with no white space |
| Domain.Strip | blab-controller/chat/signals.py:72 | `str.strip()`: the result starts and ends with no white space |
| Domain.TrimStartDropsSpace | blab-controller/chat/signals.py:72 | `lstrip` removes only white space: the dropped prefix is all spaces |
| Domain.TrimEndDropsSpace | blab-controller/chat/signals.py:72 | `rstrip` removes only white space: the dropped suffix is all spaces |
| Domain.StripDropsSpace | blab-controller/chat/signals.py:72 | `strip` removes only white space: what lstrip drops from the front and rstrip then drops from the end are all spaces, and the result is a prefix of what lstrip kept |
| SignalsOld.Split | blab-controller/chat/signals.py:72 | `str.split(sep)` always gives at least one piece |
| SignalsOld.SplitJoin | blab-controller/chat/signals.py:72 | the pieces hold no separator and join back to the text |
| SignalsOld.SplitPrefix | blab-controller/chat/signals.py:72 | a leading piece without the separator becomes the start of the first piece |
| SignalsOld.JoinSplit | blab-controller/chat/signals.py:72 | `split` undoes `join` for pieces that hold no separator |
| SignalsOld.JoinEnds | blab-controller/chat/signals.py:72 | a joined text starts with its first piece and ends with its last |
| SignalsOld.TrimEndTail | blab-controller/chat/signals.py:72 | `rstrip` removes exactly a trailing run of white space |
| SignalsOld.RedirectTargetsLines | blab-controller/chat/signals.py:72 | the targets of a redirect command are its lines after the first, in order, whatever white space trails the text |
| SignalsOld.FirstBot | blab-controller/chat/signals.py:78-82 | the first BOT participant whose name or id is the target; none exactly when no BOT matches |
| SignalsOld.RedirectSnoc | blab-controller/chat/signals.py:73-93 | one more target line extends an unfailed redirect by exactly that line's step |
| SignalsOld.RedirectErrorSticks | blab-controller/chat/signals.py:72-93 | once a target has failed, later lines change neither the effects nor the error |
| SignalsOld.RedirectSucceeds | blab-controller/chat/signals.py:72-93 | the redirect succeeds exactly when every line's step does, and then every delivery carries the quoted message |
| SignalsOld.UnknownTargetStops | blab-controller/chat/signals.py:78-82 | a line naming no BOT participant makes the redirect fail |
| SignalsOld.BotDeliveriesExact | blab-controller/chat/signals.py:115-129 | the bot loop delivers to exactly the participants it keeps: installed BOTs, and only the manager while non-manager bots are avoided |
| SignalsOld.RouteBroadcastOrManager | blab-controller/chat/signals.py:100-113 | a message is broadcast exactly when approved (to humans only while avoiding); the manager gets a copy exactly when the message is unapproved or bots are avoided |
| SignalsOld.RouteBots | blab-controller/chat/signals.py:115-129 | a bot receives the message exactly when it is a participant of the conversation that the bot loop keeps |
| SignalsOld.RedirectTarget | blab-controller/chat/signals.py:73-93 | one loop iteration appends exactly that line's effects and returns its error |
| SignalsOld.Redirect | blab-controller/chat/signals.py:72-93 | the loop's effects and error equal the redirect function's; the store is unchanged |
| SignalsOld.DeliverToBots | blab-controller/chat/signals.py:115-129 | the loop appends exactly the bot deliveries |
| SignalsOld.Route | blab-controller/chat/signals.py:100-129 | exactly the routing effects are appended |
| SignalsOld.RedirectThenRoute | blab-controller/chat/signals.py:66-129 | a manager's "TO:" message: the redirect, then, unless it raised, the routing |
| SignalsOld.RouteOnly | blab-controller/chat/signals.py:100-129 | any other message is only routed and never raises (corrected routing; see Left out) |
| SignalsOld.FanOutAsWrittenRaises | blab-controller/chat/signals.py:66-113 | as written every saved message raises with nothing delivered, where the corrected fan-out always broadcasts or notifies the manager |
| SignalsOld.MessageWatcherFunction | blab-controller/chat/signals.py:60-129 | the effects and error are the fan-out function's |
| SignalsOld.MessageWatcher | blab-controller/chat/signals.py:51-57 | inside an atomic block the fan-out is queued for the commit and nothing is sent; outside, the fan-out runs at once |
| SignalsOld.StatusDeliveriesExact | blab-controller/chat/signals.py:35-48 | one status delivery per installed BOT participant, and nothing else |
| SignalsOld.StatusToInstalledBots | blab-controller/chat/signals.py:35-48 | a bot gets the status exactly when it is an installed BOT participant of the conversation |
| SignalsOld.ParticipantWatcher | blab-controller/chat/signals.py:18-48 | the participant list is broadcast and handed to the installed bots; the store is unchanged |
| SignalsNew.BotDeliveriesExact | blab_controller/chat/signals.py:75-85 | the bot loop delivers exactly to the participants it keeps, without overrides, queued exactly when the queue is enabled |
| SignalsNew.FanOutManagerCopy | blab_controller/chat/signals.py:66-69 | the manager gets its own copy exactly when non-manager bots are avoided |
| SignalsNew.FanOutBroadcast | blab_controller/chat/signals.py:66-73 | a message is broadcast exactly when its approval is nonzero, to humans only exactly while bots are avoided |
| SignalsNew.FanOutBots | blab_controller/chat/signals.py:75-85 | a bot receives the message exactly when it is a BOT of the conversation and, while bots are avoided, the manager; approval plays no part |
| SignalsNew.DeliverToBots | blab_controller/chat/signals.py:75-85 | the loop appends exactly the bot deliveries |
| SignalsNew.MessageWatcherFunction | blab_controller/chat/signals.py:58-85 | exactly the fan-out effects are appended |
| SignalsNew.MessageWatcher | blab_controller/chat/signals.py:47-55 | inside an atomic block the fan-out is queued for the commit and nothing is sent; outside, it runs at once |
| SignalsNew.StatusDeliveriesExact | blab_controller/chat/signals.py:36-44 | one status delivery per BOT participant, and nothing else |
| SignalsNew.StatusToEveryBot | blab_controller/chat/signals.py:23-44 | every effect besides the broadcast is a status delivery to a BOT of the conversation, carrying the broadcast participant list |
| SignalsNew.StatusReachesBot | blab_controller/chat/signals.py:36-44 | every BOT of the conversation gets the status |
| SignalsNew.ParticipantWatcher | blab_controller/chat/signals.py:17-44 | exactly the status effects are appended; the store is unchanged |
| Consumers.GroupName | blab-controller/chat/consumers.py:20-29 | the group name is a fixed prefix followed by the conversation id |
| Consumers.ReceiveData | blab-controller/chat/consumers.py:143-155 | an empty frame gives nothing; otherwise the decoded object, with the connection's conversation and participant written over what the client sent |
| Consumers.ReceivedMessageCarriesConnection | blab-controller/chat/consumers.py:143-155 | a message the serializer accepts from a connection has the connection's conversation and participant, whatever the client sent |
| Consumers.Receive | blab-controller/chat/consumers.py:143-185 | an undecodable frame fails and an empty one does nothing; a stored message is the only new row and carries the connection's conversation and sender |
| Consumers.Connect | blab-controller/chat/consumers.py:35-74 | fails with DoesNotExist exactly when the session names no participant or conversation that exists; otherwise appends the joined message, joins the group and broadcasts the participants |
| Consumers.Disconnect | blab-controller/chat/consumers.py:119-141 | appends the participant-left message, then broadcasts the participants and leaves the group |
| Consumers.ParticipantWatcher | blab-controller/chat/consumers.py:187-201 | exactly the conversation's participant list is broadcast; the store is unchanged |
| Consumers.Invocations | blab-controller/chat/consumers.py:231-251 | one bot run per selected bot, in order, with its arguments |
| Consumers.UseBotsSelects | blab-controller/chat/consumers.py:221-237 | the bots run for a message are exactly the BOT participants whose name is installed, with their entries |
| Consumers.InvokedBots | blab-controller/chat/consumers.py:213-251 | a bot is run exactly when it is an installed BOT of the conversation, with its installed arguments |
| Consumers.SelectBots | blab-controller/chat/consumers.py:221-230 | the loop selects exactly the bots the selection function names |
| Consumers.MessageWatcher | blab-controller/chat/consumers.py:213-251 | exactly the watcher's effects are appended: the broadcast, then the bot runs |
| Consumers.BotSendData | blab-controller/chat/consumers.py:239-246 | raises TypeError exactly when the bot's data names the conversation or sender itself; otherwise adds both |
| Consumers.ReplySendable | blab-controller/chat/consumers.py:239-246 | every reply of the example bots can be sent, with the bot as sender and the quoted message kept |
| Bots.Respond | blab-controller/chat/bots.py:44-83 | a reply exactly when a human sent the message: a TEXT message quoting it |
| Bots.BaseReceive | blab-controller/chat/bots.py:31-41 | the base bot never replies |
| Bots.EchoReceive | blab-controller/chat/bots.py:44-62 | answers exactly human messages: upper case for a TEXT message, "?" otherwise |
| Bots.CalculatorReceive | blab-controller/chat/bots.py:65-83 | answers exactly human messages: the evaluated text for a TEXT message, "?" otherwise |
| Bots.BotsIgnoreBots | blab-controller/chat/bots.py:44-83 | no bot of this repository answers a bot's message, so two of them cannot keep answering each other |
| Serializers.CodeType | blab-controller/chat/serializers.py:147-153 | the type whose stored code is given, and none exactly when no type has that code |
| Serializers.WithFileTypes | blab-controller/chat/serializers.py:178-192 | `_only_with_file` holds exactly for attachment, voice, audio, video and image |
| Serializers.NotTypeNegates | blab-controller/chat/serializers.py:147-162 | `_only_not_type` negates `_only_type`; a dictionary without a type is "not t" for every t |
| Serializers.LookupIn | blab-controller/chat/serializers.py:141-144 | a registered field gets its condition; any other field is always used |
| Serializers.RegisterReplaces | blab-controller/chat/serializers.py:128-139 | registering replaces that field's condition and leaves the others alone |
| Serializers.ConditionalFields.constructor | blab-controller/chat/serializers.py:124-126 | an empty condition table |
| Serializers.ConditionalFields.Register | blab-controller/chat/serializers.py:128-139 | the table maps the field to the new condition |
| Serializers.ConditionalFields.Lookup | blab-controller/chat/serializers.py:141-144 | a field without a registered condition is always used |
| Serializers.MessageSerializerConditions | blab-controller/chat/serializers.py:213-295 | the class body leaves exactly the message serializer's condition table |
| Serializers.LastIndex | blab-controller/chat/serializers.py:340-341 | the last position of the character, and none exactly when it does not occur |
| Serializers.UrlFileName | blab-controller/chat/serializers.py:340-341 | the name taken from an external URL contains no '/' |
| Serializers.LastIndexAt | blab-controller/chat/serializers.py:340-341 | a position holding the character with none after it is the last position |
| Serializers.UrlFileNameWithQuery | blab-controller/chat/serializers.py:340-341 | ".../name?query" names the file `name` |
| Serializers.UrlFileNameWithoutQuery | blab-controller/chat/serializers.py:340-341 | ".../name" without a '?' names the file `name` |
| Serializers.GetFileName | blab-controller/chat/serializers.py:324-342 | none for types without files; the original name of a stored file; otherwise the name taken from the external URL |
| Serializers.GetFileUrl | blab-controller/chat/serializers.py:297-313 | none for types without files; the stored file's URL; otherwise the external URL, if any |
| Serializers.LimitKey | blab-controller/chat/serializers.py:367-381 | a type has a size-limit setting exactly when it carries a file |
| Serializers.FileLimit | blab-controller/chat/serializers.py:367-381 | the configured limit of the type; 0 for a type without one or a setting that is absent |
| Serializers.CreateRejection | blab-controller/chat/serializers.py:361-384 | a SYSTEM message is refused; otherwise exactly a file over its type's limit is refused with HTTP 413 |
| Serializers.UnlimitedTypeRefusesFiles | blab-controller/chat/serializers.py:380-384 | a non-empty file on a type without a limit is always refused |
| Serializers.OptionTexts | blab-controller/chat/serializers.py:388-389 | no more option texts than option entries |
| Serializers.DraftOf | blab-controller/chat/serializers.py:387 | a draft has the type the data names, carries its conversation, sender and approval, and its sender is the data's |
| Serializers.Create | blab-controller/chat/serializers.py:361-391 | a rejection changes nothing; a failed field validation raises; otherwise the stamped row, carrying the data's fields including the upload's name and MIME type, is saved exactly when `full_clean` passes, and `full_clean`'s error is raised otherwise |
| Serializers.OptionToInternal | blab-controller/chat/serializers.py:198-202 | a text option becomes that text at position 0; anything else is kept as is |
| Serializers.ResolveQuoted | blab-controller/chat/serializers.py:400-409 | a falsy id quotes nothing; a resolved id names a stored message with that id; an unknown one is refused with the serializer's message |
| Serializers.FindByMId | blab-controller/chat/serializers.py:404 | the first stored message with that external id, and none exactly when there is none |
| Serializers.NumberOptions | blab-controller/chat/serializers.py:424-425 | one option per item, in order, numbered from 1 |
| Serializers.OptionTextsOfObjects | blab-controller/chat/serializers.py:388-389 | for option objects that all carry a text, the saved option texts are exactly those texts, in order |
| Serializers.OptionTextsNumbered | blab-controller/chat/serializers.py:422-425 | the option texts of the numbered options are exactly `str(o)` of each requested option, in order |
| Serializers.ToInternalValue | blab-controller/chat/serializers.py:393-426 | the loops compute exactly the internal value function |
| Serializers.DropFailing | blab-controller/chat/serializers.py:395-397 | the loop keeps exactly the entries whose condition holds |
| Serializers.AppendOptions | blab-controller/chat/serializers.py:424-425 | the loop appends exactly the numbered options |
| Serializers.InternalValuePlainFields | blab-controller/chat/serializers.py:395-398 | a writable request field is kept exactly when its condition holds on the request, and then as the base class validated it |
| Serializers.CharValue | blab-controller/chat/models.py:138 | a text column as the REST framework validates it: None only where nullable, strings and numbers only, trimmed, and at most max_length characters; a string is refused exactly when its trimmed text is too long |
| Serializers.TypeValue | blab-controller/chat/models.py:100-103 | the type choice is accepted exactly when `str` of the value is a type code, and then is that code |
| Serializers.FieldError | blab-controller/chat/serializers.py:398 | no error only when the type is present and every writable field passes its base validation; a missing type is "This field is required." |
| Serializers.InternalValueBaseValidation | blab-controller/chat/serializers.py:398 | a request without a type is refused; an accepted value has a type code, a text of at most 4000 characters and a local id of at most 32 or None; a kept text or local id too long after trimming is refused |
| Serializers.FieldsValid | blab-controller/chat/serializers.py:398 | once no field failed, every writable field present passes the base class's validation |
| Serializers.TooLongRefused | blab-controller/chat/models.py:138-179 | a kept text or local id whose trimmed value is over its column length makes the request fail |
| Serializers.InternalValueBounds | blab-controller/chat/models.py:100-179 | an accepted value holds a type code, a text of at most 4000 characters and a local id of at most 32 characters or None |
| Serializers.InternalValueControllerFields | blab-controller/chat/serializers.py:419-423 | the conversation and sender come from the request; the approval defaults to NO |
| Serializers.InternalValueOptions | blab-controller/chat/serializers.py:422-425 | the request's options, numbered from 1 in input order |
| Serializers.UnknownQuotedRefused | blab-controller/chat/serializers.py:402-408 | quoting an id that no stored message has is refused |
| Serializers.OptionObjects | blab-controller/chat/serializers.py:294 | one nested option object with a text per stored option |
| Serializers.FlattenOptions | blab-controller/chat/serializers.py:434-435 | each option is replaced by its text, in order |
| Serializers.BaseRepresentation | blab-controller/chat/serializers.py:438-461 | the base representation has exactly the readable declared fields |
| Serializers.ToRepresentation | blab-controller/chat/serializers.py:428-436 | the loop computes exactly the representation function |
| Serializers.RepresentationShows | blab-controller/chat/serializers.py:431-433 | a representation has exactly the readable fields whose condition holds |
| Serializers.CommonFieldsShown | blab-controller/chat/serializers.py:440-445 | type, time, id, sent_by_human and options are always shown |
| Serializers.SystemFieldsShown | blab-controller/chat/serializers.py:213-295 | the event and its metadata are shown exactly for system messages |
| Serializers.NonSystemFieldsShown | blab-controller/chat/serializers.py:213-295 | sender, text, local id and quoted id are shown exactly for other messages |
| Serializers.FileFieldsShown | blab-controller/chat/serializers.py:263-292 | file URL, name and size are shown exactly for the types that carry a file |
| Serializers.RepresentationOptions | blab-controller/chat/serializers.py:434-435 | the options shown are the option texts, in stored order |
| Serializers.CreateMessageOutcome | blab-controller/chat/serializers.py:481-493 | as intended: a saved message is returned; a failure gives None exactly when it is the duplicate error, and is raised otherwise |
| Serializers.CreateMessageOutcomeAsWritten | blab-controller/chat/serializers.py:481-493 | as written: a saved message is returned and every failure is raised |
| Serializers.DuplicateIgnored | blab-controller/chat/serializers.py:485-491 | a failed save is ignored exactly when clean passed, the local id was not refused and a stored row shares (conversation, sender, local id); other refused columns do not stop the duplicate from being ignored, since only the non-field entries are inspected |
| Serializers.DuplicateRaisedAsWritten | blab-controller/chat/serializers.py:485-492 | a concrete duplicate: the code as written raises where the corrected outcome is None |
| Serializers.CreateMessage | blab-controller/chat/serializers.py:463-493 | as intended (as written: Serializers.CreateMessageOutcomeAsWritten, a duplicate raises): an invalid request raises and changes nothing; a stored message is the only new row and carries the internal value's fields |
| History.Keep | blab_controller/chat/views.py:214-216 | a row is kept exactly when it is stored and satisfies the filter |
| History.KeepAscending | blab_controller/chat/views.py:214-216 | filtering keeps time order |
| History.KeepAppend | blab_controller/chat/views.py:214-216 | filtering distributes over appending a newly saved row |
| History.Reverse | blab_controller/chat/views.py:246 | the i-th element is the i-th from the end |
| History.NewestFirst | blab_controller/chat/views.py:240 | on time-ordered rows, reversing orders newest first and keeps the same rows |
| History.WindowIsNewestSuffix | blab_controller/chat/views.py:240-246 | the history is the last `limit` rows, or all rows without a limit |
| History.ResolveBound | blab_controller/chat/views.py:218-228 | a bound is absent, parsed, or "now"; any other text is a ParseError naming it |
| History.DigitsOfNatText | blab_controller/chat/views.py:241-245 | the decimal text of a number is all digits and reads back as the number |
| History.ParseLimit | blab_controller/chat/views.py:241-245 | an absent limit is none; a limit parses exactly when it is all digits; otherwise a ParseError naming it |
| History.LimitRoundTrip | blab_controller/chat/views.py:241-245 | a limit written as str(n) parses back to n |
| History.WindowKeepsNewest | blab_controller/chat/views.py:240-246 | on time-ordered rows the window is time ordered, and every row it leaves out is older than every row it keeps |
| History.SuffixKeepsNewest | blab_controller/chat/views.py:240-246 | a suffix of time-ordered rows is time ordered, and every row before it is older than every row in it |
| History.QueryFromRows | blab_controller/chat/views.py:218-246 | the query succeeds exactly when both bounds and the limit parse, fails only with ParseError, and returns only rows it was given |
| History.QueryWindow | blab_controller/chat/views.py:214-246 | a successful query returns the newest `limit` rows in range, oldest first; every in-range row left out is older than every row returned |
| Sessions.Session.constructor | blab-controller/chat/views.py:66-69 | an empty session |
| Sessions.Session.Nickname | blab_controller/chat/views.py:83-91 | refused exactly when the request's nickname is truthy but not text; otherwise the request's nickname, else the session's non-empty one, else "" |
| Sessions.Session.ParticipantFor | blab_controller/chat/views.py:197-207 | a participant with the stored id; none exactly when no id is stored, it is empty, or no participant has it |
| Sessions.Session.LookupAsWritten | blab-controller/chat/views.py:112-116 | as written: raises AttributeError exactly when a non-empty stored id names no participant; otherwise the participant the intended lookup finds |
| Sessions.Session.SuppressedLookupAsWritten | blab_controller/chat/views.py:144-147 | as written: raises AttributeError exactly when a non-empty id is stored, so no participant is ever reused |
| Sessions.LookupsRaiseAsWritten | blab_controller/chat/views.py:144-147 | where the intended lookup reuses a participant the written newer join raises; where it finds a stale id the written except clause raises |
| Sessions.Session.SetNickname | blab-controller/chat/views.py:66 | only the nickname changes |
| Sessions.Session.Participate | blab-controller/chat/views.py:123-124 | only that conversation's participant id changes |
| ViewsOld.PerformCreate | blab-controller/chat/views.py:46-75 | a refused nickname changes nothing; otherwise the conversation, its CREATED message and the creator, named by HumanName, and the session holds the nickname as given and the creator's id |
| ViewsOld.Create | blab-controller/chat/views.py:77-88 | fails exactly when the nickname is refused; the response names the new conversation and its HUMAN creator |
| ViewsOld.Join | blab-controller/chat/views.py:90-130 | as intended (as written: Sessions.Session.LookupAsWritten, a stale session id raises AttributeError): the nickname is checked before the conversation; the session's participant is reused, else a HUMAN participant is created under the nickname exactly as given; the session records it |
| ViewsOld.MessageList | blab-controller/chat/views.py:149-192 | as intended (as written: Sessions.Session.LookupAsWritten, a stale session id raises AttributeError): without a session participant PermissionDenied; otherwise succeeds exactly when the bounds and limit parse, returning only messages of the conversation |
| ViewsOld.MessageListNewest | blab-controller/chat/views.py:186-192 | the history is time ordered, and every message of the conversation in range that is left out is older than every one returned |
| ViewsNew.ListConversations | blab_controller/chat/views.py:58-62 | refused exactly when rooms are disabled; otherwise every conversation is listed |
| ViewsNew.Retrieve | blab_controller/chat/views.py:64-79 | as intended (as written: Sessions.Session.LookupAsWritten, a stale session id raises AttributeError): a missing conversation is not found; otherwise refused exactly when rooms are disabled and the session has no participant for it |
| ViewsNew.Texts | blab_controller/chat/views.py:93-99 | the names of an all-text list, in order |
| ViewsNew.Missing | blab_controller/chat/views.py:99 | empty exactly when every item is an installed name; every item listed is a requested one that is not installed |
| ViewsNew.FirstUnhashable | blab_controller/chat/views.py:99 | the first list or object among the items, and none exactly when there is none |
| ViewsNew.BotListAsWritten | blab_controller/chat/views.py:93-101 | as written: success returns the requested names; TypeError only for a list holding a falsy list or object |
| ViewsNew.BotList | blab_controller/chat/views.py:93-101 | as intended: success exactly for a list of installed names, returning them in order; a non-list or non-text item is an invalid array; otherwise the missing names are reported |
| ViewsNew.BotListAgreement | blab_controller/chat/views.py:93-101 | both checks accept the same lists with the same names, and agree on every list without a falsy non-text item |
| ViewsNew.BotListEmptyListItem | blab_controller/chat/views.py:95-96 | `{"bots": [[]]}` raises TypeError as written and is an invalid bot array as intended |
| ViewsNew.PerformCreate | blab_controller/chat/views.py:81-111 | as intended (as written: ViewsNew.BotListEmptyListItem, `{"bots": [[]]}` raises TypeError): the nickname and the bot list are checked before anything is created; success exactly when every included bot is installed; the participants and messages are exactly those `_on_create` leaves for the new conversation, a success returns the human and the bot rows, the session points at the human, and a failure during creation leaves the session's nickname unchanged |
| ViewsNew.Join | blab_controller/chat/views.py:113-160 | as intended (as written: Sessions.Session.SuppressedLookupAsWritten, any stored session id raises AttributeError): the conversation is looked up first, then the nickname; the session's participant is reused; otherwise without rooms PermissionDenied, with rooms a new HUMAN named by HumanName |
| ViewsNew.ServerFields | blab_controller/chat/views.py:182-192 | the conversation, the participant as sender and the approval (automatic exactly for a HUMAN) override the client's; every other key is the client's |
| ViewsNew.CreateMessage | blab_controller/chat/views.py:169-195 | without a session participant PermissionDenied; a stored message has the conversation and the participant as sender, approved automatically exactly when sent by a HUMAN |
| ViewsNew.MessageList | blab_controller/chat/views.py:209-246 | without a session participant PermissionDenied; otherwise succeeds exactly when the bounds and limit parse, returning only approved messages of the conversation |
| ViewsNew.MessageListNewest | blab_controller/chat/views.py:240-246 | the history is time ordered, and every approved message of the conversation in range that is left out is older than every one returned |

## Left out

- Identifiers: `uuid4` becomes a counter in the store, and ids are plain text. The source's `UUIDField` lookups raise Django's `ValidationError` for a text that is not a UUID; the model treats such a text as an id that names no row. This affects the view-level checks and also ChatsNew.SenderOf and ChatsNew.QuotedOf (blab_controller/chat/chats.py:269, 288), ChatsNew.GetChat (blab_controller/chat/chats.py:458) and Consumers.Connect (blab-controller/chat/consumers.py:44), which give not-found or AttributeError where the source raises `ValidationError`.
- Ordering: `.first()` and the default ordering by id of the source are modelled as the earliest created matching row.
- Receivers: the `post_save`/`post_delete` signal dispatch is not modelled. Each receiver is its own operation, composed only after the manager's approval save (`ChatsNew.PerformAction`), and the participant watcher is modelled for saves only.
- `dispatch_uid` clash: the older consumers and the older signals register their `Message` receiver under the same `dispatch_uid="consumer_message_watcher"`, and their `Participant` receivers under the same `"consumer_participant_watcher"`. `Signal.connect` ignores a second receiver with a key it already holds. The app's `ready()` imports the signals module, and that module imports the consumers (blab-controller/chat/signals.py:12) before its own decorators run. So Django keeps the consumers' receivers (`Consumers.MessageWatcher`, `Consumers.ParticipantWatcher`). The older signal receivers in `SignalsOld` are never connected as the older tree is wired; the model keeps them as operations of their own, so that what they would do when called is stated.
- Consumer methods that do not exist: the older signals call `send_message_to_bot` and `send_message_to_bot_manager`, which the older consumer class does not define. They also call `broadcast_message` with three arguments, where the older consumer takes two. `SignalsOld.FanOutAsWritten` models this as written (see Findings). The corrected receivers `SignalsOld.FanOut` and the methods built on it record in the outbox the delivery each call asks for.
- SignalsOld.RouteEffects: the routing as the calls ask for it, not as the older consumer would run it; as written, every message raises first (`SignalsOld.FanOutAsWritten`).
- SignalsOld.RouteBroadcastOrManager: states the corrected routing; as written, the first consumer call raises (AttributeError or TypeError) before any broadcast.
- SignalsOld.RouteBots: states the bot loop of the corrected routing; as written, the loop at blab-controller/chat/signals.py:115-129 is never reached.
- SignalsOld.Route: records the corrected routing; as written, it raises at its first consumer call.
- SignalsOld.RedirectThenRoute: records the corrected redirect; as written, the first target line raises AttributeError at `send_message_to_bot`.
- SignalsOld.RouteOnly: "never raises" holds of the corrected routing only; as written, it always raises.
- SignalsOld.MessageWatcherFunction: states the corrected fan-out; as written, it always raises (`SignalsOld.FanOutAsWrittenRaises`).
- SignalsOld.MessageWatcher: the same as `MessageWatcherFunction`. As the tree is wired, Django never calls it (see the `dispatch_uid` line).
- Older message fields: blab-controller/chat/models.py has no `ApprovalStatus`, `sent_by_human`, `MessageOption`, no AUDIO, VIDEO or IMAGE type and no file or options fields, and no `is_required`. As written, the older serializer fails at import (blab-controller/chat/serializers.py:21), and the older `Chat` (chats.py:187) and signals (signals.py:100) would raise AttributeError. The model reads the older chats, serializer and signals against the newer `Message`, which has these members; this is what the `ChatsOld.ApprovalForAsWritten` HUMAN branch relies on. `is_present` (models.py:46) has no default, so as written every participant insert fails; the model leaves `is_present` out.
- `sent_by_manager`: the older serializer stands in for the newer one, and does not store `sent_by_manager`.
- Files not in the model: blab_controller/chat/serializers.py, blab_controller/chat/models.py and blab_controller/chat/bots.py are not part of this model. The older serializer and models stand in for them, and the newer `all_bots()` is the installed-bot map of the settings.
- Delivery: delivery, Celery tasks, the channel layer and its asynchrony, and the newer consumers are recorded as outbox effects and never executed. Logging is left out.
- Parameters: the key order of a JSON object, `json.loads`, `str()` of a request value, `parse_datetime`, the current time, Python's `eval` (calculator bot) and Unicode upper-casing (echo bot) are parameters of the model.
- Bot loading: `_get_bot` and `import_module` resolve a bot class by name; the model looks the class up in the settings directly.
- HTTP bodies: the conversation list's ordering by name, the conversation name and the `ConversationSerializer` response bodies are not modelled. `Http404` is modelled as a DoesNotExist failure.
- Request data: the conversion of a `QueryDict` with `.dict()` is not modelled; request data is a map from keys to single values.
- Models.FullClean: of `clean_fields` (blab-controller/chat/models.py:100-179) only the max_length checks on `text`, `original_file_name`, `mime_type` and `local_id` are modelled. The foreign keys' existence checks on `conversation`, `sender` and `quoted_message` are not: the model's ids are plain text (see Identifiers), and the callers look these rows up before saving. The `type` choice cannot fail, because the type is a datatype of the allowed codes.
- Serializers.FieldError: it returns the first failing field in the serializer's field order; the REST framework collects every failing field into one error. The string validation of `quoted_message_id`, the file's empty-name and empty-file checks, and the option entries' own fields are not modelled.
- History.ParseLimit: `str.isdigit` also accepts non-ASCII digits, which `int()` may refuse. The model accepts ASCII digits only.
- ViewsNew.CreateMessage: it states the approval only when no condition is registered for `approval_status`, and the older serializer stands in for the newer one.
- ChatsOld.SaveMessage: it states the stored approval only when no condition is registered for `approval_status`. The message serializer registers none, so this covers the source's own table.
- ChatsNew.StoreDecided: the same restriction on the stored approval.
- ChatsNew.CreateAndRedirect: the same restriction on the stored approval.
- ChatsNew.SaveMessage: the same restriction on the stored approval. With a self-redirect, the outbox is stated as the action's effects followed by further effects, and the messages after a failed redirect only as the acted-on rows plus at most one row; `ChatsNew.CreateAndRedirect` states these parts exactly. The fan-out of the newly created message itself is not composed: the serializer creates it inside `transaction.atomic()` (blab-controller/chat/serializers.py:386), so its receiver's callback waits for a commit the model does not run.

## Findings

| source | as written | input that shows it | evidently intended | confidence | as-written member | corrected member |
|---|---|---|---|---|---|---|
| blab-controller/chat/chats.py:184-186 | the approval gate calls `settings.get(...)` for every sender that is not HUMAN, and Django's settings object has no `get` | any message from a BOT participant, with or without a manager configured | read the setting with `getattr(settings, ..., None)`: approve automatically when no manager is configured | high, not executed | ChatsOld.BotSaveRaisesAsWritten | ChatsOld.ApprovalFor |
| blab-controller/chat/serializers.py:485 | `create_message` catches the REST framework's `ValidationError` (imported at line 12), but a duplicate is reported by Django's `full_clean` with `django.core.exceptions.ValidationError` | a second message with the same conversation, sender and local id | return None for a duplicate, as the docstring says | medium, not executed | Serializers.DuplicateRaisedAsWritten | Serializers.DuplicateIgnored |
| blab-controller/chat/signals.py:66-113 | the receiver calls `ConversationConsumer.send_message_to_bot` and `send_message_to_bot_manager`, which the older consumer class (consumers.py:32-185) does not define. It calls `broadcast_message(id, instance, avoid)` with three arguments, and consumers.py:106 takes two. | any saved message: a redirect line raises AttributeError; otherwise avoiding or an unapproved message raises AttributeError, and an approved one raises TypeError | the deliveries the calls name: a websocket copy per target, the manager copy, the broadcast (to humans only while avoiding), then the bot loop | high, not executed | SignalsOld.FanOutAsWrittenRaises | SignalsOld.FanOut |
| blab-controller/chat/views.py:112-116 | `except Model.DoesNotExist` names the abstract `django.db.models.Model` (imported at line 6), which has no `DoesNotExist`; the same clause is at blab-controller/chat/views.py:158 and blab_controller/chat/views.py:74 | a session whose stored participant id names no participant: `Participant.DoesNotExist` is raised and evaluating the except clause raises AttributeError (HTTP 500) | swallow `Participant.DoesNotExist`: create a new participant (older join) or refuse with PermissionDenied (message list, retrieve) | high, not executed | Sessions.Session.LookupAsWritten | Sessions.Session.ParticipantFor |
| blab_controller/chat/views.py:146 | `with suppress(Model.DoesNotExist)` evaluates `Model.DoesNotExist` before its body runs, and the abstract `Model` has none | any join by a session that already holds an id for the conversation raises AttributeError (HTTP 500) | reuse the session's participant when it still exists | high, not executed | Sessions.LookupsRaiseAsWritten | Sessions.Session.ParticipantFor |
| blab_controller/chat/views.py:95-96 | the bot-list check only tests the truthiness of non-text items, so a falsy non-text item reaches `b not in available_bots` | `{"bots": [[]]}`: the empty list is unhashable and raises TypeError (HTTP 500) | refuse every non-text item with the ValidationError "Invalid bot array:" | high, not executed | ViewsNew.BotListEmptyListItem | ViewsNew.BotList |
