# Conversation store of the local chat client

This project models the conversation store of a browser chat client that talks to a
locally hosted language model through a small relay. The store lives in the root React
component (`chatbox-frontend/src/App.jsx`) and holds:

- `chats`: an ordered list of chats, each with an `id`, a `title`, its `messages` and an
  `isPinned` flag;
- `currentChatId`: the id of the active chat, or none;
- `isTyping`: a global "a reply is pending" flag.

The handlers change this state. They create, select, delete, rename and pin chats, and they
send a message. An effect rehydrates the state from local storage at start-up, and another
effect saves it after every change. The sidebar shows the chats pinned first.

The model has five modules:

- `Chats` (chats.dfy): the values and the list transformations behind the handlers. These are
  the `filter` of delete, the `map` of rename, pin and the two message appends, the title
  derived from a chat's first message, the lookups by id, and the blank-prompt guard
  (`String.prototype.trim` over the ECMAScript white-space and line-terminator characters).
- `Display` (display.dfy): the sidebar comparator and the stable sort. The sort is an
  insertion sort driven by the source's comparator, standing for the stable
  `Array.prototype.sort`. Its contract states that it is exactly the stable partition
  "pinned chats, then unpinned chats". The lemmas prove that this is a permutation and that
  the chat picked after deleting the active one heads that order.
- `Persistence` (persistence.dfy): local storage, reduced to its two keys `chat_history`
  and `current_chat_id`. This module holds what rehydration restores, what saving writes,
  and the round trip between them.
- `ChatStore` (store.dfy): the `Store` class. Its fields are the component state and its
  methods are the handlers. Sending is split at its `await` into `BeginSend` (the guard, the
  user message, `isTyping := true`) and `CompleteSend`. `CompleteSend` appends the bot message
  to the chat whose id was captured when the message was sent, then clears `isTyping`. Every
  method keeps the invariant that, while there are chats, the active id names one of them.
  Every method also keeps ids unique, given a fresh id where it needs one.
- `Scenarios` (scenarios.dfy): client methods that use only the store's contracts. They show
  a reply, a failed request, a blank prompt, a reply whose chat was deleted while it was in
  flight, the pinned-first order, delete re-selection, and a save followed by a rehydration.

Ids (`Date.now().toString()`), formatted timestamps and the relay's answer are parameters.
The answer is an `Outcome`: `Reply(text)` or `Failed`.

## Model

| member | source | states |
|---|---|---|
| `Chats.Find` | chatbox-frontend/src/App.jsx:156 | finds a chat exactly when some chat has the id; the chat found has that id, and it is the first one in the list with it (as `Array.prototype.find` returns) |
| `Chats.FreshChat` | chatbox-frontend/src/App.jsx:71-76 | the chat a "new chat" creates has the given id, the title "New Chat", no messages and no pin |
| `Chats.PrependFresh` | chatbox-frontend/src/App.jsx:77 | putting a fresh chat in front adds exactly its id and no message, keeps ids unique when the id is new, and a list of that chat alone is valid with it active |
| `Chats.FindFirst` | chatbox-frontend/src/App.jsx:156 | the chat at a position whose id no earlier chat has, and so any chat when ids are unique, is the one the lookup returns |
| `Chats.ActiveMessages` | chatbox-frontend/src/App.jsx:156 | the window shows the messages of the first chat with the active id, and none when there is no active id or it names no chat |
| `Chats.Remove` | chatbox-frontend/src/App.jsx:85 | delete's filter keeps exactly the chats whose id differs; the deleted id is gone and no other id is lost |
| `Chats.RemoveAppend` | chatbox-frontend/src/App.jsx:85 | filtering distributes over concatenation, so the survivors keep their relative order |
| `Chats.RemoveAbsent` | chatbox-frontend/src/App.jsx:85 | deleting an id no chat has leaves the list unchanged |
| `Chats.RemoveAt` | chatbox-frontend/src/App.jsx:85 | with unique ids, deleting removes exactly the one entry with that id and keeps the rest in order |
| `Chats.RemoveKeepsUnique` | chatbox-frontend/src/App.jsx:85 | deleting keeps ids unique |
| `Chats.UpdateWhere` | chatbox-frontend/src/App.jsx:102-112 | the handlers' map changes exactly the chats with the id, keeps the length and leaves every other chat as it was |
| `Chats.UpdateAbsent` | chatbox-frontend/src/App.jsx:102-112 | a map for an id no chat has changes nothing |
| `Chats.Rename` | chatbox-frontend/src/App.jsx:102-106 | only the target's title changes, and it becomes the new title verbatim (the empty string included); ids, order, messages and pins are kept |
| `Chats.TogglePin` | chatbox-frontend/src/App.jsx:108-112 | only the target's pin flips; ids, order, titles and messages are kept |
| `Chats.TogglePinTwice` | chatbox-frontend/src/App.jsx:108-112 | pinning twice restores the original list |
| `Chats.RenameAndPinAbsent` | chatbox-frontend/src/App.jsx:102-112 | rename and pin are no-ops when the id is absent |
| `Chats.DeriveTitle` | chatbox-frontend/src/App.jsx:121 | a text of at most 35 characters is its own title; a longer one gives its first 35 characters followed by "..." (38 in all) |
| `Chats.AppendUser` | chatbox-frontend/src/App.jsx:118-125 | appends the user message to the target chat only; sets the derived title exactly when that chat had no messages, and keeps every other title, id and pin |
| `Chats.AppendBot` | chatbox-frontend/src/App.jsx:133-141 | appends the bot message to the chat with the captured id only, and never changes a title, id or pin |
| `Chats.AppendToMissingChat` | chatbox-frontend/src/App.jsx:133-141 | an append for an id no chat has (a reply to a deleted chat) is dropped |
| `Chats.AppendAddsOneMessage` | chatbox-frontend/src/App.jsx:118-141 | with unique ids, an append adds exactly one message over all chats when the id exists, and none otherwise |
| `Chats.TrimStart` | chatbox-frontend/src/App.jsx:115 | the result is a suffix of the text, the removed prefix is white space, and the result does not start with white space |
| `Chats.TrimEnd` | chatbox-frontend/src/App.jsx:115 | the result is a prefix of the text, the removed suffix is white space, and the result does not end with white space |
| `Chats.Trim` | chatbox-frontend/src/App.jsx:115 | the trimmed prompt is a slice of the prompt with only white space cut from either end; it is empty exactly when the prompt is empty or white space only, and otherwise neither starts nor ends with white space |
| `Display.Compare` | chatbox-frontend/src/App.jsx:149-153 | the comparator is negative exactly for pinned-before-unpinned, positive exactly for the reverse, and zero otherwise |
| `Display.InsertUnpinned` | chatbox-frontend/src/App.jsx:149-153 | an unpinned chat is inserted after every pinned chat and before the unpinned ones |
| `Display.SortByPin` | chatbox-frontend/src/App.jsx:148-154 | the stable sort by the comparator equals the pinned chats followed by the unpinned chats, each group in list order |
| `Display.DisplayOrderIsStablePartition` | chatbox-frontend/src/App.jsx:148-154 | the display order is a permutation of the chats, puts every pinned chat before every unpinned one, and keeps the relative order within each group |
| `Display.FirstPinned` | chatbox-frontend/src/App.jsx:88 | the first pinned chat exists exactly when some chat is pinned, and it is the first of the pinned group |
| `Display.NextActive` | chatbox-frontend/src/App.jsx:88-89 | the chat chosen after deleting the active one is the first pinned chat when there is one, else the first chat |
| `Display.NextActiveHeadsDisplay` | chatbox-frontend/src/App.jsx:86-89 | the chat chosen after deleting the active one (the first pinned chat, else the first chat) exists and heads the display order |
| `Persistence.LoadedChats` | chatbox-frontend/src/App.jsx:17-26 | a saved list loads as itself; a missing, empty or unparsable record loads as an empty list; a non-empty list comes only from a saved list |
| `Persistence.Restore` | chatbox-frontend/src/App.jsx:28-47 | a non-empty loaded list becomes the chats, and the active id is the saved id if it is truthy and names a loaded chat, else the first chat's id; otherwise there is one fresh active chat; the active id always names a chat |
| `Persistence.HistoryRecord` | chatbox-frontend/src/App.jsx:54-58 | the history key is written exactly when there are chats, and it reads back as the same list |
| `Persistence.IdRecord` | chatbox-frontend/src/App.jsx:59-63 | the active-id key is written, with the id, exactly when the id is truthy |
| `Persistence.RestoreAfterSave` | chatbox-frontend/src/App.jsx:16-64 | saving then rehydrating gives back the chats, and the active id when it was saved and names one of them; an empty list comes back as one fresh chat |
| `ChatStore.BotText` | chatbox-frontend/src/App.jsx:130-141 | the bot message carries the reply text verbatim on success, and "Sorry, failed to connect to the AI server." on any failure |
| `ChatStore.SendBlocked` | chatbox-frontend/src/App.jsx:115 | the send is blocked exactly when the prompt is blank or the active id is falsy |
| `ChatStore.AppendUserKeeps` | chatbox-frontend/src/App.jsx:118-125 | appending the user message to the active chat keeps the active id naming a chat, keeps ids unique, and adds exactly one message when there was a chat |
| `ChatStore.Store.constructor` | chatbox-frontend/src/App.jsx:10-13 | initial state: no chats, no active id, not typing |
| `ChatStore.Store.DisplayOrder` | chatbox-frontend/src/App.jsx:148-154 | the sidebar order is the pinned chats followed by the unpinned chats, a permutation of the list |
| `ChatStore.Store.Rehydrate` | chatbox-frontend/src/App.jsx:16-49 | the new state is what `Restore` gives for the stored keys; afterwards there is a chat and the active id names one; unique loaded ids stay unique |
| `ChatStore.Store.Save` | chatbox-frontend/src/App.jsx:53-64 | each key is written when its value is non-empty or truthy, and removed otherwise |
| `ChatStore.Store.NewChat` | chatbox-frontend/src/App.jsx:69-79 | prepends a fresh, empty, unpinned "New Chat", makes it active, and keeps the other chats and their order and the message count; ids stay unique when the new id is fresh |
| `ChatStore.Store.Select` | chatbox-frontend/src/App.jsx:81 | the listed id becomes active and nothing else changes |
| `ChatStore.Store.Delete` | chatbox-frontend/src/App.jsx:83-100 | removes the chats with the id; a non-active delete keeps the active id; deleting the active chat selects the head of the display order, or creates one fresh active chat when none remain (always when it was the only chat); the invariant and unique ids are kept |
| `ChatStore.Store.Rename` | chatbox-frontend/src/App.jsx:102-106 | the list becomes the renamed list; the active id, the typing flag, the invariant and unique ids are kept |
| `ChatStore.Store.TogglePin` | chatbox-frontend/src/App.jsx:108-112 | the list becomes the toggled list; the active id, the typing flag, the invariant and unique ids are kept |
| `ChatStore.Store.BeginSend` | chatbox-frontend/src/App.jsx:114-128 | a blank prompt or a falsy active id changes nothing; otherwise the user message is appended to every chat with the active id, `isTyping` is set, and the active id is returned for the reply; when there were chats with unique ids, that is exactly one message more |
| `ChatStore.Store.CompleteSend` | chatbox-frontend/src/App.jsx:130-144 | appends one bot message (the reply, or "Sorry, failed to connect to the AI server.") to the chat with the captured id if it still exists, and none otherwise; other chats are unchanged and `isTyping` is false |
| `Scenarios.FreshStore` | chatbox-frontend/src/App.jsx:40-47 | rehydrating from empty storage gives one fresh chat, which is active |
| `Scenarios.PinnedFirstExample` | chatbox-frontend/src/App.jsx:148-154 | pinned A, unpinned B and pinned C, in that order, are displayed as A, C, B |
| `Scenarios.DeleteExample` | chatbox-frontend/src/App.jsx:83-100 | deleting unpinned A from A, B and pinned C leaves B, C and selects C |

## Left out

- Rendering: `ChatWindow.jsx` (markdown, syntax highlighting, clipboard, speech input, scrolling) and `Sidebar.jsx` (list rendering and click forwarding). In this revision the sidebar wires only "new chat" and "select". Delete, rename and pin are still modelled because the handlers exist in `App.jsx`.
- The relay `chatbot-backend/index.js` and the HTTP call. The request's result is the `Outcome` parameter.
- A 200 response without a `reply` field would append a message whose text is `undefined`. The model's `Reply` always carries a string.
- JSON: `JSON.stringify` followed by `JSON.parse` is taken to give back the same list. Stored text that parses to something other than an array of chats is not modelled. Unparsable text and the empty string both load as an empty list, as the source's `catch` and its truthiness test do.
- The `console.error` logging on a parse failure and on a failed request.
- `Date.now()` and `toLocaleTimeString` are parameters (fresh ids, opaque timestamps). The model does not capture the clock's uniqueness. `ChatStore.Store.NewChat` promises unique ids only when it is given an id not yet in use.
- Title lengths count Unicode characters. JavaScript's `substring` and `length` count UTF-16 code units, so texts with characters outside the Basic Multilingual Plane are cut differently.
- React itself is not modelled: scheduling, batching of the setters, `useMemo`, re-rendering and the clearing of the input box. The `await` is modelled as the `BeginSend`/`CompleteSend` split, not as concurrency. With two sends in flight, the global `isTyping` flag is cleared by whichever finishes first. Each completion is modelled on its own.
- The delete handler compares against the active id seen when the handler was created. The model reads the store's current active id.
- Selecting does not check that the id exists. Callers only pass listed ids, so `ChatStore.Store.Select` requires a listed id instead of modelling a defensive no-op. Likewise, the send guard checks only that the active id is truthy, not that it names a chat. With no chats and a truthy active id, `BeginSend` sets the typing flag and appends nothing.
