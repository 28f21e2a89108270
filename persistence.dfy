/**
  Saving the chat list and the active id to the browser's local storage, and
  rehydrating them at start-up. Local storage is modelled by the two keys the
  client uses, `chat_history` and `current_chat_id`; JSON encoding is modelled
  as exact, so a saved list reads back as the same list.
 */
module Persistence {
  import opened Chats

  /**
    What the `chat_history` key holds: the JSON text of a chat list, or text
    that does not parse as one (an empty string included).
   */
  datatype Entry = Serialized(chats: seq<Chat>) | Unparsable(text: string)

  /** Local storage; a field that is None is a key that is absent. */
  class LocalStorage {
    var chatHistory: Option<Entry>
    var currentChatId: Option<string>

    constructor (history: Option<Entry>, current: Option<string>)
      ensures chatHistory == history && currentChatId == current
    {
      chatHistory := history;
      currentChatId := current;
    }
  }

  /** The two pieces of store state that are saved and restored. */
  datatype Snapshot = Snapshot(chats: seq<Chat>, currentChatId: Option<string>)

  /** The list read from `chat_history`: empty when the key is absent, empty or unparsable. */
  function LoadedChats(history: Option<Entry>): (r: seq<Chat>)
    ensures history.Some? && history.value.Serialized? ==> r == history.value.chats
    ensures r != [] ==> history == Some(Serialized(r))
    ensures history.None? || history.value.Unparsable? ==> r == []
  {
    match history
    case Some(Serialized(c)) => c
    case _ => []
  }

  /**
    The state rehydration produces: a non-empty loaded list with the saved id
    when it names a loaded chat, else the first chat's id; otherwise one fresh
    active chat.
   */
  function Restore(history: Option<Entry>, savedId: Option<string>, freshId: string): (r: Snapshot)
    ensures r.chats != [] && ActiveNamesChat(r.chats, r.currentChatId)
    ensures LoadedChats(history) != [] ==> r.chats == LoadedChats(history)
    ensures LoadedChats(history) != [] && Truthy(savedId) && savedId.value in Ids(r.chats) ==>
      r.currentChatId == savedId
    ensures LoadedChats(history) != [] && !(Truthy(savedId) && savedId.value in Ids(r.chats)) ==>
      r.currentChatId == Some(r.chats[0].id)
    ensures LoadedChats(history) == [] ==> r == Snapshot([FreshChat(freshId)], Some(freshId))
  {
    var loaded := LoadedChats(history);
    if |loaded| > 0 then
      Snapshot(loaded,
        if Truthy(savedId) && savedId.value in Ids(loaded) then savedId else Some(loaded[0].id))
    else
      Snapshot([FreshChat(freshId)], Some(freshId))
  }

  /** What the save effect leaves under `chat_history`: the list when it is non-empty, else nothing. */
  function HistoryRecord(chats: seq<Chat>): (r: Option<Entry>)
    ensures r.None? <==> chats == []
    ensures LoadedChats(r) == chats
  {
    if |chats| > 0 then Some(Serialized(chats)) else None
  }

  /** What the save effect leaves under `current_chat_id`: the id when it is truthy, else nothing. */
  function IdRecord(current: Option<string>): (r: Option<string>)
    ensures r.None? <==> !Truthy(current)
    ensures r.Some? ==> r == current
  {
    if Truthy(current) then current else None
  }

  /**
    Saving and rehydrating reproduces the chats, and the active id whenever it
    was saved and names one of them; an empty list comes back as one fresh chat.
   */
  lemma RestoreAfterSave(s: Snapshot, freshId: string)
    ensures s.chats != [] ==> Restore(HistoryRecord(s.chats), IdRecord(s.currentChatId), freshId).chats == s.chats
    ensures s.chats != [] && Truthy(s.currentChatId) && s.currentChatId.value in Ids(s.chats) ==>
      Restore(HistoryRecord(s.chats), IdRecord(s.currentChatId), freshId) == s
    ensures s.chats == [] ==>
      Restore(HistoryRecord(s.chats), IdRecord(s.currentChatId), freshId) == Snapshot([FreshChat(freshId)], Some(freshId))
  {
  }
}
