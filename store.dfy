/**
  The conversation store of the App component: the chat list, the active chat
  id and the global "typing" flag, changed only through the handlers. Sending a
  message is split at its network call into BeginSend (the guard, the user
  message and the typing flag) and CompleteSend (the bot message for the id
  captured at send time, and clearing the flag).
 */
module ChatStore {
  import opened Chats
  import opened Display
  import opened Persistence

  /** The result of the request to the relay: its reply text, or any failure. */
  datatype Outcome = Reply(text: string) | Failed

  const ConnectionError: string := "Sorry, failed to connect to the AI server."

  /** The text of the bot message appended for an outcome: the reply verbatim, or the fixed apology. */
  function BotText(o: Outcome): (r: string)
    ensures o.Reply? ==> r == o.text
    ensures o.Failed? ==> r == ConnectionError
  {
    match o
    case Reply(text) => text
    case Failed => ConnectionError
  }

  /** The send guard: a blank prompt or a falsy active id blocks the send. */
  function SendBlocked(prompt: string, currentChatId: Option<string>): (r: bool)
    ensures r <==> IsBlank(prompt) || !Truthy(currentChatId)
  {
    Trim(prompt) == [] || !Truthy(currentChatId)
  }

  /** Appending the user message to the active chat keeps the invariant, unique ids, and adds one message. */
  lemma AppendUserKeeps(s: seq<Chat>, current: Option<string>, m: Message)
    requires ActiveNamesChat(s, current) && current.Some?
    ensures ActiveNamesChat(AppendUser(s, current.value, m), current)
    ensures s != [] && UniqueIds(s) ==>
      UniqueIds(AppendUser(s, current.value, m)) && MessageCount(AppendUser(s, current.value, m)) == MessageCount(s) + 1
  {
    var r := AppendUser(s, current.value, m);
    SameIdsKeepIds(s, r);
    if UniqueIds(s) {
      AppendAddsOneMessage(s, current.value, m);
    }
  }

  class Store {
    var chats: seq<Chat>
    var currentChatId: Option<string>
    var isTyping: bool

    /** While there are chats, the active id names one of them. */
    ghost predicate Valid()
      reads this
    {
      ActiveNamesChat(chats, currentChatId)
    }

    /** The state before rehydration: no chats, no active id, not typing. */
    constructor ()
      ensures chats == [] && currentChatId == None && !isTyping
      ensures Valid()
    {
      chats := [];
      currentChatId := None;
      isTyping := false;
    }

    /** The chats in display order: pinned first, each group in list order. */
    function DisplayOrder(): (r: seq<Chat>)
      reads this
      ensures r == Pinned(chats) + Unpinned(chats)
      ensures multiset(r) == multiset(chats)
    {
      DisplayOrderIsStablePartition(chats);
      SortByPin(chats)
    }

    /** The start-up effect: load the saved list and active id, or start with one fresh chat. */
    method Rehydrate(storage: LocalStorage, freshId: string)
      modifies this
      ensures Snapshot(chats, currentChatId) == Restore(storage.chatHistory, storage.currentChatId, freshId)
      ensures chats != [] && Valid()
      ensures UniqueIds(LoadedChats(storage.chatHistory)) ==> UniqueIds(chats)
      ensures isTyping == old(isTyping)
    {
      var loaded: seq<Chat> := [];
      match storage.chatHistory {
        case Some(Serialized(c)) =>
          loaded := c;
        case _ =>
          // the key is absent, empty or unparsable: start from a clean slate
          loaded := [];
      }
      if |loaded| > 0 {
        chats := loaded;
        var savedId := storage.currentChatId;
        if Truthy(savedId) && savedId.value in Ids(loaded) {
          currentChatId := savedId;
        } else {
          currentChatId := Some(loaded[0].id);
        }
      } else {
        chats := [FreshChat(freshId)];
        currentChatId := Some(freshId);
      }
    }

    /** The save effect: write each key when its value is non-empty, remove it otherwise. */
    method Save(storage: LocalStorage)
      modifies storage
      ensures storage.chatHistory == HistoryRecord(chats)
      ensures storage.currentChatId == IdRecord(currentChatId)
    {
      if |chats| > 0 {
        storage.chatHistory := Some(Serialized(chats));
      } else {
        storage.chatHistory := None;
      }
      if Truthy(currentChatId) {
        storage.currentChatId := currentChatId;
      } else {
        storage.currentChatId := None;
      }
    }

    /** Prepends a fresh, empty, unpinned "New Chat" and makes it active. */
    method NewChat(freshId: string)
      modifies this
      ensures chats == [FreshChat(freshId)] + old(chats)
      ensures currentChatId == Some(freshId)
      ensures isTyping == old(isTyping)
      ensures Valid()
      ensures old(UniqueIds(chats)) && freshId !in old(Ids(chats)) ==> UniqueIds(chats)
      ensures MessageCount(chats) == old(MessageCount(chats))
    {
      PrependFresh(chats, freshId);
      chats := [FreshChat(freshId)] + chats;
      currentChatId := Some(freshId);
    }

    /** Makes a listed chat active. */
    method Select(id: string)
      requires id in Ids(chats)
      modifies this
      ensures currentChatId == Some(id)
      ensures chats == old(chats) && isTyping == old(isTyping)
      ensures Valid()
    {
      currentChatId := Some(id);
    }

    /**
      Removes every chat with that id. When the active chat goes, the first
      remaining pinned chat, else the first remaining chat, becomes active; when
      none remain, a fresh chat is created and made active.
     */
    method Delete(id: string, freshId: string)
      requires Valid()
      modifies this
      ensures Valid()
      ensures old(chats) != [] ==> chats != []
      ensures isTyping == old(isTyping)
      ensures old(currentChatId) != Some(id) ==>
        chats == Remove(old(chats), id) && currentChatId == old(currentChatId)
      ensures old(currentChatId) == Some(id) && Remove(old(chats), id) != [] ==>
        && chats == Remove(old(chats), id)
        && currentChatId == Some(NextActive(chats))
        && currentChatId == Some(DisplayOrder()[0].id)
      ensures old(currentChatId) == Some(id) && Remove(old(chats), id) == [] ==>
        chats == [FreshChat(freshId)] && currentChatId == Some(freshId)
      ensures old(chats) != [] && old(chats) == [old(chats)[0]] && old(chats)[0].id == id ==>
        chats == [FreshChat(freshId)] && currentChatId == Some(freshId)
      ensures old(UniqueIds(chats)) ==> UniqueIds(chats)
    {
      var remaining := Remove(chats, id);
      if UniqueIds(chats) {
        RemoveKeepsUnique(chats, id);
      }
      if currentChatId == Some(id) {
        if |remaining| > 0 {
          NextActiveHeadsDisplay(remaining);
          chats := remaining;
          currentChatId := Some(NextActive(remaining));
        } else {
          chats := [FreshChat(freshId)];
          currentChatId := Some(freshId);
        }
      } else {
        chats := remaining;
      }
    }

    /** Sets the title of the chats with that id, verbatim. */
    method Rename(id: string, title: string)
      requires Valid()
      modifies this
      ensures chats == Chats.Rename(old(chats), id, title)
      ensures currentChatId == old(currentChatId) && isTyping == old(isTyping)
      ensures Valid()
      ensures old(UniqueIds(chats)) ==> UniqueIds(chats)
    {
      var renamed := Chats.Rename(chats, id, title);
      SameIdsKeepIds(chats, renamed);
      chats := renamed;
    }

    /** Flips the pin of the chats with that id. */
    method TogglePin(id: string)
      requires Valid()
      modifies this
      ensures chats == Chats.TogglePin(old(chats), id)
      ensures currentChatId == old(currentChatId) && isTyping == old(isTyping)
      ensures Valid()
      ensures old(UniqueIds(chats)) ==> UniqueIds(chats)
    {
      var toggled := Chats.TogglePin(chats, id);
      SameIdsKeepIds(chats, toggled);
      chats := toggled;
    }

    /**
      The synchronous half of sending: unless the prompt is blank or there is no
      active id, appends the user message to the active chat, sets the typing
      flag, and returns the id the reply is for.
     */
    method BeginSend(prompt: string, timestamp: string) returns (pending: Option<string>)
      requires Valid()
      modifies this
      ensures Valid()
      ensures currentChatId == old(currentChatId)
      ensures pending.None? <==> IsBlank(prompt) || !Truthy(old(currentChatId))
      ensures pending.None? ==> chats == old(chats) && isTyping == old(isTyping)
      ensures pending.Some? ==>
        && pending == old(currentChatId)
        && chats == AppendUser(old(chats), pending.value, Message(prompt, User, timestamp))
        && isTyping
      ensures pending.Some? && old(chats) != [] && old(UniqueIds(chats)) ==>
        UniqueIds(chats) && MessageCount(chats) == old(MessageCount(chats)) + 1
    {
      if SendBlocked(prompt, currentChatId) {
        return None;
      }
      var id := currentChatId.value;
      var m := Message(prompt, User, timestamp);
      AppendUserKeeps(chats, currentChatId, m);
      chats := AppendUser(chats, id, m);
      isTyping := true;
      pending := Some(id);
    }

    /**
      The asynchronous half: appends one bot message, the reply or the fixed
      apology, to the chat that still has the captured id (none if it was
      deleted meanwhile), and clears the typing flag.
     */
    method CompleteSend(id: string, outcome: Outcome, timestamp: string)
      requires Valid()
      modifies this
      ensures chats == AppendBot(old(chats), id, Message(BotText(outcome), Bot, timestamp))
      ensures id !in old(Ids(chats)) ==> chats == old(chats)
      ensures currentChatId == old(currentChatId) && !isTyping
      ensures Valid()
      ensures old(UniqueIds(chats)) ==>
        UniqueIds(chats) && MessageCount(chats) == old(MessageCount(chats)) + (if id in old(Ids(chats)) then 1 else 0)
    {
      var m := Message(BotText(outcome), Bot, timestamp);
      var appended := AppendBot(chats, id, m);
      SameIdsKeepIds(chats, appended);
      if UniqueIds(chats) {
        AppendAddsOneMessage(chats, id, m);
      }
      if id !in Ids(chats) {
        AppendToMissingChat(chats, id, m);
      }
      chats := appended;
      isTyping := false;
    }
  }
}
