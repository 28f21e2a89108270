/**
  Client methods that drive the store through the behaviours the chat client
  is meant to have, using only the contracts of the store's methods.
 */
module Scenarios {
  import opened Chats
  import opened Display
  import opened Persistence
  import opened ChatStore

  /** Starts from empty storage: one fresh chat with id `id`, active. */
  method FreshStore(id: string) returns (store: Store)
    ensures fresh(store)
    ensures store.chats == [FreshChat(id)] && store.currentChatId == Some(id) && !store.isTyping
    ensures store.Valid()
  {
    var storage := new LocalStorage(None, None);
    store := new Store();
    store.Rehydrate(storage, id);
  }

  /** A successful exchange on a fresh chat titles it after the prompt and stores both messages. */
  method SendAndReply() {
    var store := FreshStore("t1");
    assert !IsWhiteSpace("hello"[0]);
    var pending := store.BeginSend("hello", "10:00 AM");
    assert pending == Some("t1");
    assert store.isTyping;
    var question := Message("hello", User, "10:00 AM");
    assert DeriveTitle("hello") == "hello";
    assert |store.chats| == 1 && store.chats[0].id == "t1" && !store.chats[0].isPinned;
    assert store.chats[0].title == "hello" && store.chats[0].messages == [question];
    assert store.chats == [Chat("t1", "hello", [question], false)];
    store.CompleteSend(pending.value, Reply("hi there"), "10:01 AM");
    assert |store.chats| == 1 && store.chats[0].id == "t1" && !store.chats[0].isPinned;
    assert store.chats[0].title == "hello";
    assert store.chats[0].messages == [question, Message("hi there", Bot, "10:01 AM")];
    assert store.chats == [Chat("t1", "hello",
      [Message("hello", User, "10:00 AM"), Message("hi there", Bot, "10:01 AM")], false)];
    assert !store.isTyping;
  }

  /** A failed request appends the fixed apology instead of a reply. */
  method SendAndFail() {
    var store := FreshStore("t1");
    assert !IsWhiteSpace("hello"[0]);
    var pending := store.BeginSend("hello", "10:00 AM");
    store.CompleteSend(pending.value, Failed, "10:01 AM");
    assert store.chats[0].messages ==
      [Message("hello", User, "10:00 AM"), Message(ConnectionError, Bot, "10:01 AM")];
    assert !store.isTyping;
  }

  /** A blank prompt changes nothing. */
  method BlankPrompt() {
    var store := FreshStore("t1");
    assert IsBlank(" \t\n");
    var pending := store.BeginSend(" \t\n", "10:00 AM");
    assert pending == None;
    assert store.chats == [FreshChat("t1")] && !store.isTyping;
  }

  /** A reply whose chat was deleted while it was in flight is dropped. */
  method DeleteWhileInFlight() {
    var store := FreshStore("t1");
    assert !IsWhiteSpace("hello"[0]);
    var pending := store.BeginSend("hello", "10:00 AM");
    store.Delete("t1", "t2");
    assert store.chats == [FreshChat("t2")] && store.currentChatId == Some("t2");
    store.CompleteSend(pending.value, Reply("hi there"), "10:01 AM");
    assert store.chats == [FreshChat("t2")];
    assert !store.isTyping;
  }

  /** Pinned A, unpinned B, pinned C, in that order, are displayed as A, C, B. */
  lemma {:induction false} PinnedFirstExample(a: Chat, b: Chat, c: Chat)
    requires a.isPinned && !b.isPinned && c.isPinned
    ensures SortByPin([a, b, c]) == [a, c, b]
  {
    assert [a, b, c][1..] == [b, c] && [b, c][1..] == [c] && [c][1..] == [];
    assert Pinned([c]) == [c] && Unpinned([c]) == [];
    assert Pinned([b, c]) == [c] && Unpinned([b, c]) == [b];
  }

  /** The sidebar shows the store's chats in that order. */
  method PinnedFirst() {
    var a := Chat("a", "A", [], true);
    var b := Chat("b", "B", [], false);
    var c := Chat("c", "C", [], true);
    var storage := new LocalStorage(Some(Serialized([a, b, c])), Some("b"));
    var store := new Store();
    store.Rehydrate(storage, "fresh");
    assert store.chats == [a, b, c] && store.currentChatId == Some("b");
    PinnedFirstExample(a, b, c);
    assert store.DisplayOrder() == [a, c, b];
  }

  /** Deleting unpinned A from A, B, pinned C leaves B, C, and C is chosen next. */
  lemma {:induction false} DeleteExample(a: Chat, b: Chat, c: Chat)
    requires a.id == "a" && b.id == "b" && c.id == "c" && !b.isPinned && c.isPinned
    ensures Remove([a, b, c], "a") == [b, c]
    ensures NextActive([b, c]) == "c"
  {
    assert [a, b, c][1..] == [b, c] && [b, c][1..] == [c] && [c][1..] == [];
    assert Pinned([c]) == [c];
    assert Pinned([b, c]) == [c];
  }

  /** Deleting the active chat hands the selection to the first pinned chat left. */
  method DeleteActivePrefersPinned() {
    var a := Chat("a", "A", [], false);
    var b := Chat("b", "B", [], false);
    var c := Chat("c", "C", [], true);
    var storage := new LocalStorage(Some(Serialized([a, b, c])), Some("a"));
    var store := new Store();
    store.Rehydrate(storage, "fresh");
    assert store.chats == [a, b, c] && store.currentChatId == Some("a");
    DeleteExample(a, b, c);
    store.Delete("a", "fresh");
    assert store.currentChatId == Some("c");
  }

  /** What is saved is what a later start-up restores. */
  method SaveThenRehydrate() {
    var store := FreshStore("t1");
    store.NewChat("t2");
    store.TogglePin("t1");
    store.Select("t1");
    var storage := new LocalStorage(None, None);
    store.Save(storage);
    var restored := new Store();
    restored.Rehydrate(storage, "t3");
    assert restored.chats == store.chats;
    assert restored.currentChatId == Some("t1");
  }
}
