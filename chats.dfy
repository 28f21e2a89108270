/**
  The values held by the chat client's conversation store: chats, messages,
  and the list transformations the handlers in App.jsx apply to the chat list
  (filter on delete, map on rename, pin and send, the title derivation of the
  first message, and the lookups by id).
 */
module Chats {

  datatype Option<T> = None | Some(value: T)

  datatype Sender = User | Bot

  /** A message; the timestamp is the opaque formatted time string taken at append time. */
  datatype Message = Message(text: string, sender: Sender, timestamp: string)

  datatype Chat = Chat(id: string, title: string, messages: seq<Message>, isPinned: bool)

  const DefaultTitle: string := "New Chat"
  const TitleLength: nat := 35
  const Ellipsis: string := "..."

  /** The chat every "new chat" path creates: empty, unpinned, titled "New Chat". */
  function FreshChat(id: string): (c: Chat)
    ensures c.id == id && c.title == DefaultTitle && c.messages == [] && !c.isPinned
  {
    Chat(id, DefaultTitle, [], false)
  }

  function Ids(s: seq<Chat>): set<string> {
    set c | c in s :: c.id
  }

  ghost predicate UniqueIds(s: seq<Chat>) {
    forall i, j | 0 <= i < j < |s| :: s[i].id != s[j].id
  }

  /** JavaScript truthiness of an optional id: null and the empty string are falsy. */
  predicate Truthy(o: Option<string>) {
    o.Some? && o.value != ""
  }

  /** The store invariant: while there are chats, the active id names one of them. */
  ghost predicate ActiveNamesChat(s: seq<Chat>, current: Option<string>) {
    s != [] ==> current.Some? && current.value in Ids(s)
  }

  /** Two lists hold the same ids at the same positions. */
  ghost predicate SameIds(s: seq<Chat>, r: seq<Chat>) {
    |r| == |s| && forall i | 0 <= i < |s| :: r[i].id == s[i].id
  }

  lemma SameIdsKeepIds(s: seq<Chat>, r: seq<Chat>)
    requires SameIds(s, r)
    ensures Ids(r) == Ids(s)
    ensures UniqueIds(s) ==> UniqueIds(r)
  {
    forall x | x in Ids(r) ensures x in Ids(s) {
      var c :| c in r && c.id == x;
      var i :| 0 <= i < |r| && r[i] == c;
      assert s[i].id == x;
    }
    forall x | x in Ids(s) ensures x in Ids(r) {
      var c :| c in s && c.id == x;
      var i :| 0 <= i < |s| && s[i] == c;
      assert r[i].id == x;
    }
  }

  /** An id no position holds is not among the ids. */
  lemma NotInIds(s: seq<Chat>, id: string)
    requires forall i | 0 <= i < |s| :: s[i].id != id
    ensures id !in Ids(s)
  {
  }

  lemma UniqueTail(s: seq<Chat>)
    requires UniqueIds(s) && s != []
    ensures UniqueIds(s[1..]) && s[0].id !in Ids(s[1..])
  {
    forall i, j | 0 <= i < j < |s| - 1 ensures s[1..][i].id != s[1..][j].id {
      assert s[1 + i].id != s[1 + j].id;
    }
    forall i | 0 <= i < |s| - 1 ensures s[1..][i].id != s[0].id {
      assert s[1 + i].id != s[0].id;
    }
    NotInIds(s[1..], s[0].id);
  }

  // ---------------------------------------------------------------------------
  // Lookups: `find` by id and `some` by id.
  // ---------------------------------------------------------------------------

  /** The first chat whose id is `id`, if any. */
  function Find(s: seq<Chat>, id: string): (r: Option<Chat>)
    ensures r.None? <==> id !in Ids(s)
    ensures r.Some? ==> r.value in s && r.value.id == id
    ensures r.Some? ==> exists k | 0 <= k < |s| :: r.value == s[k] && forall j | 0 <= j < k :: s[j].id != id
  {
    if s == [] then None
    else if s[0].id == id then Some(s[0])
    else
      assert Ids(s) == {s[0].id} + Ids(s[1..]) by {
        assert s == [s[0]] + s[1..];
      }
      Find(s[1..], id)
  }

  /** The chat found is the first one with that id; with unique ids, the only one. */
  lemma {:induction false} FindFirst(s: seq<Chat>, k: nat)
    requires k < |s|
    requires UniqueIds(s) || forall j | 0 <= j < k :: s[j].id != s[k].id
    ensures Find(s, s[k].id) == Some(s[k])
  {
    if k > 0 {
      assert s[0].id != s[k].id;
      assert UniqueIds(s) ==> UniqueIds(s[1..]) by {
        if UniqueIds(s) {
          UniqueTail(s);
        }
      }
      assert s[1..][k - 1] == s[k];
      FindFirst(s[1..], k - 1);
    }
  }

  /** The messages shown in the chat window: those of the active chat, or none. */
  function ActiveMessages(s: seq<Chat>, current: Option<string>): (r: seq<Message>)
    ensures current.None? ==> r == []
    ensures current.Some? && current.value !in Ids(s) ==> r == []
    ensures forall k | 0 <= k < |s| && current == Some(s[k].id) && (forall j | 0 <= j < k :: s[j].id != s[k].id) ::
      r == s[k].messages
  {
    if current.None? then []
    else match Find(s, current.value)
      case Some(c) => c.messages
      case None => []
  }

  // ---------------------------------------------------------------------------
  // Delete: `filter(chat => chat.id !== id)`.
  // ---------------------------------------------------------------------------

  function Remove(s: seq<Chat>, id: string): (r: seq<Chat>)
    ensures |r| <= |s|
    ensures forall c :: c in r <==> c in s && c.id != id
    ensures Ids(r) == Ids(s) - {id}
  {
    if s == [] then []
    else if s[0].id == id then Remove(s[1..], id)
    else [s[0]] + Remove(s[1..], id)
  }

  /** Filtering distributes over concatenation: what survives keeps its order. */
  lemma {:induction false} RemoveAppend(a: seq<Chat>, b: seq<Chat>, id: string)
    ensures Remove(a + b, id) == Remove(a, id) + Remove(b, id)
  {
    if a == [] {
      assert a + b == b;
    } else {
      assert (a + b)[1..] == a[1..] + b;
      RemoveAppend(a[1..], b, id);
    }
  }

  /** Removing an id nobody has leaves the list as it was. */
  lemma {:induction false} RemoveAbsent(s: seq<Chat>, id: string)
    requires id !in Ids(s)
    ensures Remove(s, id) == s
  {
    if s != [] {
      assert Ids(s[1..]) <= Ids(s);
      RemoveAbsent(s[1..], id);
    }
  }

  /** With unique ids, deleting the id at position k removes exactly that entry. */
  lemma {:induction false} RemoveAt(s: seq<Chat>, k: nat)
    requires UniqueIds(s) && k < |s|
    ensures Remove(s, s[k].id) == s[..k] + s[k + 1..]
  {
    UniqueTail(s);
    if k == 0 {
      RemoveAbsent(s[1..], s[0].id);
    } else {
      assert s[0].id != s[k].id;
      RemoveAt(s[1..], k - 1);
      assert s[1..][k - 1] == s[k];
      assert s[..k] == [s[0]] + s[1..][..k - 1];
      assert s[k + 1..] == s[1..][k..];
    }
  }

  /** Deleting keeps the remaining ids unique. */
  lemma {:induction false} RemoveKeepsUnique(s: seq<Chat>, id: string)
    requires UniqueIds(s)
    ensures UniqueIds(Remove(s, id))
  {
    if s != [] {
      UniqueTail(s);
      RemoveKeepsUnique(s[1..], id);
      var t := Remove(s[1..], id);
      if s[0].id != id {
        var r := [s[0]] + t;
        forall i, j | 0 <= i < j < |r| ensures r[i].id != r[j].id {
          if i == 0 {
            assert r[j] in t;
          } else {
            assert r[i] == t[i - 1] && r[j] == t[j - 1];
          }
        }
      }
    }
  }

  // ---------------------------------------------------------------------------
  // Rename, pin and append: `map(chat => chat.id === id ? {...} : chat)`.
  // ---------------------------------------------------------------------------

  /** The common shape of the handlers' `map`: apply `f` to every chat with that id. */
  function UpdateWhere(s: seq<Chat>, id: string, f: Chat -> Chat): (r: seq<Chat>)
    ensures |r| == |s|
    ensures forall i | 0 <= i < |s| :: r[i] == if s[i].id == id then f(s[i]) else s[i]
  {
    if s == [] then []
    else [if s[0].id == id then f(s[0]) else s[0]] + UpdateWhere(s[1..], id, f)
  }

  /** An update of an id nobody has changes nothing. */
  lemma UpdateAbsent(s: seq<Chat>, id: string, f: Chat -> Chat)
    requires id !in Ids(s)
    ensures UpdateWhere(s, id, f) == s
  {
    var r := UpdateWhere(s, id, f);
    forall i | 0 <= i < |s| ensures r[i] == s[i] {
      assert s[i] in s;
    }
  }

  function Rename(s: seq<Chat>, id: string, title: string): (r: seq<Chat>)
    ensures SameIds(s, r)
    ensures forall i | 0 <= i < |s| ::
      && r[i].messages == s[i].messages
      && r[i].isPinned == s[i].isPinned
      && r[i].title == if s[i].id == id then title else s[i].title
  {
    UpdateWhere(s, id, (c: Chat) => c.(title := title))
  }

  function TogglePin(s: seq<Chat>, id: string): (r: seq<Chat>)
    ensures SameIds(s, r)
    ensures forall i | 0 <= i < |s| ::
      && r[i].messages == s[i].messages
      && r[i].title == s[i].title
      && r[i].isPinned == if s[i].id == id then !s[i].isPinned else s[i].isPinned
  {
    UpdateWhere(s, id, (c: Chat) => c.(isPinned := !c.isPinned))
  }

  /** Pinning twice restores the list. */
  lemma TogglePinTwice(s: seq<Chat>, id: string)
    ensures TogglePin(TogglePin(s, id), id) == s
  {
    var t := TogglePin(s, id);
    var r := TogglePin(t, id);
    forall i | 0 <= i < |s| ensures r[i] == s[i] {
      assert r[i].isPinned == s[i].isPinned;
    }
  }

  /** Rename and pin touch nothing when the id is absent. */
  lemma RenameAndPinAbsent(s: seq<Chat>, id: string, title: string)
    requires id !in Ids(s)
    ensures Rename(s, id, title) == s
    ensures TogglePin(s, id) == s
  {
    UpdateAbsent(s, id, (c: Chat) => c.(title := title));
    UpdateAbsent(s, id, (c: Chat) => c.(isPinned := !c.isPinned));
  }

  /**
    The title of a chat whose first message is `text`: its first 35 characters,
    followed by an ellipsis exactly when the text is longer than that.
   */
  function DeriveTitle(text: string): (t: string)
    ensures |text| <= TitleLength ==> t == text
    ensures |text| > TitleLength ==> |t| == TitleLength + |Ellipsis|
    ensures |text| > TitleLength ==> t[..TitleLength] == text[..TitleLength] && t[TitleLength..] == Ellipsis
  {
    (if |text| <= TitleLength then text else text[..TitleLength])
      + (if |text| > TitleLength then Ellipsis else "")
  }

  /** The user-message append: also sets the title when the chat had no messages. */
  function AppendUser(s: seq<Chat>, id: string, m: Message): (r: seq<Chat>)
    ensures SameIds(s, r)
    ensures forall i | 0 <= i < |s| ::
      && r[i].isPinned == s[i].isPinned
      && r[i].messages == (if s[i].id == id then s[i].messages + [m] else s[i].messages)
      && r[i].title == (if s[i].id == id && s[i].messages == [] then DeriveTitle(m.text) else s[i].title)
  {
    UpdateWhere(s, id, (c: Chat) => c.(
      title := if |c.messages| == 0 then DeriveTitle(m.text) else c.title,
      messages := c.messages + [m]))
  }

  /** The bot-message append: never touches a title. */
  function AppendBot(s: seq<Chat>, id: string, m: Message): (r: seq<Chat>)
    ensures SameIds(s, r)
    ensures forall i | 0 <= i < |s| ::
      && r[i].isPinned == s[i].isPinned
      && r[i].title == s[i].title
      && r[i].messages == (if s[i].id == id then s[i].messages + [m] else s[i].messages)
  {
    UpdateWhere(s, id, (c: Chat) => c.(messages := c.messages + [m]))
  }

  /** A reply for a chat that no longer exists is dropped. */
  lemma AppendToMissingChat(s: seq<Chat>, id: string, m: Message)
    requires id !in Ids(s)
    ensures AppendBot(s, id, m) == s
    ensures AppendUser(s, id, m) == s
  {
    UpdateAbsent(s, id, (c: Chat) => c.(messages := c.messages + [m]));
    UpdateAbsent(s, id, (c: Chat) => c.(
      title := if |c.messages| == 0 then DeriveTitle(m.text) else c.title,
      messages := c.messages + [m]));
  }

  /** The number of messages over all chats. */
  function MessageCount(s: seq<Chat>): nat {
    if s == [] then 0 else |s[0].messages| + MessageCount(s[1..])
  }

  /**
    Putting a fresh chat in front adds its id, no message, and keeps the ids
    unique when the id is new; a list of that chat alone is valid with it active.
   */
  lemma {:induction false} PrependFresh(s: seq<Chat>, id: string)
    ensures Ids([FreshChat(id)] + s) == Ids(s) + {id}
    ensures MessageCount([FreshChat(id)] + s) == MessageCount(s)
    ensures UniqueIds(s) && id !in Ids(s) ==> UniqueIds([FreshChat(id)] + s)
    ensures UniqueIds([FreshChat(id)]) && ActiveNamesChat([FreshChat(id)], Some(id))
  {
    var r := [FreshChat(id)] + s;
    assert r[1..] == s;
    assert r[0] in r;
    assert Ids(r) == {id} + Ids(s) by {
      forall c | c in r ensures c == r[0] || c in s {
      }
    }
    if UniqueIds(s) && id !in Ids(s) {
      forall i, j | 0 <= i < j < |r| ensures r[i].id != r[j].id {
        if i == 0 {
          assert r[j] == s[j - 1];
        } else {
          assert r[i] == s[i - 1] && r[j] == s[j - 1];
        }
      }
    }
    assert [FreshChat(id)][0] in [FreshChat(id)];
  }

  /**
    Appending to a list whose ids are unique adds exactly one message over all chats
    when the id is present, and none when it is absent.
   */
  lemma {:induction false} AppendAddsOneMessage(s: seq<Chat>, id: string, m: Message)
    requires UniqueIds(s)
    ensures MessageCount(AppendBot(s, id, m)) == MessageCount(s) + (if id in Ids(s) then 1 else 0)
    ensures MessageCount(AppendUser(s, id, m)) == MessageCount(s) + (if id in Ids(s) then 1 else 0)
  {
    if s != [] {
      var b, u := AppendBot(s, id, m), AppendUser(s, id, m);
      assert AppendBot(s[1..], id, m) == b[1..];
      assert AppendUser(s[1..], id, m) == u[1..];
      UniqueTail(s);
      AppendAddsOneMessage(s[1..], id, m);
      assert Ids(s) == {s[0].id} + Ids(s[1..]) by {
        assert s == [s[0]] + s[1..];
      }
    }
  }

  // ---------------------------------------------------------------------------
  // The send guard: `!promptText || promptText.trim() === ''`.
  // ---------------------------------------------------------------------------

  /** The characters String.prototype.trim strips: ECMAScript WhiteSpace and LineTerminator. */
  predicate IsWhiteSpace(c: char) {
    || c == '\t' || c == '\n' || c == '\U{000B}' || c == '\U{000C}' || c == '\r' || c == ' '
    || c == '\U{00A0}' || c == '\U{1680}' || ('\U{2000}' <= c <= '\U{200A}')
    || c == '\U{2028}' || c == '\U{2029}' || c == '\U{202F}' || c == '\U{205F}'
    || c == '\U{3000}' || c == '\U{FEFF}'
  }

  /** Empty, or made of white space only. */
  predicate IsBlank(s: string) {
    forall i | 0 <= i < |s| :: IsWhiteSpace(s[i])
  }

  function TrimStart(s: string): (r: string)
    ensures |r| <= |s| && r == s[|s| - |r|..]
    ensures r == [] || !IsWhiteSpace(r[0])
    ensures forall i | 0 <= i < |s| - |r| :: IsWhiteSpace(s[i])
  {
    if s != [] && IsWhiteSpace(s[0]) then TrimStart(s[1..]) else s
  }

  function TrimEnd(s: string): (r: string)
    ensures |r| <= |s| && r == s[..|r|]
    ensures r == [] || !IsWhiteSpace(r[|r| - 1])
    ensures forall i | |r| <= i < |s| :: IsWhiteSpace(s[i])
  {
    if s != [] && IsWhiteSpace(s[|s| - 1]) then TrimEnd(s[..|s| - 1]) else s
  }

  /** `trim()`: empty exactly for a blank text, otherwise free of white space at both ends. */
  function Trim(s: string): (r: string)
    ensures |r| <= |s|
    ensures r == [] <==> IsBlank(s)
    ensures r != [] ==> !IsWhiteSpace(r[0]) && !IsWhiteSpace(r[|r| - 1])
    ensures exists a, b | 0 <= a <= b <= |s| :: r == s[a..b] && IsBlank(s[..a]) && IsBlank(s[b..])
  {
    var t := TrimStart(s);
    var r := TrimEnd(t);
    assert t != [] ==> !IsWhiteSpace(t[0]) && t[0] == s[|s| - |t|];
    assert r != [] ==> r[0] == t[0];
    assert t != [] ==> r != [];
    assert t == [] ==> IsBlank(s);
    var a := |s| - |t|;
    assert r == s[a..a + |r|];
    assert IsBlank(s[..a]) && IsBlank(s[a + |r|..]);
    r
  }
}
