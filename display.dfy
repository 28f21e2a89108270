/**
  The sidebar's display order: a copy of the chat list sorted with a comparator
  that puts pinned chats before unpinned ones and calls every other pair equal.
  Array.prototype.sort is stable, so the sort is modelled by a stable insertion
  sort driven by that comparator; the lemmas show that the result is the
  stable partition "pinned chats, then unpinned chats".
 */
module Display {
  import opened Chats

  /** The comparator: negative puts `a` first, positive puts `b` first, zero keeps their order. */
  function Compare(a: Chat, b: Chat): (r: int)
    ensures r < 0 <==> a.isPinned && !b.isPinned
    ensures r > 0 <==> !a.isPinned && b.isPinned
    ensures -1 <= r <= 1
  {
    if a.isPinned && !b.isPinned then -1
    else if !a.isPinned && b.isPinned then 1
    else 0
  }

  /** Inserts `x`, which came before every element of `s`, ahead of the first element it does not follow. */
  function Insert(x: Chat, s: seq<Chat>): seq<Chat> {
    if s == [] || Compare(x, s[0]) <= 0 then [x] + s
    else [s[0]] + Insert(x, s[1..])
  }

  /**
    The stable sort of the list by the comparator. It yields the pinned chats,
    then the unpinned chats, each group in list order.
   */
  function SortByPin(s: seq<Chat>): (r: seq<Chat>)
    ensures r == Pinned(s) + Unpinned(s)
  {
    if s == [] then []
    else
      var rest := SortByPin(s[1..]);
      var p, u := Pinned(s[1..]), Unpinned(s[1..]);
      assert rest == p + u;
      if s[0].isPinned then
        assert rest != [] ==> Compare(s[0], rest[0]) <= 0;
        Insert(s[0], rest)
      else
        InsertUnpinned(s[0], p, u);
        Insert(s[0], rest)
  }

  function Pinned(s: seq<Chat>): (r: seq<Chat>)
    ensures forall c | c in r :: c.isPinned
    ensures |r| <= |s|
  {
    if s == [] then []
    else if s[0].isPinned then [s[0]] + Pinned(s[1..])
    else Pinned(s[1..])
  }

  function Unpinned(s: seq<Chat>): (r: seq<Chat>)
    ensures forall c | c in r :: !c.isPinned
    ensures |r| <= |s|
  {
    if s == [] then []
    else if !s[0].isPinned then [s[0]] + Unpinned(s[1..])
    else Unpinned(s[1..])
  }

  /** An unpinned chat goes after every pinned chat and before the first unpinned one. */
  lemma {:induction false} InsertUnpinned(x: Chat, p: seq<Chat>, u: seq<Chat>)
    requires !x.isPinned
    requires forall c | c in p :: c.isPinned
    requires forall c | c in u :: !c.isPinned
    ensures Insert(x, p + u) == p + [x] + u
  {
    if p == [] {
      assert p + u == u;
    } else {
      assert (p + u)[0] == p[0];
      assert (p + u)[1..] == p[1..] + u;
      InsertUnpinned(x, p[1..], u);
    }
  }

  lemma {:induction false} PartitionCount(s: seq<Chat>)
    ensures multiset(Pinned(s)) + multiset(Unpinned(s)) == multiset(s)
  {
    if s != [] {
      var t := s[1..];
      PartitionCount(t);
      assert s == [s[0]] + t;
      assert multiset(s) == multiset{s[0]} + multiset(t);
      if s[0].isPinned {
        assert multiset(Pinned(s)) == multiset{s[0]} + multiset(Pinned(t));
      } else {
        assert multiset(Unpinned(s)) == multiset{s[0]} + multiset(Unpinned(t));
      }
    }
  }

  lemma {:induction false} PinnedOfPartition(s: seq<Chat>)
    ensures Pinned(Pinned(s) + Unpinned(s)) == Pinned(s)
    ensures Unpinned(Pinned(s) + Unpinned(s)) == Unpinned(s)
  {
    var p, u := Pinned(s), Unpinned(s);
    AllPinned(p);
    AllUnpinned(u);
    FilterAppend(p, u);
  }

  lemma {:induction false} AllPinned(s: seq<Chat>)
    requires forall c | c in s :: c.isPinned
    ensures Pinned(s) == s && Unpinned(s) == []
  {
    if s != [] {
      AllPinned(s[1..]);
    }
  }

  lemma {:induction false} AllUnpinned(s: seq<Chat>)
    requires forall c | c in s :: !c.isPinned
    ensures Unpinned(s) == s && Pinned(s) == []
  {
    if s != [] {
      AllUnpinned(s[1..]);
    }
  }

  lemma {:induction false} FilterAppend(a: seq<Chat>, b: seq<Chat>)
    ensures Pinned(a + b) == Pinned(a) + Pinned(b)
    ensures Unpinned(a + b) == Unpinned(a) + Unpinned(b)
  {
    if a == [] {
      assert a + b == b;
    } else {
      var ab := a + b;
      assert ab[0] == a[0];
      assert ab[1..] == a[1..] + b;
      FilterAppend(a[1..], b);
      if a[0].isPinned {
        assert Pinned(ab) == [a[0]] + Pinned(a[1..] + b);
        assert Unpinned(ab) == Unpinned(a[1..] + b);
      } else {
        assert Pinned(ab) == Pinned(a[1..] + b);
        assert Unpinned(ab) == [a[0]] + Unpinned(a[1..] + b);
      }
    }
  }

  /**
    The display order: a permutation of the chats, every pinned chat before every
    unpinned one, and each group in the order the list holds it.
   */
  lemma DisplayOrderIsStablePartition(s: seq<Chat>)
    ensures multiset(SortByPin(s)) == multiset(s)
    ensures forall i, j | 0 <= i < j < |SortByPin(s)| :: SortByPin(s)[j].isPinned ==> SortByPin(s)[i].isPinned
    ensures Pinned(SortByPin(s)) == Pinned(s)
    ensures Unpinned(SortByPin(s)) == Unpinned(s)
  {
    PartitionCount(s);
    assert multiset(Pinned(s) + Unpinned(s)) == multiset(Pinned(s)) + multiset(Unpinned(s));
    PinnedOfPartition(s);
    var p, u := Pinned(s), Unpinned(s);
    var r := p + u;
    forall j | |p| <= j < |r| ensures !r[j].isPinned {
      assert r[j] == u[j - |p|];
    }
    forall i | 0 <= i < |p| ensures r[i].isPinned {
      assert r[i] == p[i];
    }
  }

  /** `find(c => c.isPinned)`: the first pinned chat, if any. */
  function FirstPinned(s: seq<Chat>): (r: Option<Chat>)
    ensures r.None? <==> Pinned(s) == []
    ensures r.Some? ==> r.value == Pinned(s)[0]
  {
    if s == [] then None
    else if s[0].isPinned then Some(s[0])
    else FirstPinned(s[1..])
  }

  /** The chat made active after the active one is deleted: the first pinned one, else the first one. */
  function NextActive(s: seq<Chat>): (r: string)
    requires s != []
    ensures Pinned(s) != [] ==> r == Pinned(s)[0].id
    ensures Pinned(s) == [] ==> r == s[0].id
  {
    match FirstPinned(s)
    case Some(c) => c.id
    case None => s[0].id
  }

  /** The chat chosen after deleting the active one heads the display order. */
  lemma NextActiveHeadsDisplay(s: seq<Chat>)
    requires s != []
    ensures SortByPin(s) != []
    ensures NextActive(s) == SortByPin(s)[0].id
    ensures NextActive(s) in Ids(s)
  {
    PartitionCount(s);
    assert multiset(Pinned(s) + Unpinned(s)) == multiset(Pinned(s)) + multiset(Unpinned(s));
    assert s[0] in multiset(s);
    if Pinned(s) == [] {
      AllUnpinnedWhenNoPinned(s);
    } else {
      assert Pinned(s)[0] in multiset(Pinned(s) + Unpinned(s));
    }
  }

  lemma {:induction false} AllUnpinnedWhenNoPinned(s: seq<Chat>)
    requires Pinned(s) == []
    ensures Unpinned(s) == s
  {
    if s != [] {
      AllUnpinnedWhenNoPinned(s[1..]);
    }
  }
}
