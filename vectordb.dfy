/** The in-memory conversation context store of src/services/ai/vectordb.ts:
    `storeUserContext` appends one entry to the module-level array, and
    `getUserContext` keeps a chat's entries, newest first, takes the first
    `limit || 5` of them and formats them as a history block. The clock
    (`Date.now()`) is an input. */
module VectorDb {
  import opened Strings

  datatype Entry = Entry(
    userId: string,
    senderId: Option<string>,
    senderName: Option<string>,
    userMessage: string,
    botResponse: string,
    timestamp: int)

  datatype Sender = Sender(id: string, name: Option<string>)

  predicate IsGroup(jid: string) {
    EndsWith(jid, "@g.us")
  }

  /** The entry `storeUserContext` builds: the sender is recorded for groups only. */
  function NewEntry(userId: string, userMessage: string, botResponse: string, sender: Option<Sender>, now: int): (e: Entry)
    ensures e.userId == userId && e.userMessage == userMessage && e.botResponse == botResponse && e.timestamp == now
    ensures IsGroup(userId) && sender.Some? ==> e.senderId == Some(sender.value.id) && e.senderName == sender.value.name
    ensures !(IsGroup(userId) && sender.Some?) ==> e.senderId.None? && e.senderName.None?
  {
    if IsGroup(userId) && sender.Some? then Entry(userId, Some(sender.value.id), sender.value.name, userMessage, botResponse, now)
    else Entry(userId, None, None, userMessage, botResponse, now)
  }

  /** `.filter((entry) => entry.userId === userId)`. */
  function OfChat(db: seq<Entry>, userId: string): (r: seq<Entry>)
    ensures |r| <= |db|
    ensures forall i :: 0 <= i < |r| ==> r[i].userId == userId
    ensures forall e :: e in r <==> e in db && e.userId == userId
    decreases |db|
  {
    if |db| == 0 then []
    else
      var rest := OfChat(db[1..], userId);
      assert db == [db[0]] + db[1..];
      if db[0].userId == userId then [db[0]] + rest else rest
  }

  /** Newest first: timestamps never increase along the sequence. */
  predicate NewestFirst(s: seq<Entry>) {
    forall i, j :: 0 <= i < j < |s| ==> s[i].timestamp >= s[j].timestamp
  }

  /** Insert e before the first entry that is not newer than it. */
  function Insert(e: Entry, s: seq<Entry>): (r: seq<Entry>)
    ensures |r| == |s| + 1
    ensures multiset(r) == multiset(s) + multiset{e}
  {
    if |s| == 0 || s[0].timestamp <= e.timestamp then [e] + s
    else
      assert s == [s[0]] + s[1..];
      [s[0]] + Insert(e, s[1..])
  }

  /** Inserting into a newest-first sequence keeps it newest first. */
  lemma {:induction false} InsertNewestFirst(e: Entry, s: seq<Entry>)
    requires NewestFirst(s)
    ensures NewestFirst(Insert(e, s))
    ensures |s| > 0 ==> Insert(e, s)[0] == (if s[0].timestamp <= e.timestamp then e else s[0])
    decreases |s|
  {
    if |s| > 0 && s[0].timestamp > e.timestamp {
      InsertNewestFirst(e, s[1..]);
      var t := Insert(e, s[1..]);
      var r := [s[0]] + t;
      forall i, j | 0 <= i < j < |r| ensures r[i].timestamp >= r[j].timestamp {
        if i == 0 {
          assert r[j] in multiset(t) by { assert r[j] == t[j - 1]; }
          assert r[j] in multiset(s[1..]) + multiset{e};
          if r[j] != e {
            var k :| 0 <= k < |s[1..]| && s[1..][k] == r[j];
            assert s[k + 1] == r[j];
          }
        } else {
          assert r[i] == t[i - 1] && r[j] == t[j - 1];
        }
      }
    }
  }

  /** `.sort((a, b) => b.timestamp - a.timestamp)`, written as an insertion
      sort that puts each entry ahead of later entries with the same timestamp. */
  function SortNewestFirst(s: seq<Entry>): (r: seq<Entry>)
    ensures |r| == |s| && multiset(r) == multiset(s)
    ensures NewestFirst(r)
  {
    if |s| == 0 then []
    else
      var rest := SortNewestFirst(s[1..]);
      InsertNewestFirst(s[0], rest);
      assert s == [s[0]] + s[1..];
      Insert(s[0], rest)
  }

  /** The end index `slice(0, limit || 5)` uses on a sequence of length n. */
  function SliceEnd(limit: Option<int>, n: nat): (k: nat)
    ensures k <= n
    ensures (limit.None? || limit.value == 0) ==> k == if n < 5 then n else 5
    ensures limit.Some? && limit.value > 0 ==> k == if n < limit.value then n else limit.value
    ensures limit.Some? && limit.value < 0 ==> k == if n + limit.value < 0 then 0 else n + limit.value
  {
    var end := if limit.None? || limit.value == 0 then 5 else limit.value;
    if end >= 0 then (if end < n then end else n)
    else if n + end < 0 then 0 else n + end
  }

  /** The entries `getUserContext` formats. */
  function Selected(db: seq<Entry>, userId: string, limit: Option<int>): (r: seq<Entry>)
    ensures forall i :: 0 <= i < |r| ==> r[i].userId == userId
    ensures NewestFirst(r)
    ensures |r| == SliceEnd(limit, |OfChat(db, userId)|)
    ensures multiset(r) <= multiset(OfChat(db, userId))
    ensures forall x, y :: x in multiset(OfChat(db, userId)) - multiset(r) && y in r ==> x.timestamp <= y.timestamp
  {
    var chat := OfChat(db, userId);
    var sorted := SortNewestFirst(chat);
    SameChat(chat, sorted, userId);
    NewestPrefix(sorted, SliceEnd(limit, |sorted|));
    sorted[..SliceEnd(limit, |sorted|)]
  }

  /** The first k entries of a newest-first sequence are the k most recent:
      every entry after them is no newer than any of them. */
  lemma NewestPrefix(s: seq<Entry>, k: nat)
    requires NewestFirst(s) && k <= |s|
    ensures multiset(s[..k]) <= multiset(s)
    ensures forall x, y :: x in multiset(s) - multiset(s[..k]) && y in s[..k] ==> x.timestamp <= y.timestamp
  {
    var pre, post := s[..k], s[k..];
    assert s == pre + post;
    assert multiset(s) == multiset(pre) + multiset(post);
    forall x, y | x in multiset(s) - multiset(pre) && y in pre
      ensures x.timestamp <= y.timestamp
    {
      assert x in post;
      LaterNoNewer(s, k, x, y);
    }
  }

  /** An entry at or after position k is no newer than one before it. */
  lemma LaterNoNewer(s: seq<Entry>, k: nat, x: Entry, y: Entry)
    requires NewestFirst(s) && k <= |s|
    requires x in s[k..] && y in s[..k]
    ensures x.timestamp <= y.timestamp
  {
    var j :| 0 <= j < |s[k..]| && s[k..][j] == x;
    var i :| 0 <= i < k && s[..k][i] == y;
    assert s[i] == y && s[k + j] == x;
  }

  /** A rearrangement of one chat's entries holds only that chat's entries. */
  lemma SameChat(s: seq<Entry>, t: seq<Entry>, userId: string)
    requires multiset(s) == multiset(t)
    requires forall i :: 0 <= i < |s| ==> s[i].userId == userId
    ensures forall i :: 0 <= i < |t| ==> t[i].userId == userId
  {
    forall i | 0 <= i < |t| ensures t[i].userId == userId {
      assert t[i] in multiset(s);
    }
  }

  /** `entry.senderName || entry.senderId || "Unknown member"`. */
  function SenderLabel(e: Entry): (r: string)
    ensures r != ""
    ensures r == "Unknown member" || Some(r) == e.senderName || Some(r) == e.senderId
    ensures Truthy(e.senderName) ==> r == e.senderName.value
    ensures !Truthy(e.senderName) && Truthy(e.senderId) ==> r == e.senderId.value
  {
    OrElse(e.senderName, OrElse(e.senderId, "Unknown member"))
  }

  /** One entry's lines: the group member line names the sender. */
  function Line(e: Entry, group: bool): string {
    if group then
      "Group member (" + SenderLabel(e) + "): \"" + e.userMessage + "\"\nBot: \"" + e.botResponse + "\""
    else "User: \"" + e.userMessage + "\"\nBot: \"" + e.botResponse + "\""
  }

  /** The lines of the entries, in order. */
  function Lines(entries: seq<Entry>, group: bool): (r: seq<string>)
    ensures |r| == |entries|
    ensures forall i :: 0 <= i < |entries| ==> r[i] == Line(entries[i], group)
  {
    seq(|entries|, i requires 0 <= i < |entries| => Line(entries[i], group))
  }

  /** The header line of the block. */
  function Header(group: bool): string {
    if group then "Recent group history:\n" else "Recent conversation history:\n"
  }

  /** `getUserContext(userId, limit)`. */
  function UserContext(db: seq<Entry>, userId: string, limit: Option<int>): (r: Option<string>)
    ensures r.None? <==> |Selected(db, userId, limit)| == 0
    ensures r.Some? ==> StartsWith(r.value, Header(IsGroup(userId)))
    ensures r.Some? ==> r.value == Header(IsGroup(userId)) + Join(Lines(Selected(db, userId, limit), IsGroup(userId)), "\n\n")
  {
    var entries := Selected(db, userId, limit);
    if |entries| == 0 then None
    else
      var lines := Lines(entries, IsGroup(userId));
      var h := Header(IsGroup(userId));
      var text := h + Join(lines, "\n\n");
      assert text[..|h|] == h;
      Some(text)
  }

  /** The `contextDatabase` array. */
  class ContextStore {
    var entries: seq<Entry>

    constructor()
      ensures entries == []
    {
      entries := [];
    }

    /** `storeUserContext(userId, userMessage, botResponse, sender)` at time `now`. */
    method StoreUserContext(userId: string, userMessage: string, botResponse: string, sender: Option<Sender>, now: int)
      modifies this
      ensures entries == old(entries) + [NewEntry(userId, userMessage, botResponse, sender, now)]
    {
      entries := entries + [NewEntry(userId, userMessage, botResponse, sender, now)];
    }

    /** `getUserContext(userId, limit)`. */
    method GetUserContext(userId: string, limit: Option<int>) returns (r: Option<string>)
      ensures r == UserContext(entries, userId, limit)
    {
      r := UserContext(entries, userId, limit);
    }
  }

  /** Storing appends exactly one entry and keeps the earlier ones in place. */
  method StoreKeepsEarlier(store: ContextStore, userId: string, message: string, response: string, sender: Option<Sender>, now: int)
    modifies store
    ensures |store.entries| == |old(store.entries)| + 1
    ensures store.entries[..|old(store.entries)|] == old(store.entries)
    ensures store.entries[|store.entries| - 1].userId == userId
  {
    store.StoreUserContext(userId, message, response, sender, now);
  }

  /** Without an entry for the chat there is no context; with one and a
      limit that is absent or not negative there is. */
  lemma NoEntriesNoContext(db: seq<Entry>, userId: string, limit: Option<int>)
    requires limit.None? || limit.value >= 0
    ensures UserContext(db, userId, limit).None? <==> forall i :: 0 <= i < |db| ==> db[i].userId != userId
  {
    var chat := OfChat(db, userId);
    if exists i :: 0 <= i < |db| && db[i].userId == userId {
      var i :| 0 <= i < |db| && db[i].userId == userId;
      assert db[i] in chat;
    }
    if |chat| > 0 {
      assert chat[0] in db;
    }
  }

  /** At most five entries without a limit or with limit 0, at most `limit` otherwise. */
  lemma AtMostLimit(db: seq<Entry>, userId: string, limit: Option<int>)
    ensures (limit.None? || limit.value == 0) ==> |Selected(db, userId, limit)| <= 5
    ensures limit.Some? && limit.value > 0 ==> |Selected(db, userId, limit)| <= limit.value
  {
  }

  /** When the chat has no more entries than the limit, all of them are used. */
  lemma AllWhenFew(db: seq<Entry>, userId: string, limit: nat)
    requires limit > 0 && |OfChat(db, userId)| <= limit
    ensures multiset(Selected(db, userId, Some(limit))) == multiset(OfChat(db, userId))
  {
    var sorted := SortNewestFirst(OfChat(db, userId));
    assert sorted[..|sorted|] == sorted;
  }

  /** The block is the header followed by one part per selected entry: when no
      entry's lines contain a blank line, splitting what follows the header on
      "\n\n" gives back each entry's lines, newest first. */
  lemma {:induction false} ContextSplitsIntoLines(db: seq<Entry>, userId: string, limit: Option<int>)
    requires UserContext(db, userId, limit).Some?
    requires forall e :: e in Selected(db, userId, limit) ==> !Contains(Line(e, IsGroup(userId)), "\n\n")
    ensures var h := Header(IsGroup(userId));
      |h| <= |UserContext(db, userId, limit).value|
      && SplitOn(UserContext(db, userId, limit).value[|h|..], "\n\n") == Lines(Selected(db, userId, limit), IsGroup(userId))
  {
    var g := IsGroup(userId);
    var sel := Selected(db, userId, limit);
    var lines := Lines(sel, g);
    var h := Header(g);
    var text := UserContext(db, userId, limit).value;
    assert text[|h|..] == Join(lines, "\n\n");
    forall i | 0 <= i < |lines| ensures SepFree(lines[i], "\n\n") {
      assert sel[i] in sel;
      LineEnd(sel[i], g);
      PairFree(lines[i], '\n');
    }
    SplitOnJoin(lines, "\n\n");
  }

  /** Every entry's lines end with a closing quote. */
  lemma LineEnd(e: Entry, group: bool)
    ensures |Line(e, group)| > 0 && Line(e, group)[|Line(e, group)| - 1] == '"'
  {
  }
}
