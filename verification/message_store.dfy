/**
 * The message collection the real-time handlers write to: records in the
 * shape the socket handlers create, the owner filter used by edit and delete,
 * and the paginated history query run when a socket joins a chat.
 *
 * Identifiers are handed out by the store in increasing order, so every key
 * lies below `nextId`; the history query lists a chat's messages by scanning
 * that range.
 */
module MessageStore {
  import opened Wrappers

  type MessageId = nat

  /** The number of messages a join returns at most. */
  const HistoryLimit: nat := 50

  /** A media attachment exactly as the client supplied it. */
  datatype Media = Media(mimeType: string, fileName: string, size: nat, data: string)

  /** One stored message; `kind` is the source's `type` field. */
  datatype Message = Message(
    id: MessageId,
    chatId: Option<int>,
    senderUsername: string,
    content: string,
    kind: string,
    media: Option<Media>,
    isEdited: bool,
    isDeleted: bool,
    createdAt: int)

  datatype Store = Store(messages: map<MessageId, Message>, nextId: MessageId)

  /** What the store guarantees of its records. */
  ghost predicate Valid(st: Store) {
    && (forall id :: id in st.messages ==> id < st.nextId && st.messages[id].id == id)
    && (forall id :: id in st.messages && st.messages[id].isDeleted ==> st.messages[id].content == "")
  }

  /** Persists a new, unedited, undeleted message under the next identifier. */
  function Save(st: Store, chatId: Option<int>, sender: string, content: string, kind: string,
                media: Option<Media>, now: int): (r: (Store, Message))
    requires Valid(st)
    ensures Valid(r.0)
    ensures r.1 == Message(st.nextId, chatId, sender, content, kind, media, false, false, now)
    ensures r.1.id !in st.messages
    ensures r.0.messages == st.messages[r.1.id := r.1]
    ensures |r.0.messages| == |st.messages| + 1
  {
    var m := Message(st.nextId, chatId, sender, content, kind, media, false, false, now);
    (Store(st.messages[st.nextId := m], st.nextId + 1), m)
  }

  /** The filter `{ _id, senderUsername, isDeleted: false }` of edit and delete. */
  predicate OwnedLive(st: Store, id: MessageId, username: string) {
    id in st.messages && st.messages[id].senderUsername == username && !st.messages[id].isDeleted
  }

  /** The two updates the handlers apply through `findOneAndUpdate`. */
  datatype Patch = EditContent(content: string) | SoftDelete

  function Apply(m: Message, p: Patch): Message {
    match p
    case EditContent(c) => m.(content := c, isEdited := true)
    case SoftDelete => m.(isDeleted := true, content := "")
  }

  /**
   * `findOneAndUpdate(filter, patch, { new: true })`: updates the record when
   * the filter holds and returns the updated record; otherwise changes nothing
   * and returns None.
   */
  function UpdateIfOwner(st: Store, id: MessageId, username: string, p: Patch): (r: (Store, Option<Message>))
    requires Valid(st)
    ensures Valid(r.0)
    ensures r.1.Some? <==> OwnedLive(st, id, username)
    ensures r.1.None? ==> r.0 == st
    ensures r.1.Some? ==> r.0 == Store(st.messages[id := r.1.value], st.nextId)
    ensures r.1.Some? ==> r.1.value == Apply(st.messages[id], p)
  {
    if OwnedLive(st, id, username) then
      var m := Apply(st.messages[id], p);
      (Store(st.messages[id := m], st.nextId), Some(m))
    else (st, None)
  }

  /* ---------- history: `find({ chatId }).sort({ createdAt: -1 }).limit(50)`, reversed ---------- */

  predicate InChat(m: Message, c: int) {
    m.chatId == Some(c)
  }

  /** The chat's messages with identifier below `n`, in identifier order. */
  function ChatPrefix(msgs: map<MessageId, Message>, c: int, n: nat): (r: seq<Message>)
    requires forall id :: id in msgs ==> msgs[id].id == id
    ensures forall i :: 0 <= i < |r| ==> r[i].id < n && r[i].id in msgs && msgs[r[i].id] == r[i] && InChat(r[i], c)
    ensures forall i, j :: 0 <= i < j < |r| ==> r[i].id < r[j].id
    ensures forall id :: id < n && id in msgs && InChat(msgs[id], c) ==> msgs[id] in r
    decreases n
  {
    if n == 0 then []
    else
      var pre := ChatPrefix(msgs, c, n - 1);
      if n - 1 in msgs && InChat(msgs[n - 1], c) then pre + [msgs[n - 1]] else pre
  }

  predicate SortedByCreated(s: seq<Message>) {
    forall i, j :: 0 <= i < j < |s| ==> s[i].createdAt <= s[j].createdAt
  }

  /** Inserts `x` before the first element created no earlier than it. */
  function Insert(x: Message, s: seq<Message>): (r: seq<Message>)
    requires SortedByCreated(s)
    ensures SortedByCreated(r)
    ensures multiset(r) == multiset(s) + multiset{x}
    decreases |s|
  {
    if s == [] || x.createdAt <= s[0].createdAt then [x] + s
    else
      var rest := Insert(x, s[1..]);
      assert s == [s[0]] + s[1..];
      forall z | z in rest ensures s[0].createdAt <= z.createdAt {
        assert z in multiset(rest);
        assert z == x || z in multiset(s[1..]);
      }
      [s[0]] + rest
  }

  /** Insertion sort by creation time, oldest first. */
  function SortByCreated(s: seq<Message>): (r: seq<Message>)
    ensures SortedByCreated(r)
    ensures multiset(r) == multiset(s)
    decreases |s|
  {
    if s == [] then []
    else
      assert s == [s[0]] + s[1..];
      Insert(s[0], SortByCreated(s[1..]))
  }

  /** The identifiers of the chat's stored messages. */
  ghost function ChatIds(st: Store, c: int): set<MessageId> {
    set id | id in st.messages && InChat(st.messages[id], c)
  }

  /** Keeps the last `HistoryLimit` elements. */
  function LastWindow(s: seq<Message>): (r: seq<Message>)
    ensures |r| == if |s| <= HistoryLimit then |s| else HistoryLimit
    ensures forall i :: 0 <= i < |r| ==> r[i] == s[|s| - |r| + i]
  {
    if |s| <= HistoryLimit then s else s[|s| - HistoryLimit..]
  }

  /**
   * The history a join returns for chat `c`: at most 50 of the chat's
   * messages, oldest first, and no message of the chat left out is newer than
   * one that was returned.
   */
  function Recent(st: Store, c: int): (r: seq<Message>)
    requires Valid(st)
    ensures |r| <= HistoryLimit
    ensures |r| == if |ChatIds(st, c)| <= HistoryLimit then |ChatIds(st, c)| else HistoryLimit
    ensures SortedByCreated(r)
    ensures forall i :: 0 <= i < |r| ==> r[i].id in st.messages && st.messages[r[i].id] == r[i] && InChat(r[i], c)
    ensures forall i, j :: 0 <= i < j < |r| ==> r[i].id != r[j].id
    ensures forall id :: id in ChatIds(st, c) && st.messages[id] !in r ==>
              forall i :: 0 <= i < |r| ==> st.messages[id].createdAt <= r[i].createdAt
  {
    var listed := ChatPrefix(st.messages, c, st.nextId);
    var sorted := SortByCreated(listed);
    var r := LastWindow(sorted);
    PrefixListsChat(st, c);
    WindowFacts(st, c, listed, sorted, r);
    r
  }

  /** The chat's messages, each once, in identifier order. */
  ghost predicate ListsChat(st: Store, c: int, listed: seq<Message>) {
    && (forall i :: 0 <= i < |listed| ==> listed[i].id in st.messages && st.messages[listed[i].id] == listed[i] && InChat(listed[i], c))
    && (forall i, j :: 0 <= i < j < |listed| ==> listed[i].id < listed[j].id)
    && (forall id :: id in ChatIds(st, c) ==> st.messages[id] in listed)
  }

  lemma PrefixListsChat(st: Store, c: int)
    requires Valid(st)
    ensures ListsChat(st, c, ChatPrefix(st.messages, c, st.nextId))
  {
    var listed := ChatPrefix(st.messages, c, st.nextId);
    forall id | id in ChatIds(st, c) ensures st.messages[id] in listed {
      assert id < st.nextId;
    }
  }

  lemma WindowFacts(st: Store, c: int, listed: seq<Message>, sorted: seq<Message>, r: seq<Message>)
    requires Valid(st)
    requires ListsChat(st, c, listed)
    requires SortedByCreated(sorted) && multiset(sorted) == multiset(listed)
    requires r == LastWindow(sorted)
    ensures |r| == (if |ChatIds(st, c)| <= HistoryLimit then |ChatIds(st, c)| else HistoryLimit)
    ensures SortedByCreated(r)
    ensures forall i :: 0 <= i < |r| ==> r[i].id in st.messages && st.messages[r[i].id] == r[i] && InChat(r[i], c)
    ensures forall i, j :: 0 <= i < j < |r| ==> r[i].id != r[j].id
    ensures forall id :: id in ChatIds(st, c) && st.messages[id] !in r ==>
              forall i :: 0 <= i < |r| ==> st.messages[id].createdAt <= r[i].createdAt
  {
    PrefixCoversChat(st, c, listed);
    PermutationKeepsLength(listed, sorted);
    PermutationKeepsMembers(listed, sorted);
    PermutationKeepsDistinct(listed, sorted);
    WindowIsNewest(sorted, r);
    WindowFromStore(st, c, listed, sorted, r);
    WindowDistinctIds(st, sorted, r);
    WindowNewestOfChat(st, c, listed, sorted, r);
  }

  lemma PermutationKeepsLength(listed: seq<Message>, sorted: seq<Message>)
    requires multiset(sorted) == multiset(listed)
    ensures |sorted| == |listed|
  {
    assert |sorted| == |multiset(sorted)|;
    assert |listed| == |multiset(listed)|;
  }

  lemma PermutationKeepsMembers(listed: seq<Message>, sorted: seq<Message>)
    requires multiset(sorted) == multiset(listed)
    ensures forall x :: x in listed <==> x in sorted
  {
    forall x ensures x in listed <==> x in sorted {
      assert x in listed <==> x in multiset(listed);
      assert x in sorted <==> x in multiset(sorted);
    }
  }

  lemma PermutationKeepsDistinct(listed: seq<Message>, sorted: seq<Message>)
    requires multiset(sorted) == multiset(listed)
    requires forall i, j :: 0 <= i < j < |listed| ==> listed[i].id < listed[j].id
    ensures forall i, j :: 0 <= i < j < |sorted| ==> sorted[i] != sorted[j]
  {
    DistinctIds(listed);
    forall i, j | 0 <= i < j < |sorted| ensures sorted[i] != sorted[j] {
      if sorted[i] == sorted[j] {
        TwoOccurrences(sorted, i, j);
      }
    }
  }

  lemma WindowFromStore(st: Store, c: int, listed: seq<Message>, sorted: seq<Message>, r: seq<Message>)
    requires forall i :: 0 <= i < |listed| ==> listed[i].id in st.messages && st.messages[listed[i].id] == listed[i] && InChat(listed[i], c)
    requires forall x :: x in listed <==> x in sorted
    requires |r| <= |sorted|
    requires forall i :: 0 <= i < |r| ==> r[i] == sorted[|sorted| - |r| + i]
    ensures forall i :: 0 <= i < |r| ==> r[i].id in st.messages && st.messages[r[i].id] == r[i] && InChat(r[i], c)
  {
    forall i | 0 <= i < |r|
      ensures r[i].id in st.messages && st.messages[r[i].id] == r[i] && InChat(r[i], c)
    {
      assert r[i] in sorted;
      var k :| 0 <= k < |listed| && listed[k] == r[i];
    }
  }

  lemma WindowDistinctIds(st: Store, sorted: seq<Message>, r: seq<Message>)
    requires forall i, j :: 0 <= i < j < |sorted| ==> sorted[i] != sorted[j]
    requires forall i :: 0 <= i < |r| ==> r[i].id in st.messages && st.messages[r[i].id] == r[i]
    requires |r| <= |sorted|
    requires forall i :: 0 <= i < |r| ==> r[i] == sorted[|sorted| - |r| + i]
    ensures forall i, j :: 0 <= i < j < |r| ==> r[i].id != r[j].id
  {
    forall i, j | 0 <= i < j < |r| ensures r[i].id != r[j].id {
      assert r[i] == sorted[|sorted| - |r| + i];
      assert r[j] == sorted[|sorted| - |r| + j];
    }
  }

  lemma WindowNewestOfChat(st: Store, c: int, listed: seq<Message>, sorted: seq<Message>, r: seq<Message>)
    requires forall id :: id in ChatIds(st, c) ==> st.messages[id] in listed
    requires forall x :: x in listed <==> x in sorted
    requires forall x :: x in sorted && x !in r ==> forall i :: 0 <= i < |r| ==> x.createdAt <= r[i].createdAt
    ensures forall id :: id in ChatIds(st, c) && st.messages[id] !in r ==>
              forall i :: 0 <= i < |r| ==> st.messages[id].createdAt <= r[i].createdAt
  {
  }

  lemma PrefixCoversChat(st: Store, c: int, listed: seq<Message>)
    requires Valid(st)
    requires ListsChat(st, c, listed)
    ensures |listed| == |ChatIds(st, c)|
  {
    var ids := set i | 0 <= i < |listed| :: listed[i].id;
    assert ids == ChatIds(st, c) by {
      forall id | id in ChatIds(st, c) ensures id in ids {
        var k :| 0 <= k < |listed| && listed[k] == st.messages[id];
      }
    }
    IdsCardinality(listed);
  }

  /** Strictly increasing identifiers are as many as the elements. */
  lemma {:induction false} IdsCardinality(s: seq<Message>)
    requires forall i, j :: 0 <= i < j < |s| ==> s[i].id < s[j].id
    ensures |set i | 0 <= i < |s| :: s[i].id| == |s|
    decreases |s|
  {
    if s != [] {
      var t := s[..|s| - 1];
      IdsCardinality(t);
      var a := set i | 0 <= i < |t| :: t[i].id;
      var b := set i | 0 <= i < |s| :: s[i].id;
      assert b == a + {s[|s| - 1].id};
      assert s[|s| - 1].id !in a;
    }
  }

  /** Elements with distinct identifiers stay distinct as whole records. */
  lemma DistinctIds(listed: seq<Message>)
    requires forall i, j :: 0 <= i < j < |listed| ==> listed[i].id < listed[j].id
    ensures forall x :: multiset(listed)[x] <= 1
  {
    forall x ensures multiset(listed)[x] <= 1 {
      CountAtMostOne(listed, x);
    }
  }

  lemma {:induction false} CountAtMostOne(s: seq<Message>, x: Message)
    requires forall i, j :: 0 <= i < j < |s| ==> s[i].id < s[j].id
    ensures multiset(s)[x] <= 1
    decreases |s|
  {
    if s != [] {
      var t := s[..|s| - 1];
      assert s == t + [s[|s| - 1]];
      CountAtMostOne(t, x);
      forall k | 0 <= k < |t| ensures t[k] != s[|s| - 1] {
        assert s[k].id < s[|s| - 1].id;
      }
      assert s[|s| - 1] !in multiset(t);
    }
  }

  lemma TwoOccurrences(s: seq<Message>, i: nat, j: nat)
    requires i < j < |s| && s[i] == s[j]
    ensures multiset(s)[s[i]] >= 2
  {
    assert s == s[..j] + [s[j]] + s[j + 1..];
    assert s[..j] == s[..i] + [s[i]] + s[i + 1..j];
    assert multiset(s[..j])[s[i]] >= 1;
  }

  lemma WindowIsNewest(sorted: seq<Message>, r: seq<Message>)
    requires SortedByCreated(sorted)
    requires r == LastWindow(sorted)
    ensures SortedByCreated(r)
    ensures forall x :: x in sorted && x !in r ==> forall i :: 0 <= i < |r| ==> x.createdAt <= r[i].createdAt
  {
    forall x | x in sorted && x !in r ensures forall i :: 0 <= i < |r| ==> x.createdAt <= r[i].createdAt {
      var k :| 0 <= k < |sorted| && sorted[k] == x;
      forall i | 0 <= i < |r| ensures x.createdAt <= r[i].createdAt {
        assert r[i] == sorted[|sorted| - |r| + i];
      }
    }
  }
}
