/** The thread records the chat component holds in `history`, the lookups it
    runs over them (`find`, `some`, the id projection) and the keyed upsert
    that merges a chat reply into them. */
module Threads {

  datatype Option<T> = None | Some(value: T)

  /** One user turn: the prompt and, once the backend has answered, its reply.
      `createdAt` is carried along with the record but never interpreted. */
  datatype Conversation = Conversation(prompt: string, response: Option<string>, createdAt: string)

  /** A thread record. `others` stands for every further property a record from
      the backend may carry (a storage id, timestamps): the component never
      reads them, but keeps them when it rewrites a record. */
  datatype Thread = Thread(threadId: string, conversations: seq<Conversation>, others: map<string, string>)

  /** JavaScript truthiness of a value that is a string or null/undefined. */
  predicate Truthy(s: Option<string>) {
    s.Some? && s.value != ""
  }

  /** The id projection `data.map((thread) => thread.threadId)`. */
  function ThreadIds(h: seq<Thread>): (ids: seq<string>)
    ensures |ids| == |h|
    ensures forall i :: 0 <= i < |h| ==> ids[i] == h[i].threadId
  {
    if h == [] then [] else [h[0].threadId] + ThreadIds(h[1..])
  }

  /** `history.some((thread) => thread.threadId === id)` */
  function Contains(h: seq<Thread>, id: string): (b: bool)
    ensures b <==> exists i :: 0 <= i < |h| && h[i].threadId == id
  {
    if h == [] then false
    else if h[0].threadId == id then true
    else
      var rest := Contains(h[1..], id);
      assert rest ==> exists i :: 0 <= i < |h| && h[i].threadId == id by {
        if rest {
          var k :| 0 <= k < |h[1..]| && h[1..][k].threadId == id;
          assert h[k + 1].threadId == id;
        }
      }
      rest
  }

  /** The position `history.find((thread) => thread.threadId === id)` stops at:
      the first record with that id. */
  function FirstIndex(h: seq<Thread>, id: string): (r: Option<nat>)
    ensures r.None? <==> !Contains(h, id)
    ensures r.Some? ==> r.value < |h| && h[r.value].threadId == id
    ensures r.Some? ==> forall j :: 0 <= j < r.value ==> h[j].threadId != id
  {
    if h == [] then None
    else if h[0].threadId == id then Some(0)
    else
      match FirstIndex(h[1..], id)
      case None => None
      case Some(k) => Some(k + 1)
  }

  /** `history.find((thread) => thread.threadId === id)`, with `undefined` as None. */
  function Find(h: seq<Thread>, id: string): (r: Option<Thread>)
    ensures r.None? <==> !Contains(h, id)
    ensures r.Some? ==> r.value in h && r.value.threadId == id
    ensures r.Some? ==> exists k :: 0 <= k < |h| && h[k] == r.value
                          && forall j :: 0 <= j < k ==> h[j].threadId != id
  {
    match FirstIndex(h, id)
    case None => None
    case Some(k) => Some(h[k])
  }

  /** The `history.map(...)` half of the upsert: each record whose id matches
      gets the new conversation list and keeps its other properties; every
      other record is returned as it is. */
  function ReplaceConversations(h: seq<Thread>, id: string, cs: seq<Conversation>): (r: seq<Thread>)
    ensures |r| == |h|
    ensures forall i :: 0 <= i < |h| ==>
              r[i] == (if h[i].threadId == id then h[i].(conversations := cs) else h[i])
  {
    if h == [] then []
    else
      [if h[0].threadId == id then h[0].(conversations := cs) else h[0]]
      + ReplaceConversations(h[1..], id, cs)
  }

  /** The whole upsert run on a successful chat reply: rewrite the matching
      records, and append the server's thread if none matched. */
  function Merge(h: seq<Thread>, t: Thread): (r: seq<Thread>)
    ensures |r| == if Contains(h, t.threadId) then |h| else |h| + 1
    ensures forall i :: 0 <= i < |h| && h[i].threadId == t.threadId ==>
              r[i].threadId == h[i].threadId && r[i].others == h[i].others
              && r[i].conversations == t.conversations
    ensures forall i :: 0 <= i < |h| && h[i].threadId != t.threadId ==> r[i] == h[i]
    ensures !Contains(h, t.threadId) ==> r[|h|] == t
  {
    var updated := ReplaceConversations(h, t.threadId, t.conversations);
    if Contains(h, t.threadId) then updated else updated + [t]
  }

  /** The records whose id differs from `id`, in their order. */
  function Others(h: seq<Thread>, id: string): seq<Thread>
  {
    if h == [] then []
    else (if h[0].threadId == id then [] else [h[0]]) + Others(h[1..], id)
  }

  /** Thread ids that occur at most once. */
  predicate Distinct(ids: seq<string>) {
    forall i, j :: 0 <= i < j < |ids| ==> ids[i] != ids[j]
  }

  lemma {:induction false} OthersAppend(a: seq<Thread>, b: seq<Thread>, id: string)
    ensures Others(a + b, id) == Others(a, id) + Others(b, id)
  {
    if a != [] {
      assert (a + b)[1..] == a[1..] + b;
      OthersAppend(a[1..], b, id);
    } else {
      assert a + b == b;
    }
  }

  lemma {:induction false} ReplaceKeepsOthers(h: seq<Thread>, id: string, cs: seq<Conversation>)
    ensures Others(ReplaceConversations(h, id, cs), id) == Others(h, id)
  {
    if h != [] {
      var r := ReplaceConversations(h, id, cs);
      assert r[1..] == ReplaceConversations(h[1..], id, cs);
      ReplaceKeepsOthers(h[1..], id, cs);
    }
  }

  /** A merge leaves the records with other ids unchanged and in their order:
      filtering them out of the old and of the new history gives the same list. */
  lemma MergeKeepsOthersInOrder(h: seq<Thread>, t: Thread)
    ensures Others(Merge(h, t), t.threadId) == Others(h, t.threadId)
  {
    var u := ReplaceConversations(h, t.threadId, t.conversations);
    ReplaceKeepsOthers(h, t.threadId, t.conversations);
    if !Contains(h, t.threadId) {
      OthersAppend(u, [t], t.threadId);
      assert Others([t], t.threadId) == [];
    }
  }

  /** The ids of a merged history are the old ids, plus the server's id at the
      end exactly when no record had it. */
  lemma MergeThreadIds(h: seq<Thread>, t: Thread)
    ensures ThreadIds(Merge(h, t)) ==
              if Contains(h, t.threadId) then ThreadIds(h) else ThreadIds(h) + [t.threadId]
  {
    var r := Merge(h, t);
    if Contains(h, t.threadId) {
      assert forall i :: 0 <= i < |h| ==> ThreadIds(r)[i] == ThreadIds(h)[i];
    } else {
      assert forall i :: 0 <= i < |r| ==> ThreadIds(r)[i] == (ThreadIds(h) + [t.threadId])[i];
    }
  }

  /** Appending happens exactly once: a new id occurs once in the merged ids,
      and an existing id leaves the multiset of ids as it was. */
  lemma MergeAppendsOnce(h: seq<Thread>, t: Thread)
    ensures !Contains(h, t.threadId) ==> multiset(ThreadIds(Merge(h, t)))[t.threadId] == 1
    ensures Contains(h, t.threadId) ==> multiset(ThreadIds(Merge(h, t))) == multiset(ThreadIds(h))
  {
    MergeThreadIds(h, t);
    if !Contains(h, t.threadId) {
      assert t.threadId !in ThreadIds(h);
      assert multiset(ThreadIds(h))[t.threadId] == 0;
    }
  }

  /** Merging never introduces a duplicate id. */
  lemma MergePreservesDistinct(h: seq<Thread>, t: Thread)
    requires Distinct(ThreadIds(h))
    ensures Distinct(ThreadIds(Merge(h, t)))
  {
    MergeThreadIds(h, t);
  }

  /** Applying the same reply twice gives the same history as applying it once. */
  lemma MergeIdempotent(h: seq<Thread>, t: Thread)
    ensures Merge(Merge(h, t), t) == Merge(h, t)
  {
    var r := Merge(h, t);
    if Contains(h, t.threadId) {
      var k := FirstIndex(h, t.threadId).value;
      assert r[k].threadId == t.threadId;
    } else {
      assert r[|h|].threadId == t.threadId;
    }
    assert Contains(r, t.threadId);
    var rr := Merge(r, t);
    assert forall i :: 0 <= i < |r| ==> rr[i] == r[i];
  }

  /** When no earlier record has the id, a record placed at `k` is what `find` returns. */
  lemma FindAt(h: seq<Thread>, id: string, k: nat)
    requires k < |h| && h[k].threadId == id
    requires forall j :: 0 <= j < k ==> h[j].threadId != id
    ensures Find(h, id) == Some(h[k])
  {
    var m := FirstIndex(h, id).value;
    assert !(m < k) && !(k < m);
  }

  /** After a merge, looking up the server's id finds a record holding exactly
      the server's conversations (replacement, not append). */
  lemma MergeFind(h: seq<Thread>, t: Thread)
    ensures Find(Merge(h, t), t.threadId).Some?
    ensures Find(Merge(h, t), t.threadId).value.conversations == t.conversations
  {
    var r := Merge(h, t);
    if Contains(h, t.threadId) {
      var m := FirstIndex(h, t.threadId).value;
      FindAt(r, t.threadId, m);
    } else {
      FindAt(r, t.threadId, |h|);
    }
  }

  /** Appending a record leaves every lookup of another id as it was, and a
      lookup of its own id, absent before, finds it. */
  lemma FindAppend(h: seq<Thread>, t: Thread, id: string)
    ensures t.threadId != id ==> Find(h + [t], id) == Find(h, id)
    ensures t.threadId == id && !Contains(h, id) ==> Find(h + [t], id) == Some(t)
  {
    var g := h + [t];
    if t.threadId == id && !Contains(h, id) {
      FindAt(g, id, |h|);
    } else if t.threadId != id {
      if Contains(h, id) {
        var m := FirstIndex(h, id).value;
        FindAt(g, id, m);
      } else {
        assert !Contains(g, id);
      }
    }
  }
}
