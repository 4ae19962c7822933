/**
 * The discussion thread of one topic: the live snapshot of its comments is
 * turned into a reply forest, and a form posts new comments and replies.
 */
module Comments {
  import opened Wrappers
  import opened Auth
  import opened Store
  import opened JsString

  /** The fields a comment document holds in the store. */
  datatype StoredComment = StoredComment(topicId: string, parentId: Option<string>, text: string, userId: string, userName: string)

  /** A comment as the snapshot callback builds it from a document. */
  datatype Comment = Comment(id: string, topicId: string, parentId: Option<string>, text: string, userId: string, userName: string)

  /**
   * An entry of the comment map: the comment and the ids of the nodes pushed
   * onto its `replies`, in push order. Replies are held by id, as the nodes are
   * shared objects in the source: a node pushed into a parent's replies is the
   * very object the map holds, so it goes on collecting its own replies.
   */
  datatype Node = Node(comment: Comment, replies: seq<string>)

  /** Where the second pass puts a comment: the top-level list, or the replies of the node with the given id. */
  datatype Slot = Top | Under(parent: string)

  /** JavaScript truthiness of an optional string: null, undefined and "" are all falsy. */
  predicate Falsy(s: Option<string>)
  {
    s.None? || s.value == ""
  }

  function SlotOf(c: Comment): Slot
  {
    if Falsy(c.parentId) then Top else Under(c.parentId.value)
  }

  predicate UniqueIds(cs: seq<Comment>)
  {
    forall i, j :: 0 <= i < j < |cs| ==> cs[i].id != cs[j].id
  }

  // ---------------------------------------------------------------------------
  // Snapshot to comments (the `docs.map` of the snapshot callback)
  // ---------------------------------------------------------------------------

  /** Each document becomes a comment with the document's id and the subscription's topic, whatever topic was stored. */
  function FromSnapshot(topicId: string, docs: seq<Doc<StoredComment>>): (cs: seq<Comment>)
    ensures |cs| == |docs|
    ensures forall i :: 0 <= i < |docs| ==> cs[i].id == docs[i].id && cs[i].topicId == topicId
    ensures forall i :: 0 <= i < |docs| ==> cs[i].parentId == docs[i].data.parentId && cs[i].text == docs[i].data.text
    ensures forall i :: 0 <= i < |docs| ==> cs[i].userId == docs[i].data.userId && cs[i].userName == docs[i].data.userName
  {
    seq(|docs|, i requires 0 <= i < |docs| =>
      Comment(docs[i].id, topicId, docs[i].data.parentId, docs[i].data.text, docs[i].data.userId, docs[i].data.userName))
  }

  // ---------------------------------------------------------------------------
  // The forest, specified
  // ---------------------------------------------------------------------------

  /** The ids of the comments of `cs` that belong in `slot`, in input order. */
  function Select(cs: seq<Comment>, slot: Slot): seq<string>
  {
    if cs == [] then []
    else Select(cs[..|cs| - 1], slot) + (if SlotOf(cs[|cs| - 1]) == slot then [cs[|cs| - 1].id] else [])
  }

  /** The top-level list: the comments with a falsy parentId. */
  function Roots(cs: seq<Comment>): seq<string>
  {
    Select(cs, Top)
  }

  /** What the first pass leaves in the comment map: one entry per id, holding the last comment with that id. */
  function Index(cs: seq<Comment>): (m: map<string, Comment>)
    ensures forall k :: 0 <= k < |cs| ==> cs[k].id in m
    ensures forall x :: x in m ==> m[x].id == x
  {
    if cs == [] then map[] else Index(cs[..|cs| - 1])[cs[|cs| - 1].id := cs[|cs| - 1]]
  }

  /** The comment map after the second pass: each node's replies are the comments naming it as parent. */
  function Linked(cs: seq<Comment>): map<string, Node>
  {
    map x | x in Index(cs) :: Node(Index(cs)[x], Select(cs, Under(x)))
  }

  /** Every entry of the index is one of the input's comments. */
  lemma {:induction false} IndexFrom(cs: seq<Comment>, x: string)
    requires x in Index(cs)
    ensures Index(cs)[x] in cs
  {
    var init := cs[..|cs| - 1];
    if x != cs[|cs| - 1].id {
      IndexFrom(init, x);
      assert init <= cs;
    }
  }

  /** The entry under an id is the last comment carrying it; with distinct ids, the one comment carrying it. */
  lemma {:induction false} IndexLast(cs: seq<Comment>, k: nat)
    requires k < |cs| && forall j :: k < j < |cs| ==> cs[j].id != cs[k].id
    ensures Index(cs)[cs[k].id] == cs[k]
  {
    var init := cs[..|cs| - 1];
    if k < |cs| - 1 {
      IndexLast(init, k);
    }
  }

  /**
   * The id is placed in the built forest: in the top-level list or in some
   * node's replies. A node's replies count even when no top-level comment
   * leads to that node, so a comment that is not placed is certainly not
   * rendered, while a placed one may still be out of reach.
   */
  ghost predicate Placed(cs: seq<Comment>, id: string)
  {
    id in Roots(cs) || exists x :: x in Linked(cs) && id in Linked(cs)[x].replies
  }

  // ---------------------------------------------------------------------------
  // The forest builder (the snapshot callback's two passes)
  // ---------------------------------------------------------------------------

  /**
   * The keys a plain JavaScript object such as the comment map inherits from
   * `Object.prototype`: reading one of them from the map yields a function or
   * the prototype object, never `undefined`.
   */
  const InheritedKeys: set<string> := {
    "constructor", "hasOwnProperty", "isPrototypeOf", "propertyIsEnumerable",
    "toLocaleString", "toString", "valueOf", "__proto__",
    "__defineGetter__", "__defineSetter__", "__lookupGetter__", "__lookupSetter__"
  }

  /**
   * The second pass throws at comment `k`: its parentId names no comment of the
   * batch but an inherited key, so the optional chain finds a value that is not
   * nullish, its `replies` is undefined, and `push` on it is a TypeError.
   */
  predicate ThrowsAt(cs: seq<Comment>, k: nat)
    requires k < |cs|
  {
    !Falsy(cs[k].parentId) && cs[k].parentId.value !in Index(cs) && cs[k].parentId.value in InheritedKeys
  }

  /** The callback throws on this batch: some comment makes the second pass throw. */
  predicate Throws(cs: seq<Comment>)
  {
    exists k :: 0 <= k < |cs| && ThrowsAt(cs, k)
  }

  /**
   * The snapshot callback's two passes: the first fills the comment map, the
   * second links it into a forest, or throws.
   */
  method BuildForest(cs: seq<Comment>) returns (ok: bool, top: seq<string>, nodes: map<string, Node>)
    ensures ok <==> !Throws(cs)
    ensures ok ==> top == Roots(cs)
    ensures ok ==> nodes == Linked(cs)
  {
    nodes := FillMap(cs);
    ok, top, nodes := LinkNodes(cs, nodes);
  }

  /** The first pass: a node per comment, every one with empty replies (a later comment with the same id overwrites). */
  method FillMap(cs: seq<Comment>) returns (nodes: map<string, Node>)
    ensures nodes.Keys == Index(cs).Keys
    ensures forall x :: x in nodes ==> nodes[x] == Node(Index(cs)[x], [])
  {
    nodes := map[];
    for i := 0 to |cs|
      invariant nodes.Keys == Index(cs[..i]).Keys
      invariant forall x :: x in nodes ==> nodes[x] == Node(Index(cs[..i])[x], [])
    {
      IndexStep(cs, i);
      nodes := nodes[cs[i].id := Node(cs[i], [])];
    }
    assert cs[..|cs|] == cs;
  }

  /**
   * The second pass: each comment is pushed onto its parent's replies, or onto
   * the top-level list when its parentId is falsy; when the parent is not in
   * the map the comment is skipped, unless the parentId is an inherited key,
   * which makes the pass throw.
   */
  method LinkNodes(cs: seq<Comment>, start: map<string, Node>) returns (ok: bool, top: seq<string>, nodes: map<string, Node>)
    requires start.Keys == Index(cs).Keys
    requires forall x :: x in start ==> start[x] == Node(Index(cs)[x], [])
    ensures ok <==> !Throws(cs)
    ensures ok ==> top == Roots(cs)
    ensures ok ==> nodes == Linked(cs)
  {
    nodes, top := start, [];
    assert LinkedUpTo(cs, 0, nodes);
    for i := 0 to |cs|
      invariant LinkedUpTo(cs, i, nodes)
      invariant top == Roots(cs[..i])
      invariant NoThrowBefore(cs, i)
    {
      var c := cs[i];
      ghost var before := nodes;
      SelectStep(cs, i, Top);
      assert nodes.Keys == Index(cs).Keys;
      if !Falsy(c.parentId) {
        var p := c.parentId.value;
        if p in nodes {
          nodes := nodes[p := nodes[p].(replies := nodes[p].replies + [c.id])];
        } else if p in InheritedKeys {
          assert ThrowsAt(cs, i);
          return false, top, nodes;
        }
      } else {
        top := top + [c.id];
      }
      NoThrowStep(cs, i);
      LinkStep(cs, i, before, nodes);
    }
    assert cs[..|cs|] == cs;
    LinkedFrom(cs, nodes);
    ok := true;
  }

  /** None of the first `i` comments makes the second pass throw. */
  ghost predicate NoThrowBefore(cs: seq<Comment>, i: nat)
    requires i <= |cs|
  {
    forall k :: 0 <= k < i ==> !ThrowsAt(cs, k)
  }

  /** A comment the second pass gets past without throwing extends the prefix that does not throw. */
  lemma NoThrowStep(cs: seq<Comment>, i: nat)
    requires i < |cs| && NoThrowBefore(cs, i) && !ThrowsAt(cs, i)
    ensures NoThrowBefore(cs, i + 1)
  {
  }

  /** The node map after the second pass has handled the first `i` comments. */
  ghost predicate LinkedUpTo(cs: seq<Comment>, i: nat, nodes: map<string, Node>)
    requires i <= |cs|
  {
    && nodes.Keys == Index(cs).Keys
    && forall x :: x in nodes ==> nodes[x] == Node(Index(cs)[x], Select(cs[..i], Under(x)))
  }

  /** One step of the second pass keeps the node map in step with the comments handled so far. */
  lemma LinkStep(cs: seq<Comment>, i: nat, before: map<string, Node>, after: map<string, Node>)
    requires i < |cs| && LinkedUpTo(cs, i, before)
    requires after == if !Falsy(cs[i].parentId) && cs[i].parentId.value in before
      then before[cs[i].parentId.value := before[cs[i].parentId.value].(replies := before[cs[i].parentId.value].replies + [cs[i].id])]
      else before
    ensures LinkedUpTo(cs, i + 1, after)
  {
    forall x | x in after
      ensures after[x] == Node(Index(cs)[x], Select(cs[..i + 1], Under(x)))
    {
      SelectStep(cs, i, Under(x));
    }
  }

  /** One more element of the input: the index gains its entry. */
  lemma IndexStep(cs: seq<Comment>, i: nat)
    requires i < |cs|
    ensures Index(cs[..i + 1]) == Index(cs[..i])[cs[i].id := cs[i]]
  {
    assert cs[..i + 1][..i] == cs[..i];
  }

  /** One more element of the input: a slot gains that element's id if it belongs there. */
  lemma SelectStep(cs: seq<Comment>, i: nat, slot: Slot)
    requires i < |cs|
    ensures Select(cs[..i + 1], slot) == Select(cs[..i], slot) + (if SlotOf(cs[i]) == slot then [cs[i].id] else [])
  {
    assert cs[..i + 1][..i] == cs[..i];
  }

  /** A map with the keys of the index and, under each, the node `Linked` describes is `Linked` itself. */
  lemma LinkedFrom(cs: seq<Comment>, nodes: map<string, Node>)
    requires nodes.Keys == Index(cs).Keys
    requires forall x :: x in nodes ==> nodes[x] == Node(Index(cs)[x], Select(cs, Under(x)))
    ensures nodes == Linked(cs)
  {
  }

  /** The whole snapshot callback's computation: every node of the forest it builds carries the subscription's topic. */
  method SnapshotForest(topicId: string, docs: seq<Doc<StoredComment>>) returns (ok: bool, top: seq<string>, nodes: map<string, Node>)
    ensures ok <==> !Throws(FromSnapshot(topicId, docs))
    ensures ok ==> top == Roots(FromSnapshot(topicId, docs))
    ensures ok ==> nodes == Linked(FromSnapshot(topicId, docs))
    ensures ok ==> forall x :: x in nodes ==> nodes[x].comment.topicId == topicId && nodes[x].comment.id == x
  {
    var cs := FromSnapshot(topicId, docs);
    ok, top, nodes := BuildForest(cs);
    if ok {
      forall x | x in nodes
        ensures nodes[x].comment.topicId == topicId
      {
        IndexFrom(cs, x);
      }
    }
  }

  /** The thread's `comments` state: the top-level list and the node map it refers into. */
  class Thread {
    var top: seq<string>
    var nodes: map<string, Node>

    constructor ()
      ensures top == [] && nodes == map[]
    {
      top, nodes := [], map[];
    }

    /** A snapshot arrives: the forest replaces the state, or, when the callback throws, the state is kept. */
    method OnSnapshot(topicId: string, docs: seq<Doc<StoredComment>>) returns (applied: bool)
      modifies this
      ensures applied <==> !Throws(FromSnapshot(topicId, docs))
      ensures applied ==> top == Roots(FromSnapshot(topicId, docs)) && nodes == Linked(FromSnapshot(topicId, docs))
      ensures !applied ==> top == old(top) && nodes == old(nodes)
    {
      var t, n;
      applied, t, n := SnapshotForest(topicId, docs);
      if applied {
        top, nodes := t, n;
      }
    }
  }

  // ---------------------------------------------------------------------------
  // Properties of the forest
  // ---------------------------------------------------------------------------

  /** Order is kept slot by slot: the forest of a concatenation is the forests of the parts, one after the other. */
  lemma {:induction false} SelectAppend(a: seq<Comment>, b: seq<Comment>, slot: Slot)
    ensures Select(a + b, slot) == Select(a, slot) + Select(b, slot)
    decreases |b|
  {
    if b == [] {
      assert a + b == a;
    } else {
      var b' := b[..|b| - 1];
      assert (a + b)[..|a + b| - 1] == a + b';
      SelectAppend(a, b', slot);
    }
  }

  /** A slot holds the ids of exactly the comments whose parentId selects it. */
  lemma {:induction false} SelectMember(cs: seq<Comment>, slot: Slot, id: string)
    ensures id in Select(cs, slot) <==> exists k :: 0 <= k < |cs| && cs[k].id == id && SlotOf(cs[k]) == slot
  {
    if cs != [] {
      var init := cs[..|cs| - 1];
      SelectMember(init, slot, id);
      if id in Select(init, slot) {
        var k :| 0 <= k < |init| && init[k].id == id && SlotOf(init[k]) == slot;
        assert cs[k] == init[k];
      }
      if exists k :: 0 <= k < |cs| && cs[k].id == id && SlotOf(cs[k]) == slot {
        var k :| 0 <= k < |cs| && cs[k].id == id && SlotOf(cs[k]) == slot;
        if k < |init| {
          assert init[k] == cs[k];
        }
      }
    }
  }

  /**
   * With distinct ids, every comment lands in exactly one place: at the top
   * level when its parentId is falsy, and otherwise in the replies of the node
   * its parentId names and of no other node.
   */
  lemma Placement(cs: seq<Comment>, k: nat)
    requires UniqueIds(cs) && k < |cs|
    ensures cs[k].id in Roots(cs) <==> Falsy(cs[k].parentId)
    ensures forall x :: x in Linked(cs) ==> (cs[k].id in Linked(cs)[x].replies <==> SlotOf(cs[k]) == Under(x))
  {
    SelectMember(cs, Top, cs[k].id);
    forall x | x in Linked(cs)
      ensures cs[k].id in Linked(cs)[x].replies <==> SlotOf(cs[k]) == Under(x)
    {
      SelectMember(cs, Under(x), cs[k].id);
    }
  }

  /** A reply is attached to its parent wherever the parent sits in the input, before or after it. */
  lemma ReplyAttached(cs: seq<Comment>, k: nat, j: nat)
    requires k < |cs| && j < |cs|
    requires !Falsy(cs[k].parentId) && cs[k].parentId.value == cs[j].id
    ensures cs[j].id in Linked(cs) && cs[k].id in Linked(cs)[cs[j].id].replies
  {
    SelectMember(cs, Under(cs[j].id), cs[k].id);
  }

  /**
   * A comment whose parentId names no comment of the batch appears nowhere in
   * the forest; the callback throws on it exactly when that parentId is an
   * inherited key.
   */
  lemma OrphanDropped(cs: seq<Comment>, k: nat)
    requires UniqueIds(cs) && k < |cs|
    requires !Falsy(cs[k].parentId) && forall j :: 0 <= j < |cs| ==> cs[j].id != cs[k].parentId.value
    ensures !Placed(cs, cs[k].id)
    ensures ThrowsAt(cs, k) <==> cs[k].parentId.value in InheritedKeys
  {
    Placement(cs, k);
    if cs[k].parentId.value in Index(cs) {
      IndexFrom(cs, cs[k].parentId.value);
      assert false;
    }
  }

  /** Within a slot, an earlier comment comes before a later one. */
  lemma SlotOrder(cs: seq<Comment>, i: nat, j: nat, slot: Slot)
    requires i < j < |cs| && SlotOf(cs[i]) == slot && SlotOf(cs[j]) == slot
    ensures exists p, q :: 0 <= p < q < |Select(cs, slot)| && Select(cs, slot)[p] == cs[i].id && Select(cs, slot)[q] == cs[j].id
  {
    var front, back := cs[..j], cs[j..];
    var s1, s2 := Select(front, slot), Select(back, slot);
    assert cs == front + back;
    SelectAppend(front, back, slot);
    SelectLeads(back, slot);
    assert s2[0] == cs[j].id;
    SelectMember(front, slot, cs[i].id);
    assert front[i] == cs[i];
    var p :| 0 <= p < |s1| && s1[p] == cs[i].id;
    assert Select(cs, slot) == s1 + s2;
    assert Select(cs, slot)[p] == cs[i].id;
    assert Select(cs, slot)[|s1|] == cs[j].id;
  }

  /** A comment that belongs in the slot leads the slot's list of any sequence starting with it. */
  lemma SelectLeads(cs: seq<Comment>, slot: Slot)
    requires cs != [] && SlotOf(cs[0]) == slot
    ensures Select(cs, slot) != [] && Select(cs, slot)[0] == cs[0].id
  {
  }

  /** Two comments on a topic, A at the top level and then B replying to A: the forest is A with B under it. */
  lemma ReplyScenario(topicId: string)
    ensures var a := Comment("A", topicId, None, "first", "u1", "Ana");
            var b := Comment("B", topicId, Some("A"), "reply", "u2", "Budi");
            Roots([a, b]) == ["A"] && "A" in Linked([a, b]) && Linked([a, b])["A"].replies == ["B"]
  {
    var a := Comment("A", topicId, None, "first", "u1", "Ana");
    var b := Comment("B", topicId, Some("A"), "reply", "u2", "Budi");
    assert [a, b][..1] == [a] && [a][..0] == [];
    assert SlotOf(a) == Top && SlotOf(b) == Under("A");
    assert Select([a], Top) == ["A"];
    assert Select([a], Under("A")) == Select([a][..0], Under("A")) == [];
    assert Index([a]) == map["A" := a];
  }

  /**
   * A comment whose parent is "ghost", an id that is not in the batch, is shown
   * nowhere, not even at the top level, and the callback does not throw.
   */
  lemma GhostParentScenario(topicId: string)
    ensures var c := Comment("C", topicId, Some("ghost"), "lost", "u3", "Citra");
            !Throws([c]) && Roots([c]) == [] && !Placed([c], "C")
  {
    var c := Comment("C", topicId, Some("ghost"), "lost", "u3", "Citra");
    assert [c][..0] == [];
    assert SlotOf(c) == Under("ghost");
    assert Select([c], Top) == Select([], Top);
    OrphanDropped([c], 0);
  }

  /** A comment whose parent is "toString", an id that is not in the batch, makes the callback throw, so the thread keeps its old state. */
  lemma InheritedParentScenario(topicId: string)
    ensures var c := Comment("C", topicId, Some("toString"), "lost", "u3", "Citra");
            Throws([c])
  {
    var c := Comment("C", topicId, Some("toString"), "lost", "u3", "Citra");
    OrphanDropped([c], 0);
  }

  // ---------------------------------------------------------------------------
  // Posting (CommentForm)
  // ---------------------------------------------------------------------------

  /** The guard of the submit handler: non-blank text, a signed-in user and a truthy topic. */
  function MayPost(text: string, user: Option<User>, topicId: Option<string>): (r: bool)
    ensures r <==> !AllWhitespace(text) && user.Some? && topicId.Some? && topicId.value != ""
  {
    TrimEmptyIff(text);
    Trim(text) != "" && user.Some? && !Falsy(topicId)
  }

  /** The form under a topic (and, for a reply, under a parent comment), with its controlled text field. */
  class CommentForm {
    const topicId: Option<string>
    const parentId: Option<string>
    var text: string

    constructor (topicId: Option<string>, parentId: Option<string>)
      ensures this.topicId == topicId && this.parentId == parentId && text == ""
    {
      this.topicId := topicId;
      this.parentId := parentId;
      text := "";
    }

    /** The textarea's change handler. */
    method Edit(value: string)
      modifies this
      ensures text == value
    {
      text := value;
    }

    /**
     * Posts the text as it stands (untrimmed) when the guard lets it through.
     * `posted` says the write went through, the text was cleared and the
     * completion callback fires; a rejected write leaves the text as it was.
     */
    method HandleSubmit(user: Option<User>, store: Collection<StoredComment>, newId: string, fault: bool) returns (posted: bool)
      requires newId !in store.docs
      modifies this, store
      ensures posted == (MayPost(old(text), user, topicId) && !fault)
      ensures posted ==> text == ""
      ensures posted ==>
        store.docs == old(store.docs)[newId := StoredComment(topicId.value, parentId, old(text), user.value.uid, user.value.displayName)]
      ensures !posted ==> text == old(text) && store.docs == old(store.docs)
    {
      if !MayPost(text, user, topicId) {
        return false;
      }
      var record := StoredComment(topicId.value, parentId, text, user.value.uid, user.value.displayName);
      posted := store.Add(newId, record, fault);
      if posted {
        text := "";
      }
    }
  }
}
