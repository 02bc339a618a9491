/** CRUD over the keys "conversation:" + id (api/redis_client.py). */
module ConversationStore {
  import opened Wrappers
  import opened Records
  import opened Backend

  const Prefix := "conversation:"

  function Key(id: string): string
  {
    Namespaced(Prefix, id)
  }

  lemma KeyInjective(a: string, b: string)
    ensures Key(a) == Key(b) <==> a == b
  {
  }

  /** Every live key of the conversation namespace. */
  function LiveKeys(s: Store, now: int): (ks: set<string>)
    ensures forall k :: k in ks <==> LiveKey(s, k, now) && HasPrefix(k, Prefix)
  {
    KeysWithPrefix(s, Prefix, now)
  }

  /** What save_conversation keeps true: a conversation key holds a record
      whose own id names that key. */
  ghost predicate WellFormed(s: Store)
  {
    forall k :: k in s && HasPrefix(k, Prefix) ==>
      s[k].value.Record? && Key(s[k].value.conv.id) == k
  }

  /** save_conversation: an unconditional overwrite of conversation:{id}. */
  function SaveConversation(s: Store, c: Conversation): (s': Store)
    ensures Key(c.id) in s' && s'[Key(c.id)] == Entry(Record(c), None)
    ensures s' - {Key(c.id)} == s - {Key(c.id)}
    ensures WellFormed(s) ==> WellFormed(s')
  {
    Set(s, Key(c.id), Record(c))
  }

  /** get_conversation: the stored record, or None when there is none. */
  function GetConversation(s: Store, id: string, now: int): (r: Result<Option<Conversation>, StoreError>)
    ensures !LiveKey(s, Key(id), now) ==> r == Success(None)
    ensures forall c :: r == Success(Some(c)) <==> LiveKey(s, Key(id), now) && s[Key(id)].value == Record(c)
    ensures r.Failure? <==> LiveKey(s, Key(id), now) && s[Key(id)].value.List?
    ensures WellFormed(s) ==> r.Success?
    ensures WellFormed(s) && r.Success? && r.value.Some? ==> r.value.value.id == id
  {
    var r := Get(s, Key(id), now);
    if r.Success? && r.value.Some? then
      KeyInjective(id, r.value.value.id);
      r
    else
      r
  }

  /** delete_conversation: removes conversation:{id}; a missing id is no error. */
  function DeleteConversation(s: Store, id: string): (s': Store)
    ensures Key(id) !in s'
    ensures s' - {Key(id)} == s - {Key(id)}
    ensures Key(id) !in s ==> s' == s
    ensures WellFormed(s) ==> WellFormed(s')
  {
    Del(s, Key(id))
  }

  /** The state delete_all_conversations leaves behind: every live
      conversation key is gone, every other key is as it was. */
  function DeleteAllConversations(s: Store, now: int): (s': Store)
    ensures LiveKeys(s', now) == {}
    ensures s'.Keys <= s.Keys
    ensures forall k :: k in s && !(k in LiveKeys(s, now)) ==> k in s' && s'[k] == s[k]
    ensures WellFormed(s) ==> WellFormed(s')
  {
    s - LiveKeys(s, now)
  }

  /** delete_all_conversations as written: one KEYS, then one DEL per key, in
      whatever order KEYS returned them. */
  method DeleteAllLoop(s: Store, now: int) returns (s': Store)
    ensures s' == DeleteAllConversations(s, now)
  {
    var keys := LiveKeys(s, now);
    var pending := keys;
    s' := s;
    while pending != {}
      invariant pending <= keys
      invariant s' == s - (keys - pending)
      decreases pending
    {
      var k :| k in pending;
      s' := Del(s', k);
      pending := pending - {k};
    }
  }

  /** convs, read in the key order `order`, is one record per live
      conversation key and nothing else. */
  ghost predicate IsListing(s: Store, now: int, convs: seq<Conversation>, order: seq<string>)
  {
    && |order| == |convs|
    && (forall i, j :: 0 <= i < j < |order| ==> order[i] != order[j])
    && (forall k :: k in order <==> k in LiveKeys(s, now))
    && (forall i :: 0 <= i < |order| ==> order[i] in s && s[order[i]].value == Record(convs[i]))
  }

  /** get_conversations: KEYS, then one GET per key. The order of the result
      is whatever order KEYS produced; `order` records it. A key holding a
      list aborts the whole listing. */
  method GetConversations(s: Store, now: int) returns (r: Result<seq<Conversation>, StoreError>, ghost order: seq<string>)
    ensures r.Success? ==> IsListing(s, now, r.value, order)
    ensures r.Failure? <==> exists k :: k in LiveKeys(s, now) && s[k].value.List?
    ensures WellFormed(s) ==> r.Success?
  {
    var keys := LiveKeys(s, now);
    var pending := keys;
    var convs: seq<Conversation> := [];
    order := [];
    while pending != {}
      invariant pending <= keys
      invariant |order| == |convs|
      invariant forall i, j :: 0 <= i < j < |order| ==> order[i] != order[j]
      invariant forall k :: k in order <==> k in keys && k !in pending
      invariant forall i :: 0 <= i < |order| ==> order[i] in s && s[order[i]].value == Record(convs[i])
      decreases pending
    {
      var k :| k in pending;
      var data := Get(s, k, now);
      match data {
        case Failure(e) =>
          return Failure(e), order;
        case Success(v) =>
          convs := convs + [v.value];
          order := order + [k];
      }
      pending := pending - {k};
    }
    r := Success(convs);
  }

  /** The round trip of save and get. */
  lemma SaveThenGet(s: Store, c: Conversation, now: int)
    ensures GetConversation(SaveConversation(s, c), c.id, now) == Success(Some(c))
  {
  }

  /** Saving never disturbs another conversation. */
  lemma SaveIsolated(s: Store, c: Conversation, id: string, now: int)
    requires id != c.id
    ensures GetConversation(SaveConversation(s, c), id, now) == GetConversation(s, id, now)
  {
  }

  /** A second save under the same id leaves only the second record. */
  lemma SaveOverwrites(s: Store, c1: Conversation, c2: Conversation)
    requires c1.id == c2.id
    ensures SaveConversation(SaveConversation(s, c1), c2) == SaveConversation(s, c2)
  {
  }

  /** Deleting makes get return None, and deleting twice is deleting once. */
  lemma DeleteThenGet(s: Store, id: string, now: int)
    ensures GetConversation(DeleteConversation(s, id), id, now) == Success(None)
    ensures DeleteConversation(DeleteConversation(s, id), id) == DeleteConversation(s, id)
  {
  }

  /** After delete-all, every get answers None and every listing is empty. */
  lemma DeleteAllEmpties(s: Store, id: string, now: int, convs: seq<Conversation>, order: seq<string>)
    ensures GetConversation(DeleteAllConversations(s, now), id, now) == Success(None)
    ensures IsListing(DeleteAllConversations(s, now), now, convs, order) ==> convs == []
  {
    var s' := DeleteAllConversations(s, now);
    if IsListing(s', now, convs, order) && order != [] {
      HeadIsMember(order);
    }
  }

  lemma HeadIsMember<T>(xs: seq<T>)
    requires xs != []
    ensures xs[0] in xs
  {
  }

  /** On a well-formed store the listing holds exactly the records that get
      returns: a record with id x is listed iff get(x) finds it. */
  lemma ListingMatchesGet(s: Store, now: int, convs: seq<Conversation>, order: seq<string>, id: string)
    requires WellFormed(s)
    requires IsListing(s, now, convs, order)
    ensures forall c :: c in convs && c.id == id <==> GetConversation(s, id, now) == Success(Some(c))
  {
    forall c
      ensures c in convs && c.id == id <==> GetConversation(s, id, now) == Success(Some(c))
    {
      if c in convs && c.id == id {
        var i :| 0 <= i < |convs| && convs[i] == c;
        assert s[order[i]].value == Record(c);
        assert order[i] in LiveKeys(s, now);
        assert Key(c.id) == order[i];
      }
      if GetConversation(s, id, now) == Success(Some(c)) {
        assert Key(id) in LiveKeys(s, now);
        assert Key(id) in order;
        var i :| 0 <= i < |order| && order[i] == Key(id);
        assert convs[i] == c;
      }
    }
  }
}
