/** seed_examples (api/seed_examples.py): optionally delete every
    conversation, then save three fixed example conversations in order. The
    example ids (uuid4) and the twelve clock readings taken while the
    examples are built are parameters. */
module Seed {
  import opened Wrappers
  import opened Records
  import opened Backend
  import opened ConversationStore

  const Titles := ["Introduction to AI", "Python Programming", "Web Development"]

  const Questions := [
    "What is artificial intelligence?",
    "How do I write a simple Python function?",
    "What are the main components of a web application?"
  ]

  const Answers := [
    "Artificial Intelligence (AI) is the simulation of human intelligence by machines that are programmed to think and learn like humans. It encompasses a wide range of technologies and approaches that enable computers to perform tasks that typically require human intelligence, such as visual perception, speech recognition, decision-making, and language translation.",
    "Here's a simple example of a Python function:\n\ndef greet(name):\n    return f'Hello, {name}!'\n\nYou can call it like this:\nprint(greet('Alice'))  # Output: Hello, Alice!",
    "A typical web application consists of several key components:\n\n1. Frontend (Client-side):\n   - HTML for structure\n   - CSS for styling\n   - JavaScript for interactivity\n\n2. Backend (Server-side):\n   - Server (e.g., Node.js, Python, Java)\n   - Database (e.g., MySQL, MongoDB)\n   - API endpoints\n\n3. Additional components:\n   - Authentication system\n   - File storage\n   - Caching layer\n   - Load balancer"
  ]

  /** Example i, built from its id and four clock readings taken in source
      order: the two message timestamps, then created_at, then updated_at. */
  function Example(i: nat, id: string, at: seq<string>): (c: Conversation)
    requires i < 3 && |at| == 12
    ensures c.id == id && c.title == Titles[i]
    ensures c.messages == [Message(UserRole, Questions[i], at[4 * i]), Message(AssistantRole, Answers[i], at[4 * i + 1])]
    ensures c.createdAt == at[4 * i + 2] && c.updatedAt == at[4 * i + 3]
  {
    Conversation(
      id,
      Titles[i],
      [Message(UserRole, Questions[i], at[4 * i]), Message(AssistantRole, Answers[i], at[4 * i + 1])],
      at[4 * i + 2],
      at[4 * i + 3])
  }

  /** EXAMPLE_CONVERSATIONS. */
  function ExampleConversations(ids: seq<string>, at: seq<string>): (ex: seq<Conversation>)
    requires |ids| == 3 && |at| == 12
    ensures |ex| == 3
    ensures forall i :: 0 <= i < 3 ==> ex[i] == Example(i, ids[i], at)
  {
    [Example(0, ids[0], at), Example(1, ids[1], at), Example(2, ids[2], at)]
  }

  /** One backend step of the seeding. */
  datatype Step = ClearAll | Put(conv: Conversation)

  /** The steps, in the order the seeding takes them. */
  function Steps(clear: bool, examples: seq<Conversation>): (steps: seq<Step>)
    ensures clear ==> |steps| == |examples| + 1 && steps[0] == ClearAll
    ensures !clear ==> |steps| == |examples|
    ensures var offset := if clear then 1 else 0;
      forall i :: 0 <= i < |examples| ==> steps[i + offset] == Put(examples[i])
  {
    (if clear then [ClearAll] else []) + seq(|examples|, i requires 0 <= i < |examples| => Put(examples[i]))
  }

  function ApplyStep(s: Store, now: int, step: Step): Store
  {
    match step
    case ClearAll => DeleteAllConversations(s, now)
    case Put(c) => SaveConversation(s, c)
  }

  /** The store after taking the steps in order. */
  function Apply(s: Store, now: int, steps: seq<Step>): Store
    decreases |steps|
  {
    if steps == [] then s else Apply(ApplyStep(s, now, steps[0]), now, steps[1..])
  }

  /** seed_examples(clear_existing). `failAt` is the step at which the backend
      fails, if it does: the exception is caught and printed, so the store is
      left with the steps before it applied and nothing is propagated. */
  function SeedExamples(s: Store, now: int, clear: bool, ids: seq<string>, at: seq<string>, failAt: Option<nat>)
    : (s': Store)
    requires |ids| == 3 && |at| == 12
    ensures var steps := Steps(clear, ExampleConversations(ids, at));
      exists n :: 0 <= n <= |steps| && s' == Apply(s, now, steps[..n])
    ensures failAt.None? ==> s' == Apply(s, now, Steps(clear, ExampleConversations(ids, at)))
    ensures var steps := Steps(clear, ExampleConversations(ids, at));
      failAt.Some? && failAt.value < |steps| ==> s' == Apply(s, now, steps[..failAt.value])
    ensures var steps := Steps(clear, ExampleConversations(ids, at));
      failAt.Some? && failAt.value >= |steps| ==> s' == Apply(s, now, steps)
  {
    var steps := Steps(clear, ExampleConversations(ids, at));
    var n := if failAt.Some? && failAt.value < |steps| then failAt.value else |steps|;
    assert steps[..|steps|] == steps;
    Apply(s, now, steps[..n])
  }

  /** Only the example keys change: every other conversation, and every key
      outside the conversation namespace, is untouched by a seeding that
      does not clear, whatever failure cuts it short. */
  lemma {:induction false} ApplyPutsOnly(s: Store, now: int, steps: seq<Step>, keys: set<string>)
    requires forall i :: 0 <= i < |steps| ==> steps[i].Put? && Key(steps[i].conv.id) in keys
    ensures Apply(s, now, steps) - keys == s - keys
    decreases |steps|
  {
    if steps != [] {
      ApplyPutsOnly(SaveConversation(s, steps[0].conv), now, steps[1..], keys);
      assert SaveConversation(s, steps[0].conv) - keys == s - keys;
    }
  }

  /** Without clearing, conversations other than the examples stay as they
      were, and so does every key outside the conversation namespace. */
  lemma SeedWithoutClearKeepsOthers(s: Store, now: int, ids: seq<string>, at: seq<string>, failAt: Option<nat>, id: string)
    requires |ids| == 3 && |at| == 12
    requires id !in ids
    ensures var s' := SeedExamples(s, now, false, ids, at, failAt);
      && GetConversation(s', id, now) == GetConversation(s, id, now)
      && s' - {Key(ids[0]), Key(ids[1]), Key(ids[2])} == s - {Key(ids[0]), Key(ids[1]), Key(ids[2])}
  {
    var keys := {Key(ids[0]), Key(ids[1]), Key(ids[2])};
    var steps := Steps(false, ExampleConversations(ids, at));
    var s' := SeedExamples(s, now, false, ids, at, failAt);
    var n :| 0 <= n <= |steps| && s' == Apply(s, now, steps[..n]);
    ApplyPutsOnly(s, now, steps[..n], keys);
    KeyInjective(id, ids[0]);
    KeyInjective(id, ids[1]);
    KeyInjective(id, ids[2]);
    assert Key(id) !in keys;
    assert Key(id) in s' <==> Key(id) in s' - keys;
    assert Key(id) in s <==> Key(id) in s - keys;
  }

  /** A completed clearing seed is delete-all followed by the three saves. */
  lemma ClearingSeedSteps(s: Store, now: int, ids: seq<string>, at: seq<string>)
    requires |ids| == 3 && |at| == 12
    ensures var ex := ExampleConversations(ids, at);
      SeedExamples(s, now, true, ids, at, None)
        == SaveConversation(SaveConversation(SaveConversation(DeleteAllConversations(s, now), ex[0]), ex[1]), ex[2])
  {
    var ex := ExampleConversations(ids, at);
    var steps := Steps(true, ex);
    assert steps == [ClearAll, Put(ex[0]), Put(ex[1]), Put(ex[2])];
    var s0 := DeleteAllConversations(s, now);
    var s1 := SaveConversation(s0, ex[0]);
    var s2 := SaveConversation(s1, ex[1]);
    var s3 := SaveConversation(s2, ex[2]);
    var rest1, rest2, rest3 := [Put(ex[0]), Put(ex[1]), Put(ex[2])], [Put(ex[1]), Put(ex[2])], [Put(ex[2])];
    assert steps[1..] == rest1 && rest1[1..] == rest2 && rest2[1..] == rest3 && rest3[1..] == [];
    assert Apply(s2, now, rest3) == Apply(s3, now, []) == s3;
    assert Apply(s1, now, rest2) == Apply(s2, now, rest3);
    assert Apply(s0, now, rest1) == Apply(s1, now, rest2);
  }

  /** A completed clearing seed leaves exactly the three example keys live in
      the conversation namespace. */
  lemma ClearingSeedKeys(s: Store, now: int, ids: seq<string>, at: seq<string>)
    requires |ids| == 3 && |at| == 12
    ensures LiveKeys(SeedExamples(s, now, true, ids, at, None), now) == {Key(ids[0]), Key(ids[1]), Key(ids[2])}
  {
    ClearingSeedSteps(s, now, ids, at);
    var ex := ExampleConversations(ids, at);
    var s0 := DeleteAllConversations(s, now);
    var s3 := SaveConversation(SaveConversation(SaveConversation(s0, ex[0]), ex[1]), ex[2]);
    forall k
      ensures k in LiveKeys(s3, now) <==> k in {Key(ids[0]), Key(ids[1]), Key(ids[2])}
    {
      if k != Key(ids[0]) && k != Key(ids[1]) && k != Key(ids[2]) {
        assert k !in LiveKeys(s0, now);
      }
    }
  }

  /** With distinct ids, a completed clearing seed holds each example under
      its own id. */
  lemma ClearingSeedHoldsExamples(s: Store, now: int, ids: seq<string>, at: seq<string>, i: nat)
    requires |ids| == 3 && |at| == 12
    requires ids[0] != ids[1] && ids[0] != ids[2] && ids[1] != ids[2]
    requires i < 3
    ensures GetConversation(SeedExamples(s, now, true, ids, at, None), ids[i], now)
         == Success(Some(ExampleConversations(ids, at)[i]))
  {
    ClearingSeedSteps(s, now, ids, at);
    KeyInjective(ids[0], ids[1]);
    KeyInjective(ids[0], ids[2]);
    KeyInjective(ids[1], ids[2]);
  }

  /** A clearing seed never touches a key outside the conversation namespace. */
  lemma ClearingSeedKeepsOtherNamespaces(s: Store, now: int, ids: seq<string>, at: seq<string>, k: string)
    requires |ids| == 3 && |at| == 12
    requires k in s && !HasPrefix(k, Prefix)
    ensures var s' := SeedExamples(s, now, true, ids, at, None);
      k in s' && s'[k] == s[k]
  {
    ClearingSeedSteps(s, now, ids, at);
    assert k != Key(ids[0]) && k != Key(ids[1]) && k != Key(ids[2]);
  }

  /** A failure cuts the seeding short after the steps before it: with
      clearing and a failure at the second save, the namespace holds the
      first example alone. */
  lemma FailureLeavesPartialSeed(s: Store, now: int, ids: seq<string>, at: seq<string>)
    requires |ids| == 3 && |at| == 12
    ensures var s' := SeedExamples(s, now, true, ids, at, Some(2));
      && LiveKeys(s', now) == {Key(ids[0])}
      && GetConversation(s', ids[0], now) == Success(Some(ExampleConversations(ids, at)[0]))
  {
    var ex := ExampleConversations(ids, at);
    var steps := Steps(true, ex);
    assert steps[..2] == [ClearAll, Put(ex[0])];
    var s0 := DeleteAllConversations(s, now);
    var s1 := SaveConversation(s0, ex[0]);
    assert Apply(s, now, steps[..2]) == s1 by {
      var rest1 := [Put(ex[0])];
      assert steps[..2][1..] == rest1 && rest1[1..] == [];
      assert Apply(s0, now, rest1) == Apply(s1, now, []) == s1;
    }
    forall k
      ensures k in LiveKeys(s1, now) <==> k == Key(ids[0])
    {
      if k != Key(ids[0]) {
        assert k !in LiveKeys(s0, now);
      }
    }
  }
}
