/** The split of a conversation in `/generate`: the query is the content of the most recent user
    message, and that one message is taken out of the history handed to the chain. */
module History {
  import opened Wrappers
  import opened Messages

  const UserRole: string := "user"

  /** No message of `h` has the user role. */
  ghost predicate NoUser(h: seq<Message>)
  {
    forall j :: 0 <= j < |h| ==> h[j].role != UserRole
  }

  /** `i` is the position of the most recent user message of `h`. */
  ghost predicate IsLastUser(h: seq<Message>, i: int)
  {
    0 <= i < |h| && h[i].role == UserRole && forall j :: i < j < |h| ==> h[j].role != UserRole
  }

  /** The most recent user message is unique. */
  lemma LastUserUnique(h: seq<Message>, i: int, k: int)
    requires IsLastUser(h, i) && IsLastUser(h, k)
    ensures i == k
  {
  }

  /** The query: `next(m.content for m in reversed(h) if m.role == 'user')`, or `None`. */
  function LastUserQuery(h: seq<Message>): (r: Option<string>)
    ensures r.None? <==> NoUser(h)
    ensures r.Some? ==> exists i :: IsLastUser(h, i) && h[i].content == r.value
  {
    if h == [] then None
    else if h[|h| - 1].role == UserRole then Some(h[|h| - 1].content)
    else
      var r := LastUserQuery(h[..|h| - 1]);
      LastUserOfPrefix(h);
      r
  }

  /** When the last message is not a user one, the most recent user message of `h` is that of
      `h` without its last message, and `h` has none exactly when that prefix has none. */
  lemma LastUserOfPrefix(h: seq<Message>)
    requires h != [] && h[|h| - 1].role != UserRole
    ensures NoUser(h) <==> NoUser(h[..|h| - 1])
    ensures forall i :: IsLastUser(h[..|h| - 1], i) ==> IsLastUser(h, i) && h[..|h| - 1][i] == h[i]
  {
  }

  /** The position of the most recent user message, if there is one. */
  function LastUserIndex(h: seq<Message>): (r: Option<nat>)
    ensures r.None? <==> NoUser(h)
    ensures r.Some? ==> IsLastUser(h, r.value)
  {
    if h == [] then None
    else if h[|h| - 1].role == UserRole then Some(|h| - 1)
    else
      assert forall j :: 0 <= j < |h| - 1 ==> h[..|h| - 1][j] == h[j];
      LastUserIndex(h[..|h| - 1])
  }

  /** `h` with the element at position `i` deleted (`del h[i]`). */
  function RemoveAt(h: seq<Message>, i: nat): (r: seq<Message>)
    requires i < |h|
    ensures |r| == |h| - 1
    ensures forall j :: 0 <= j < i ==> r[j] == h[j]
    ensures forall j :: i <= j < |r| ==> r[j] == h[j + 1]
  {
    h[..i] + h[i + 1..]
  }

  /** The history handed on to the chain: the most recent user message taken out, or all of
      `h` when it has none. */
  function WithoutLastUser(h: seq<Message>): (r: seq<Message>)
    ensures NoUser(h) <==> r == h
    ensures !NoUser(h) ==> |r| == |h| - 1 && multiset(r) + multiset{h[LastUserIndex(h).value]} == multiset(h)
    ensures !NoUser(h) ==> NoUser(r[LastUserIndex(h).value..])
  {
    match LastUserIndex(h)
    case None => h
    case Some(i) =>
      assert h == h[..i] + [h[i]] + h[i + 1..];
      var r := RemoveAt(h, i);
      assert forall j :: i <= j < |r| ==> r[j] == h[j + 1];
      assert forall j :: 0 <= j < |r[i..]| ==> r[i..][j] == r[i + j];
      r
  }

  /** The deletion loop of `generate_answer`: walk the positions from the last down, delete the
      first user message met, and stop. */
  method RemoveLastUserMessage(history: seq<Message>) returns (chatHistory: seq<Message>)
    ensures chatHistory == WithoutLastUser(history)
  {
    chatHistory := history;
    var i := |chatHistory|;
    while i > 0
      invariant 0 <= i <= |history|
      invariant chatHistory == history
      invariant forall j :: i <= j < |history| ==> history[j].role != UserRole
    {
      i := i - 1;
      if chatHistory[i].role == UserRole {
        chatHistory := chatHistory[..i] + chatHistory[i + 1..];
        LastUserUnique(history, i, LastUserIndex(history).value);
        return;
      }
    }
  }

  /** The deletion takes out exactly one message, the most recent user one, and keeps the order of
      the others; a history without user messages is left as it is. */
  lemma WithoutLastUserRemovesOne(h: seq<Message>)
    ensures NoUser(h) ==> WithoutLastUser(h) == h
    ensures !NoUser(h) ==> exists i :: IsLastUser(h, i) && WithoutLastUser(h) == h[..i] + h[i + 1..]
  {
    if !NoUser(h) {
      var i := LastUserIndex(h).value;
      assert IsLastUser(h, i) && WithoutLastUser(h) == h[..i] + h[i + 1..];
    }
  }

  /** Rebuilding: putting the removed message back at its position gives the original history. */
  lemma {:induction false} WithoutLastUserReinsert(h: seq<Message>, i: nat)
    requires IsLastUser(h, i)
    ensures i <= |WithoutLastUser(h)|
    ensures WithoutLastUser(h)[..i] + [h[i]] + WithoutLastUser(h)[i..] == h
  {
    LastUserUnique(h, i, LastUserIndex(h).value);
    var r := WithoutLastUser(h);
    assert r[..i] == h[..i];
    assert r[i..] == h[i + 1..];
  }

  /** The history decomposed around its last user message: for `pre + [u] + post` with `u` a user
      message and no user message in `post`, the query is `u`'s content and the history passed on
      is `pre + post`. */
  lemma SplitAroundLastUser(pre: seq<Message>, u: Message, post: seq<Message>)
    requires u.role == UserRole && NoUser(post)
    ensures LastUserQuery(pre + [u] + post) == Some(u.content)
    ensures WithoutLastUser(pre + [u] + post) == pre + post
  {
    var h := pre + [u] + post;
    var i := |pre|;
    assert h[i] == u;
    assert forall j :: i < j < |h| ==> h[j] == post[j - i - 1];
    assert IsLastUser(h, i);
    var k :| IsLastUser(h, k) && h[k].content == LastUserQuery(h).value;
    LastUserUnique(h, i, k);
    LastUserUnique(h, i, LastUserIndex(h).value);
    assert h[..i] == pre;
    assert h[i + 1..] == post;
  }

  /** The query and the deletion agree: there is a query exactly when the history passed on is
      one message shorter; the removed message carries the query; and from the removed position on,
      the history passed on holds no user message. */
  lemma QueryMatchesDeletion(h: seq<Message>)
    ensures LastUserQuery(h).Some? <==> |WithoutLastUser(h)| == |h| - 1
    ensures LastUserQuery(h).None? ==> WithoutLastUser(h) == h
    ensures LastUserQuery(h).Some? ==>
      exists i :: IsLastUser(h, i) && h[i].content == LastUserQuery(h).value &&
        WithoutLastUser(h) == RemoveAt(h, i) &&
        forall j :: i <= j < |WithoutLastUser(h)| ==> WithoutLastUser(h)[j].role != UserRole
  {
    var q := LastUserQuery(h);
    var k := LastUserIndex(h);
    if q.Some? {
      var i :| IsLastUser(h, i) && h[i].content == q.value;
      LastUserUnique(h, i, k.value);
      var r := RemoveAt(h, i);
      assert WithoutLastUser(h) == r;
      assert forall j :: i <= j < |r| ==> r[j].role != UserRole by {
        forall j | i <= j < |r| ensures r[j].role != UserRole {
          assert r[j] == h[j + 1];
        }
      }
    } else {
      assert k.None?;
    }
  }

  /** A worked conversation: system, user "a", assistant, user "b" gives the
      query "b" and leaves system, user "a", assistant. */
  lemma ExampleConversation()
    ensures var h := [Message("system", "s"), Message("user", "a"), Message("assistant", "x"), Message("user", "b")];
      LastUserQuery(h) == Some("b") && WithoutLastUser(h) == h[..3]
  {
    var h := [Message("system", "s"), Message("user", "a"), Message("assistant", "x"), Message("user", "b")];
    SplitAroundLastUser(h[..3], h[3], []);
    assert h[..3] + [h[3]] + [] == h;
  }
}
